/**
 Who owns an Unlocking state, over every interleaving of guard calls.  A token
 is the generation that one entry into Unlocking issued.
 */
module Reservations {
  import opened OwnershipSpec

  /** Step i of the run issues token g. */
  ghost predicate Issues(ms: seq<Machine>, i: int, g: nat)
    requires 0 <= i < |ms| - 1
  {
    ms[i + 1].generation == g && ms[i].generation + 1 == g
  }

  /** The reservation g is the current one in state k of the run. */
  ghost predicate Holds(ms: seq<Machine>, k: int, g: nat)
    requires 0 <= k < |ms|
  {
    ms[k].state == Unlocking && ms[k].generation == g
  }

  ghost predicate HeldThroughout(ms: seq<Machine>, i: int, j: int, g: nat)
    requires 0 <= i <= j < |ms|
  {
    forall k :: i <= k <= j ==> Holds(ms, k, g)
  }

  lemma {:induction false} GenerationGrows(mode: Mode, ms: seq<Machine>, calls: seq<Call>, i: int, j: int)
    requires IsRun(mode, ms, calls) && 0 <= i <= j < |ms|
    ensures ms[i].generation <= ms[j].generation <= ms[i].generation + (j - i)
    decreases j - i
  {
    if i < j {
      GenerationGrows(mode, ms, calls, i, j - 1);
      assert ms[j - 1 + 1] == Step(mode, ms[j - 1], calls[j - 1]).0;
    }
  }

  /** No token is ever issued twice. */
  lemma {:induction false} TokensNeverRepeat(mode: Mode, ms: seq<Machine>, calls: seq<Call>, i: int, j: int, g: nat)
    requires IsRun(mode, ms, calls) && 0 <= i < |calls| && 0 <= j < |calls|
    requires Issues(ms, i, g) && Issues(ms, j, g)
    ensures i == j
  {
    if i < j {
      GenerationGrows(mode, ms, calls, i + 1, j);
    } else if j < i {
      GenerationGrows(mode, ms, calls, j + 1, i);
    }
  }

  /** Unlocking now with a generation seen before: Unlocking without a break since. */
  lemma {:induction false} NoBreakWithinGeneration(mode: Mode, ms: seq<Machine>, calls: seq<Call>, i: int, j: int)
    requires IsRun(mode, ms, calls) && 0 <= i <= j < |ms|
    requires ms[j].state == Unlocking && ms[i].generation == ms[j].generation
    ensures HeldThroughout(ms, i, j, ms[j].generation)
    decreases j - i
  {
    if i < j {
      assert ms[j - 1 + 1] == Step(mode, ms[j - 1], calls[j - 1]).0;
      GenerationGrows(mode, ms, calls, i, j - 1);
      NoBreakWithinGeneration(mode, ms, calls, i, j - 1);
    }
  }

  /** Some step of a guard's life issued every generation it has reached. */
  lemma {:induction false} EveryTokenWasIssued(mode: Mode, ms: seq<Machine>, calls: seq<Call>, j: int, g: nat)
    returns (i: int)
    requires IsGuardRun(mode, ms, calls) && 0 <= j < |ms| && 0 < g <= ms[j].generation
    ensures 0 <= i < j && Issues(ms, i, g)
    decreases j
  {
    assert ms[j - 1 + 1] == Step(mode, ms[j - 1], calls[j - 1]).0;
    if g <= ms[j - 1].generation {
      i := EveryTokenWasIssued(mode, ms, calls, j - 1, g);
    } else {
      i := j - 1;
    }
  }

  /**
   Reservation ownership.  In every run of the guard, a machine that is Unlocking
   with generation g holds a token that exactly one step issued, and it has been
   Unlocking under g ever since that step.
   */
  lemma ReservationUnbrokenSinceIssue(mode: Mode, ms: seq<Machine>, calls: seq<Call>, j: int)
    returns (i: int)
    requires IsGuardRun(mode, ms, calls) && 0 <= j < |ms| && ms[j].state == Unlocking
    ensures 0 <= i < j && Issues(ms, i, ms[j].generation)
    ensures HeldThroughout(ms, i + 1, j, ms[j].generation)
    ensures forall k :: 0 <= k < |calls| && Issues(ms, k, ms[j].generation) ==> k == i
  {
    UnlockingHasToken(mode, ms, calls, j);
    var g := ms[j].generation;
    i := EveryTokenWasIssued(mode, ms, calls, j, g);
    NoBreakWithinGeneration(mode, ms, calls, i + 1, j);
    forall k | 0 <= k < |calls| && Issues(ms, k, g) ensures k == i {
      TokensNeverRepeat(mode, ms, calls, k, i, g);
    }
  }

  lemma {:induction false} UnlockingHasToken(mode: Mode, ms: seq<Machine>, calls: seq<Call>, j: int)
    requires IsGuardRun(mode, ms, calls) && 0 <= j < |ms| && ms[j].state == Unlocking
    ensures ms[j].generation > 0
    decreases j
  {
    if j > 0 {
      assert ms[j - 1 + 1] == Step(mode, ms[j - 1], calls[j - 1]).0;
      if ms[j - 1].state == Unlocking { UnlockingHasToken(mode, ms, calls, j - 1); }
    }
  }

  /**
   What a dropped request may still touch: the cancel guard holding token g (issued
   at step i) changes the machine exactly when g's own reservation has stood in
   every state since, and then it re-latches the error as one that may be probed again.
   */
  lemma CancelGuardActsOnlyOnItsReservation(
    mode: Mode, ms: seq<Machine>, calls: seq<Call>, i: int, j: int, g: nat)
    requires IsRun(mode, ms, calls) && 0 <= i < j < |calls|
    requires Issues(ms, i, g) && calls[j] == RestoreIfUnlocking(g)
    ensures ms[j + 1] != ms[j] <==> HeldThroughout(ms, i + 1, j, g)
    ensures ms[j + 1] != ms[j] ==> ms[j + 1].state == Error && ms[j + 1].errorReprobeable
    ensures ms[j + 1].generation == ms[j].generation && ms[j + 1].attempts == ms[j].attempts
    ensures !Holds(ms, j + 1, g)
  {
    if Holds(ms, j, g) {
      NoBreakWithinGeneration(mode, ms, calls, i + 1, j);
    } else {
      assert !HeldThroughout(ms, i + 1, j, g);
    }
  }

  /** Likewise for the absent-seed branch of the recovery claim. */
  lemma AbsentSeedClaimActsOnlyOnItsReservation(
    mode: Mode, ms: seq<Machine>, calls: seq<Call>, i: int, j: int, g: nat, seen: Observation)
    requires IsRun(mode, ms, calls) && 0 <= i < j < |calls|
    requires Issues(ms, i, g) && calls[j] == ClaimRecovered(g, seen) && !seen.Owned()
    ensures ms[j + 1] != ms[j] <==> HeldThroughout(ms, i + 1, j, g)
    ensures ms[j + 1] != ms[j] <==> Step(mode, ms[j], calls[j]).1 == Claimed(NowUnclaimed)
    ensures ms[j + 1] != ms[j] ==> ms[j + 1].state == Unclaimed
  {
    if Holds(ms, j, g) {
      NoBreakWithinGeneration(mode, ms, calls, i + 1, j);
    } else {
      assert !HeldThroughout(ms, i + 1, j, g);
    }
  }

  /**
   A recovery that was handed the unlock reservation can no longer be disturbed by
   its own cancel guard: from the claim on, dropping the guard changes nothing, in
   every continuation of the run.
   */
  lemma CancelGuardInertAfterClaim(
    mode: Mode, ms: seq<Machine>, calls: seq<Call>, i: int, c: int, j: int, g: nat, seen: Observation)
    requires IsRun(mode, ms, calls) && 0 <= i < c < j < |calls|
    requires Issues(ms, i, g)
    requires calls[c] == ClaimRecovered(g, seen) && Step(mode, ms[c], calls[c]).1 != Claimed(Conflict)
    requires calls[j] == RestoreIfUnlocking(g)
    ensures ms[j + 1] == ms[j]
  {
    assert !Holds(ms, c + 1, g) by {
      GenerationGrows(mode, ms, calls, i + 1, c);
      assert ms[c + 1] == Step(mode, ms[c], calls[c]).0;
    }
    CancelGuardActsOnlyOnItsReservation(mode, ms, calls, i, j, g);
  }

  /** A reservation ends once: no state holds g again after one that does not. */
  lemma ReservationEndsOnce(mode: Mode, ms: seq<Machine>, calls: seq<Call>, i: int, k: int, l: int, g: nat)
    requires IsRun(mode, ms, calls) && 0 <= i < k < l < |ms|
    requires Issues(ms, i, g) && !Holds(ms, k, g)
    ensures !Holds(ms, l, g)
  {
    if Holds(ms, l, g) { NoBreakWithinGeneration(mode, ms, calls, i + 1, l); }
  }

  /** Tokens stay below 2^64 for as long as fewer than 2^64 calls were made. */
  lemma TokensFitTheCounter(mode: Mode, ms: seq<Machine>, calls: seq<Call>, j: int)
    requires IsGuardRun(mode, ms, calls) && 0 <= j < |ms| && |calls| < 0x1_0000_0000_0000_0000
    ensures ms[j].generation < 0x1_0000_0000_0000_0000
  {
    GenerationGrows(mode, ms, calls, 0, j);
  }
}
