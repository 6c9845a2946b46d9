/**
 The guard as the program holds it: one mutable record behind one lock.  Each
 method runs under that lock, so each is one atomic step; its contract equates
 the new record with the step function.
 */
module OwnershipGuards {
  import opened Wrappers
  import opened OwnershipSpec

  lemma {:induction false} FreshOfFront(attempts: seq<int>, now: int)
    requires attempts != [] && now - attempts[0] >= UNLOCK_WINDOW
    ensures Fresh(attempts, now) == Fresh(attempts[1..], now)
  {
    assert [] + Fresh(attempts[1..], now) == Fresh(attempts[1..], now);
  }

  /** In a sorted queue a fresh front means that everything is fresh. */
  lemma {:induction false} FreshOfAllFresh(attempts: seq<int>, now: int)
    requires Sorted(attempts)
    requires attempts != [] ==> now - attempts[0] < UNLOCK_WINDOW
    ensures Fresh(attempts, now) == attempts
  {
    if attempts != [] {
      FreshOfAllFresh(attempts[1..], now);
      assert attempts == [attempts[0]] + attempts[1..];
    }
  }

  class OwnershipGuard {
    const mode: Mode
    var state: State
    var error: Option<string>
    var errorReprobeable: bool
    var attempts: seq<int>
    var generation: nat

    ghost predicate Valid() reads this { Sorted(attempts) }

    function Snapshot(): Machine reads this {
      Machine(state, error, errorReprobeable, attempts, generation)
    }

    constructor (mode: Mode)
      ensures Valid() && this.mode == mode && Snapshot() == Initial(mode)
    {
      this.mode := mode;
      state := if mode.RequiresManualUnlock() then Locked else Unlocked;
      error, errorReprobeable, attempts, generation := None, false, [], 0;
    }

    /** Front-only pruning of the attempt queue. */
    method PruneExpiredAttempts(now: int)
      requires Valid()
      modifies this`attempts
      ensures Valid() && attempts == Fresh(old(attempts), now)
    {
      ghost var before := attempts;
      while attempts != []
        invariant Sorted(attempts)
        invariant Fresh(attempts, now) == Fresh(before, now)
        decreases |attempts|
      {
        if now - attempts[0] >= UNLOCK_WINDOW {
          FreshOfFront(attempts, now);
          attempts := attempts[1..];
        } else {
          break;
        }
      }
      FreshOfAllFresh(attempts, now);
    }

    method BeginSecretOperationAttempt(now: int) returns (r: Reply)
      requires Valid() && NotAfter(attempts, now)
      modifies this
      ensures Valid() && (Snapshot(), r) == Step(mode, old(Snapshot()), BeginSecretOperation(now))
    {
      if !mode.RequiresManualUnlock() { return Done; }
      PruneExpiredAttempts(now);
      FreshNotAfter(old(attempts), now);
      if |attempts| >= UNLOCK_MAX_ATTEMPTS { return Refused(RateLimited); }
      attempts := attempts + [now];
      error := None;
      return Done;
    }

    method BeginUnlockAttempt(now: int) returns (r: Reply)
      requires Valid() && NotAfter(attempts, now)
      modifies this
      ensures Valid() && (Snapshot(), r) == Step(mode, old(Snapshot()), BeginUnlock(now))
    {
      if !mode.RequiresManualUnlock() { return Done; }
      PruneExpiredAttempts(now);
      FreshNotAfter(old(attempts), now);
      if |attempts| >= UNLOCK_MAX_ATTEMPTS { return Refused(RateLimited); }
      if state != Locked { return Refused(NotLocked); }
      attempts := attempts + [now];
      generation := generation + 1;
      state := Unlocking;
      error := None;
      return Done;
    }

    method BeginRecoveryFromLatchedError(now: int) returns (r: Reply)
      requires Valid() && NotAfter(attempts, now)
      modifies this
      ensures Valid() && (Snapshot(), r) == Step(mode, old(Snapshot()), BeginRecoveryFromError(now))
    {
      PruneExpiredAttempts(now);
      FreshNotAfter(old(attempts), now);
      if |attempts| >= UNLOCK_MAX_ATTEMPTS { return Refused(RateLimited); }
      if state != Error || !errorReprobeable { return Refused(NotLocked); }
      attempts := attempts + [now];
      generation := generation + 1;
      state := Unlocking;
      return Reserved(generation);
    }

    method BeginVerification() returns (r: Reply)
      requires Valid()
      modifies this
      ensures Valid() && (Snapshot(), r) == Step(mode, old(Snapshot()), BeginRecoveryVerification)
    {
      if state != Locked && state != Unclaimed { return Refused(NotLocked); }
      generation := generation + 1;
      state := Unlocking;
      error := None;
      return Done;
    }

    method ClaimRecoveredState(token: nat, seen: Observation) returns (r: Reply)
      requires Valid()
      modifies this
      ensures Valid() && (Snapshot(), r) == Step(mode, old(Snapshot()), ClaimRecovered(token, seen))
    {
      if seen.encryptedPresent || seen.sealedPresent {
        if state == Locked {
          generation := generation + 1;
          state := Unlocking;
          error := None;
          return Claimed(UnlockReservation);
        }
        return Claimed(Conflict);
      } else if state == Unlocking && generation == token {
        state := Unclaimed;
        error := None;
        attempts := [];
        return Claimed(NowUnclaimed);
      }
      return Claimed(Conflict);
    }

    method RestoreReprobeableErrorIfUnlocking(token: nat)
      requires Valid()
      modifies this
      ensures Valid() && Snapshot() == Step(mode, old(Snapshot()), RestoreIfUnlocking(token)).0
    {
      if state != Unlocking || generation != token { return; }
      state := Error;
      error := Some(RECOVERY_CANCELLED.Text());
      errorReprobeable := true;
    }

    method LatchOwnershipError(failure: OwnershipError)
      requires Valid()
      modifies this
      ensures Valid() && Snapshot() == Step(mode, old(Snapshot()), SetOwnershipError(failure)).0
    {
      state := Error;
      error := Some(failure.Text());
      errorReprobeable := failure.IsReprobeable();
    }

    method MarkLocked()
      requires Valid()
      modifies this
      ensures Valid() && Snapshot() == Step(mode, old(Snapshot()), SetLocked).0
    {
      state, error := Locked, None;
    }

    method MarkUnclaimed()
      requires Valid()
      modifies this
      ensures Valid() && Snapshot() == Step(mode, old(Snapshot()), SetUnclaimed).0
    {
      state, error, attempts := Unclaimed, None, [];
    }

    method MarkUnclaimedPreservingAttempts()
      requires Valid()
      modifies this
      ensures Valid() && Snapshot() == Step(mode, old(Snapshot()), SetUnclaimedPreservingAttempts).0
    {
      state, error := Unclaimed, None;
    }

    method MarkUnlocking()
      requires Valid()
      modifies this
      ensures Valid() && Snapshot() == Step(mode, old(Snapshot()), SetUnlocking).0
    {
      generation := generation + 1;
      state, error := Unlocking, None;
    }

    method MarkUnlocked()
      requires Valid()
      modifies this
      ensures Valid() && Snapshot() == Step(mode, old(Snapshot()), SetUnlocked).0
    {
      state, error := Unlocked, None;
    }

    method MarkError(message: string)
      requires Valid()
      modifies this
      ensures Valid() && Snapshot() == Step(mode, old(Snapshot()), SetError(message)).0
    {
      state, error, errorReprobeable := Error, Some(message), false;
    }

    /** Any call, by its entry point. */
    method Perform(c: Call) returns (r: Reply)
      requires Valid() && (c.Timed() ==> NotAfter(attempts, c.now))
      modifies this
      ensures Valid() && (Snapshot(), r) == Step(mode, old(Snapshot()), c)
    {
      r := Done;
      match c
      case BeginSecretOperation(now) => r := BeginSecretOperationAttempt(now);
      case BeginUnlock(now) => r := BeginUnlockAttempt(now);
      case BeginRecoveryFromError(now) => r := BeginRecoveryFromLatchedError(now);
      case BeginRecoveryVerification => r := BeginVerification();
      case ClaimRecovered(token, seen) => r := ClaimRecoveredState(token, seen);
      case SetLocked => MarkLocked();
      case SetUnclaimed => MarkUnclaimed();
      case SetUnclaimedPreservingAttempts => MarkUnclaimedPreservingAttempts();
      case SetUnlocking => MarkUnlocking();
      case SetUnlocked => MarkUnlocked();
      case SetError(message) => MarkError(message);
      case SetOwnershipError(failure) => LatchOwnershipError(failure);
      case RestoreIfUnlocking(token) => RestoreReprobeableErrorIfUnlocking(token);
    }
  }

  lemma {:induction false} FreshNotAfter(attempts: seq<int>, now: int)
    requires NotAfter(attempts, now)
    ensures NotAfter(Fresh(attempts, now), now)
  {
    if attempts != [] { FreshNotAfter(attempts[1..], now); }
  }
  // ------------------------------------------------- a client over a whole run

  /** The readings of the timed calls do not go back. */
  ghost predicate TimedInOrder(calls: seq<Call>) {
    forall i, j :: 0 <= i < j < |calls| && calls[i].Timed() && calls[j].Timed() ==> calls[i].now <= calls[j].now
  }

  /** No attempt is younger than any timed call from position n on. */
  ghost predicate AttemptsBehind(attempts: seq<int>, calls: seq<Call>, n: nat) {
    forall j :: n <= j < |calls| && calls[j].Timed() ==> NotAfter(attempts, calls[j].now)
  }

  lemma StepKeepsAttemptsBehind(mode: Mode, m: Machine, calls: seq<Call>, n: nat)
    requires TimedInOrder(calls) && n < |calls| && AttemptsBehind(m.attempts, calls, n)
    ensures AttemptsBehind(Step(mode, m, calls[n]).0.attempts, calls, n + 1)
  {
    var c := calls[n];
    forall j | n + 1 <= j < |calls| && calls[j].Timed() ensures NotAfter(Step(mode, m, c).0.attempts, calls[j].now) {
      assert NotAfter(m.attempts, calls[j].now);
      if c.Timed() {
        FreshNotAfterLater(m.attempts, c.now, calls[j].now);
        assert c.now <= calls[j].now;
      }
    }
  }

  lemma {:induction false} FreshNotAfterLater(attempts: seq<int>, now: int, later: int)
    requires NotAfter(attempts, later)
    ensures NotAfter(Fresh(attempts, now), later)
  {
    if attempts != [] { FreshNotAfterLater(attempts[1..], now, later); }
  }

  /** A new guard driven through any calls is a guard run, so every result about such runs is about the class. */
  method Drive(mode: Mode, calls: seq<Call>) returns (ms: seq<Machine>, replies: seq<Reply>)
    requires TimedInOrder(calls)
    ensures IsGuardRun(mode, ms, calls)
    ensures |replies| == |calls| && forall i :: 0 <= i < |calls| ==> replies[i] == Step(mode, ms[i], calls[i]).1
  {
    var guard := new OwnershipGuard(mode);
    ms, replies := [guard.Snapshot()], [];
    for n := 0 to |calls|
      invariant guard.Valid() && fresh(guard) && guard.mode == mode
      invariant |ms| == n + 1 && |replies| == n && ms[0] == Initial(mode) && ms[n] == guard.Snapshot()
      invariant AttemptsBehind(guard.attempts, calls, n)
      invariant forall i :: 0 <= i < n ==> ms[i + 1] == Step(mode, ms[i], calls[i]).0 && replies[i] == Step(mode, ms[i], calls[i]).1
    {
      StepKeepsAttemptsBehind(mode, guard.Snapshot(), calls, n);
      var r := guard.Perform(calls[n]);
      ms, replies := ms + [guard.Snapshot()], replies + [r];
    }
  }
}
