/**
 The unlock attempt window against its history.  The history is the list of
 admission times since the last clear, kept by no one at run time; the queue the
 guard prunes from the front is a lossy copy of it.
 */
module Attempts {
  import opened OwnershipSpec

  /** Clock readings never go backwards; `from` bounds the first of them. */
  ghost predicate WellTimed(calls: seq<Call>, from: int) {
    calls == [] ||
    if calls[0].Timed() then from <= calls[0].now && WellTimed(calls[1..], calls[0].now)
    else WellTimed(calls[1..], from)
  }

  /** Whether the guard admitted this call and charged it to the budget. */
  predicate Admitted(mode: Mode, m: Machine, c: Call) {
    && c.Timed()
    && (mode.RequiresManualUnlock() || c.BeginRecoveryFromError?)
    && !Step(mode, m, c).1.Refused?
  }

  predicate Clears(mode: Mode, m: Machine, c: Call) {
    c.SetUnclaimed? || Step(mode, m, c).1 == Claimed(NowUnclaimed)
  }

  /** A machine together with the admissions since the last clear. */
  datatype Traced = Traced(m: Machine, history: seq<int>)

  function Trace(mode: Mode, t: Traced, calls: seq<Call>): Traced
    decreases calls
  {
    if calls == [] then t else Trace(mode, TraceStep(mode, t, calls[0]), calls[1..])
  }

  function TraceStep(mode: Mode, t: Traced, c: Call): Traced {
    Traced(Step(mode, t.m, c).0,
           if Clears(mode, t.m, c) then []
           else if Admitted(mode, t.m, c) then t.history + [c.now]
           else t.history)
  }

  /** From any reading on, queue and history have the same fresh part. */
  ghost predicate Faithful(t: Traced, clock: int) {
    && Sorted(t.m.attempts) && NotAfter(t.m.attempts, clock)
    && Sorted(t.history) && NotAfter(t.history, clock)
    && (forall now :: clock <= now ==> Fresh(t.m.attempts, now) == Fresh(t.history, now))
    && Spaced(t.history)
  }

  /** Any six consecutive admissions span at least one window. */
  ghost predicate Spaced(history: seq<int>) {
    forall i :: 0 <= i && i + UNLOCK_MAX_ATTEMPTS < |history| ==>
      history[i + UNLOCK_MAX_ATTEMPTS] - history[i] >= UNLOCK_WINDOW
  }

  // ------------------------------------------------- facts about Fresh

  lemma {:induction false} FreshOfConcat(a: seq<int>, b: seq<int>, now: int)
    ensures Fresh(a + b, now) == Fresh(a, now) + Fresh(b, now)
  {
    if a == [] {
      assert a + b == b;
    } else {
      assert (a + b)[1..] == a[1..] + b;
      FreshOfConcat(a[1..], b, now);
    }
  }

  /** Pruning at an earlier reading loses nothing for a later one. */
  lemma {:induction false} FreshOfFresh(a: seq<int>, t: int, now: int)
    requires t <= now
    ensures Fresh(Fresh(a, t), now) == Fresh(a, now)
  {
    if a != [] {
      var head := if t - a[0] < UNLOCK_WINDOW then [a[0]] else [];
      FreshOfConcat(head, Fresh(a[1..], t), now);
      FreshOfFresh(a[1..], t, now);
      assert head != [] ==> head[1..] == [];
    }
  }

  lemma {:induction false} FreshIsSorted(a: seq<int>, now: int, clock: int)
    requires Sorted(a) && NotAfter(a, clock)
    ensures Sorted(Fresh(a, now)) && NotAfter(Fresh(a, now), clock)
    ensures a != [] ==> forall i :: 0 <= i < |Fresh(a, now)| ==> a[0] <= Fresh(a, now)[i]
  {
    if a != [] {
      FreshIsSorted(a[1..], now, clock);
      if |a| > 1 { assert a[0] <= a[1]; }
    }
  }

  /** If the k-th last admission is fresh then at least k of them are. */
  lemma {:induction false} FreshSuffixCounts(a: seq<int>, i: nat, now: int)
    requires Sorted(a) && i < |a| && now - a[i] < UNLOCK_WINDOW
    ensures |Fresh(a, now)| >= |a| - i
    decreases |a|
  {
    if i > 0 {
      FreshSuffixCounts(a[1..], i - 1, now);
    } else if |a| > 1 {
      assert now - a[1] < UNLOCK_WINDOW;
      FreshSuffixCounts(a[1..], 0, now);
    }
  }

  // ------------------------------------------------- one step, then runs

  lemma SpacedExtends(t: Traced, now: int)
    requires Faithful(t, now) && |Fresh(t.m.attempts, now)| < UNLOCK_MAX_ATTEMPTS
    ensures Spaced(t.history + [now])
  {
    var i := |t.history| - UNLOCK_MAX_ATTEMPTS;
    if i >= 0 && now - t.history[i] < UNLOCK_WINDOW {
      FreshSuffixCounts(t.history, i, now);
      assert false;
    }
    SpacedAppended(t.history, now);
  }

  lemma SpacedAppended(history: seq<int>, now: int)
    requires Spaced(history)
    requires |history| >= UNLOCK_MAX_ATTEMPTS ==> now - history[|history| - UNLOCK_MAX_ATTEMPTS] >= UNLOCK_WINDOW
    ensures Spaced(history + [now])
  {
    var h := history + [now];
    forall k | 0 <= k && k + UNLOCK_MAX_ATTEMPTS < |h| ensures h[k + UNLOCK_MAX_ATTEMPTS] - h[k] >= UNLOCK_WINDOW {
      if k + UNLOCK_MAX_ATTEMPTS < |history| {
        assert history[k + UNLOCK_MAX_ATTEMPTS] - history[k] >= UNLOCK_WINDOW;
      }
    }
  }

  lemma FaithfulLater(t: Traced, clock: int, now: int)
    requires Faithful(t, clock) && clock <= now
    ensures Faithful(t, now)
  {
  }

  /** The three things a timed call can do to queue and history. */
  lemma TimedStepCases(mode: Mode, t: Traced, c: Call)
    requires c.Timed()
    ensures var t' := TraceStep(mode, t, c); var pruned := Fresh(t.m.attempts, c.now);
            || (t'.m.attempts == t.m.attempts && t'.history == t.history)
            || (t'.m.attempts == pruned && t'.history == t.history)
            || (|pruned| < UNLOCK_MAX_ATTEMPTS &&
                t'.m.attempts == pruned + [c.now] && t'.history == t.history + [c.now])
  {
  }

  lemma PrunedFaithful(t: Traced, now: int, m: Machine)
    requires Faithful(t, now) && m.attempts == Fresh(t.m.attempts, now)
    ensures Faithful(Traced(m, t.history), now)
  {
    FreshIsSorted(t.m.attempts, now, now);
    forall later | now <= later ensures Fresh(m.attempts, later) == Fresh(t.history, later) {
      FreshOfFresh(t.m.attempts, now, later);
    }
  }

  lemma ChargedFaithful(t: Traced, now: int, m: Machine)
    requires Faithful(t, now) && |Fresh(t.m.attempts, now)| < UNLOCK_MAX_ATTEMPTS
    requires m.attempts == Fresh(t.m.attempts, now) + [now]
    ensures Faithful(Traced(m, t.history + [now]), now)
  {
    FreshIsSorted(t.m.attempts, now, now);
    SpacedExtends(t, now);
    forall later | now <= later ensures Fresh(m.attempts, later) == Fresh(t.history + [now], later) {
      FreshOfFresh(t.m.attempts, now, later);
      FreshOfConcat(Fresh(t.m.attempts, now), [now], later);
      FreshOfConcat(t.history, [now], later);
    }
  }

  lemma TimedStepFaithful(mode: Mode, t: Traced, c: Call, clock: int)
    requires Faithful(t, clock) && c.Timed() && clock <= c.now
    ensures Faithful(TraceStep(mode, t, c), c.now)
  {
    FaithfulLater(t, clock, c.now);
    TimedStepCases(mode, t, c);
    var t' := TraceStep(mode, t, c);
    if t'.history == t.history {
      if t'.m.attempts == t.m.attempts {
        assert Faithful(Traced(t'.m, t.history), c.now);
      } else {
        PrunedFaithful(t, c.now, t'.m);
      }
    } else {
      ChargedFaithful(t, c.now, t'.m);
    }
  }

  lemma UntimedStepFaithful(mode: Mode, t: Traced, c: Call, clock: int)
    requires Faithful(t, clock) && !c.Timed()
    ensures Faithful(TraceStep(mode, t, c), clock)
  {
    var t' := TraceStep(mode, t, c);
    if Clears(mode, t.m, c) {
      assert t'.m.attempts == [] && t'.history == [];
    } else {
      assert t'.m.attempts == t.m.attempts && t'.history == t.history;
    }
  }

  lemma {:induction false} TraceFaithful(mode: Mode, t: Traced, calls: seq<Call>, from: int) returns (clock: int)
    requires Faithful(t, from) && WellTimed(calls, from)
    ensures from <= clock && Faithful(Trace(mode, t, calls), clock)
    ensures forall c: Call :: WellTimed(calls + [c], from) && c.Timed() ==> clock <= c.now
    decreases calls
  {
    if calls == [] {
      clock := from;
      forall c: Call | WellTimed([] + [c], from) && c.Timed() ensures from <= c.now {
        assert ([] + [c])[0] == c;
      }
    } else {
      var c0 := calls[0];
      var t' := TraceStep(mode, t, c0);
      var from' := if c0.Timed() then c0.now else from;
      if c0.Timed() { TimedStepFaithful(mode, t, c0, from); } else { UntimedStepFaithful(mode, t, c0, from); }
      clock := TraceFaithful(mode, t', calls[1..], from');
      forall c: Call | WellTimed(calls + [c], from) && c.Timed() ensures clock <= c.now {
        assert (calls + [c])[1..] == calls[1..] + [c];
      }
    }
  }

  function Start(mode: Mode): Traced { Traced(Initial(mode), []) }

  /**
   Between two clears, any six consecutive admissions over all three entry points
   span at least the window, after every run of well-timed calls.
   */
  lemma SixAdmissionsSpanTheWindow(mode: Mode, calls: seq<Call>, from: int, i: nat)
    requires WellTimed(calls, from)
    requires i + UNLOCK_MAX_ATTEMPTS < |Trace(mode, Start(mode), calls).history|
    ensures var h := Trace(mode, Start(mode), calls).history;
            h[i + UNLOCK_MAX_ATTEMPTS] - h[i] >= UNLOCK_WINDOW
  {
    var _ := TraceFaithful(mode, Start(mode), calls, from);
  }

  /**
   The limiter is exact: a charged entry point answers RateLimited if and only if
   five admissions since the last clear are younger than the window.
   */
  lemma RateLimitedIffFiveFreshAdmissions(mode: Mode, calls: seq<Call>, c: Call, from: int)
    requires WellTimed(calls + [c], from) && c.Timed()
    requires mode.RequiresManualUnlock() || c.BeginRecoveryFromError?
    ensures var t := Trace(mode, Start(mode), calls);
            Step(mode, t.m, c).1 == Refused(RateLimited) <==>
            |Fresh(t.history, c.now)| >= UNLOCK_MAX_ATTEMPTS
  {
    WellTimedPrefix(calls, c, from);
    var clock := TraceFaithful(mode, Start(mode), calls, from);
    var t := Trace(mode, Start(mode), calls);
    assert Fresh(t.m.attempts, c.now) == Fresh(t.history, c.now);
  }

  lemma {:induction false} WellTimedPrefix(calls: seq<Call>, c: Call, from: int)
    requires WellTimed(calls + [c], from)
    ensures WellTimed(calls, from)
    decreases calls
  {
    if calls != [] {
      assert (calls + [c])[1..] == calls[1..] + [c];
      WellTimedPrefix(calls[1..], c, if calls[0].Timed() then calls[0].now else from);
    }
  }
}
