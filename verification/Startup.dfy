/**
 The startup loop over refresh_ownership_state, for every sequence of refresh
 results and durations.  Times are milliseconds; timers fire on time and code
 between awaits takes none.
 */
module Startup {
  import opened Wrappers
  import opened OwnershipSpec

  const RECHECK_ATTEMPTS := 5
  const RECHECK_DELAY := 2_000
  const ERROR_ATTEMPTS := 120
  const ERROR_DELAY := 3_000
  const ERROR_DEADLINE := 300_000
  const REFRESH_CAP := 90_000
  const TOTAL_DEADLINE := 480_000

  type Refreshed = Result<Observation, OwnershipError>

  /** What the n-th refresh would answer, and after how long, if nobody gave up on it. */
  datatype Attempt = Attempt(duration: nat, result: Refreshed)

  const TIMED_OUT: Refreshed := Failure(OwnerSeedUnavailable("startup_refresh_timed_out"))

  /** The machine after a refresh that nobody interfered with. */
  function Observed(m: Machine, seen: Observation): Machine {
    if seen.Owned() then m.(state := Locked, error := None)
    else if m.state == Unlocking then m
    else if m.state == Unclaimed then m.(error := None)
    else m.(state := Unclaimed, error := None, attempts := [])
  }

  function Latched(m: Machine, e: OwnershipError): Machine {
    m.(state := Error, error := Some(e.Text()), errorReprobeable := e.IsReprobeable())
  }

  /** Both are guard calls: a refresh makes one of three, or none while Unlocking. */
  lemma ObservedIsGuardCall(mode: Mode, m: Machine, seen: Observation, e: OwnershipError)
    ensures Latched(m, e) == Step(mode, m, SetOwnershipError(e)).0
    ensures Observed(m, seen) ==
            if seen.Owned() then Step(mode, m, SetLocked).0
            else if m.state == Unlocking then m
            else if m.state == Unclaimed then Step(mode, m, SetUnclaimedPreservingAttempts).0
            else Step(mode, m, SetUnclaimed).0
  {
  }

  function Min(a: int, b: int): int { if a <= b then a else b }

  // ------------------------------------------------------ one refresh after another

  /** One refresh: when it began, under which error window, what it was taken to answer, when that was. */
  datatype Refresh = Refresh(begin: int, window: Option<int>, answer: Refreshed, end: int)

  /** The tightest of the per-refresh cap, the error window and the total deadline. */
  function Deadline(start: int, begin: int, window: Option<int>): int {
    Min(if window.Some? then Min(begin + REFRESH_CAP, window.value) else begin + REFRESH_CAP, start + TOTAL_DEADLINE)
  }

  /** `tokio::time::timeout_at` around a refresh. */
  function Awaited(start: int, begin: int, window: Option<int>, a: Attempt): Refresh {
    var deadline := Deadline(start, begin, window);
    if begin + a.duration <= deadline then Refresh(begin, window, a.result, begin + a.duration)
    else Refresh(begin, window, TIMED_OUT, deadline)
  }

  /** A success closes the error window; the first error of an episode opens one. */
  function NextWindow(r: Refresh): Option<int> {
    if r.answer.Success? then None
    else if r.window.Some? then r.window
    else Some(r.end + ERROR_DEADLINE)
  }

  /** When the sleep after a refresh ends. */
  function NextBegin(start: int, r: Refresh): int {
    if r.answer.Success? then Min(r.end + RECHECK_DELAY, start + TOTAL_DEADLINE)
    else Min(r.end + ERROR_DELAY, Min(NextWindow(r).value, start + TOTAL_DEADLINE))
  }

  /** The i-th refresh, if the loop went on after every one before it. */
  function RefreshAt(start: int, attempts: nat -> Attempt, i: nat): Refresh {
    if i == 0 then Awaited(start, start, None, attempts(0))
    else var before := RefreshAt(start, attempts, i - 1);
      Awaited(start, NextBegin(start, before), NextWindow(before), attempts(i))
  }

  // ------------------------------------------------------ when the loop ends

  /** The machine after the successful ones among these refreshes. */
  function AfterAll(m: Machine, rs: seq<Refresh>): Machine {
    if rs == [] then m else
    var before := AfterAll(m, rs[..|rs| - 1]);
    var last := rs[|rs| - 1].answer;
    if last.Success? then Observed(before, last.value) else before
  }

  function Successes(rs: seq<Refresh>): nat {
    if rs == [] then 0 else Successes(rs[..|rs| - 1]) + if rs[|rs| - 1].answer.Success? then 1 else 0
  }

  function Errors(rs: seq<Refresh>): nat {
    if rs == [] then 0 else Errors(rs[..|rs| - 1]) + if rs[|rs| - 1].answer.Success? then 0 else 1
  }

  lemma Appended(m0: Machine, rs: seq<Refresh>, r: Refresh)
    ensures Successes(rs + [r]) == Successes(rs) + if r.answer.Success? then 1 else 0
    ensures Errors(rs + [r]) == Errors(rs) + if r.answer.Success? then 0 else 1
    ensures AfterAll(m0, rs + [r]) ==
            if r.answer.Success? then Observed(AfterAll(m0, rs), r.answer.value) else AfterAll(m0, rs)
  {
    assert (rs + [r])[..|rs|] == rs;
  }

  lemma {:induction false} AnswersAddUp(rs: seq<Refresh>)
    ensures Successes(rs) + Errors(rs) == |rs|
  {
    if rs != [] { AnswersAddUp(rs[..|rs| - 1]); }
  }

  /** Whether the loop goes on after the last of these refreshes. */
  predicate Continues(kbs: bool, m0: Machine, start: int, rs: seq<Refresh>)
    requires rs != []
  {
    var last := rs[|rs| - 1];
    && kbs
    && if last.answer.Success?
       then AfterAll(m0, rs).state == Unclaimed && Successes(rs) < RECHECK_ATTEMPTS
       else Errors(rs) < ERROR_ATTEMPTS && last.end < Min(NextWindow(last).value, start + TOTAL_DEADLINE)
  }

  ghost predicate AllContinue(kbs: bool, m0: Machine, start: int, rs: seq<Refresh>) {
    forall k :: 0 < k <= |rs| ==> Continues(kbs, m0, start, rs[..k])
  }

  ghost predicate Followed(start: int, attempts: nat -> Attempt, rs: seq<Refresh>) {
    forall i :: 0 <= i < |rs| ==> rs[i] == RefreshAt(start, attempts, i)
  }

  /** The state of the last successful refresh, with the last error latched if the loop ended on one. */
  function Final(m0: Machine, rs: seq<Refresh>): Machine
    requires rs != []
  {
    var last := rs[|rs| - 1].answer;
    if last.Success? then AfterAll(m0, rs) else Latched(AfterAll(m0, rs), last.error)
  }

  /** The loop ends at the first refresh after which it does not go on. */
  ghost predicate Concluded(
    kbs: bool, m0: Machine, start: int, attempts: nat -> Attempt, m: Machine, finish: int, rs: seq<Refresh>)
  {
    && rs != [] && Followed(start, attempts, rs)
    && AllContinue(kbs, m0, start, rs[..|rs| - 1]) && !Continues(kbs, m0, start, rs)
    && m == Final(m0, rs) && finish == rs[|rs| - 1].end
  }

  // ------------------------------------------------------ results

  /** Every refresh happens within the total deadline and, during an error episode, within that episode's window. */
  lemma {:induction false} RefreshIsInTime(start: int, attempts: nat -> Attempt, i: nat)
    ensures var r := RefreshAt(start, attempts, i);
            && start <= r.begin <= r.end <= start + TOTAL_DEADLINE
            && (r.window.Some? ==> r.end <= r.window.value)
  {
    if i > 0 { RefreshIsInTime(start, attempts, i - 1); }
  }

  lemma PrefixContinues(kbs: bool, m0: Machine, start: int, rs: seq<Refresh>)
    requires rs != [] && AllContinue(kbs, m0, start, rs)
    ensures AllContinue(kbs, m0, start, rs[..|rs| - 1]) && Continues(kbs, m0, start, rs)
  {
    var front := rs[..|rs| - 1];
    assert forall k :: 0 < k <= |front| ==> front[..k] == rs[..k];
    assert rs[..|rs|] == rs;
  }

  lemma {:induction false} BudgetsHold(kbs: bool, m0: Machine, start: int, rs: seq<Refresh>)
    requires AllContinue(kbs, m0, start, rs)
    ensures Successes(rs) < RECHECK_ATTEMPTS && Errors(rs) < ERROR_ATTEMPTS
  {
    if rs != [] {
      PrefixContinues(kbs, m0, start, rs);
      BudgetsHold(kbs, m0, start, rs[..|rs| - 1]);
    }
  }

  /** Bounded refreshes and bounded time, although successes restart the error window. */
  lemma StartupIsBounded(
    kbs: bool, m0: Machine, start: int, attempts: nat -> Attempt, m: Machine, finish: int, rs: seq<Refresh>)
    requires Concluded(kbs, m0, start, attempts, m, finish, rs)
    ensures |rs| <= RECHECK_ATTEMPTS + ERROR_ATTEMPTS - 1
    ensures start <= finish <= start + TOTAL_DEADLINE
  {
    var front := rs[..|rs| - 1];
    BudgetsHold(kbs, m0, start, front);
    AnswersAddUp(front);
    RefreshIsInTime(start, attempts, |rs| - 1);
  }

  /** An instance on KBS is left Unclaimed only after every poll of the budget has answered. */
  lemma UnclaimedWasPolled(
    kbs: bool, m0: Machine, start: int, attempts: nat -> Attempt, m: Machine, finish: int, rs: seq<Refresh>)
    requires Concluded(kbs, m0, start, attempts, m, finish, rs) && kbs && m.state == Unclaimed
    ensures Successes(rs) == RECHECK_ATTEMPTS
  {
    BudgetsHold(kbs, m0, start, rs[..|rs| - 1]);
  }

  /** The refreshes determine the outcome. */
  lemma OutcomeIsDetermined(
    kbs: bool, m0: Machine, start: int, attempts: nat -> Attempt,
    m: Machine, finish: int, rs: seq<Refresh>, m': Machine, finish': int, rs': seq<Refresh>)
    requires Concluded(kbs, m0, start, attempts, m, finish, rs) && Concluded(kbs, m0, start, attempts, m', finish', rs')
    ensures m == m' && finish == finish' && rs == rs'
  {
    if |rs| < |rs'| {
      NotPast(kbs, m0, start, attempts, rs, rs');
    } else if |rs'| < |rs| {
      NotPast(kbs, m0, start, attempts, rs', rs);
    } else {
      assert rs == rs';
    }
  }

  lemma NotPast(kbs: bool, m0: Machine, start: int, attempts: nat -> Attempt, rs: seq<Refresh>, longer: seq<Refresh>)
    requires Followed(start, attempts, rs) && Followed(start, attempts, longer)
    requires 0 < |rs| < |longer| && !Continues(kbs, m0, start, rs)
    ensures !AllContinue(kbs, m0, start, longer[..|longer| - 1])
  {
    assert longer[..|longer| - 1][..|rs|] == rs;
  }

  // ------------------------------------------------------ the loop

  /** The variables of the loop. */
  datatype Loop = Loop(m: Machine, now: int, polls: nat, errors: nat, errorDeadline: Option<int>, rs: seq<Refresh>)

  ghost predicate Sound(kbs: bool, m0: Machine, start: int, attempts: nat -> Attempt, l: Loop) {
    && Followed(start, attempts, l.rs) && AllContinue(kbs, m0, start, l.rs)
    && l.m == AfterAll(m0, l.rs) && l.polls == Successes(l.rs) && l.errors == Errors(l.rs)
    && (l.rs == [] ==> l.now == start && l.errorDeadline == None)
    && (l.rs != [] ==> var last := l.rs[|l.rs| - 1]; l.now == NextBegin(start, last) && l.errorDeadline == NextWindow(last))
  }

  lemma NextFollows(start: int, attempts: nat -> Attempt, l: Loop, kbs: bool, m0: Machine)
    requires Sound(kbs, m0, start, attempts, l)
    ensures Awaited(start, l.now, l.errorDeadline, attempts(|l.rs|)) == RefreshAt(start, attempts, |l.rs|)
    ensures Followed(start, attempts, l.rs + [RefreshAt(start, attempts, |l.rs|)])
  {
  }

  lemma ContinuesExtends(kbs: bool, m0: Machine, start: int, rs: seq<Refresh>, r: Refresh)
    requires AllContinue(kbs, m0, start, rs) && Continues(kbs, m0, start, rs + [r])
    ensures AllContinue(kbs, m0, start, rs + [r])
  {
    var more := rs + [r];
    assert more[..|more|] == more;
    assert forall k :: 0 < k <= |rs| ==> more[..k] == rs[..k];
  }

  /** The loop's variables after refresh r, if it goes on. */
  function Advanced(m0: Machine, start: int, rs: seq<Refresh>, r: Refresh): Loop {
    var more := rs + [r];
    Loop(AfterAll(m0, more), NextBegin(start, r), Successes(more), Errors(more), NextWindow(r), more)
  }

  lemma SoundExtends(kbs: bool, m0: Machine, start: int, attempts: nat -> Attempt, l: Loop, r: Refresh)
    requires Sound(kbs, m0, start, attempts, l) && r == RefreshAt(start, attempts, |l.rs|)
    requires Continues(kbs, m0, start, l.rs + [r])
    ensures Sound(kbs, m0, start, attempts, Advanced(m0, start, l.rs, r))
  {
    ContinuesExtends(kbs, m0, start, l.rs, r);
  }

  /** The guard of the loop in terms of its variables before refresh r. */
  lemma ContinuesAfter(kbs: bool, m0: Machine, start: int, rs: seq<Refresh>, r: Refresh)
    ensures Continues(kbs, m0, start, rs + [r]) ==
            (kbs && if r.answer.Success?
                    then Observed(AfterAll(m0, rs), r.answer.value).state == Unclaimed && Successes(rs) + 1 < RECHECK_ATTEMPTS
                    else Errors(rs) + 1 < ERROR_ATTEMPTS && r.end < Min(NextWindow(r).value, start + TOTAL_DEADLINE))
  {
    Appended(m0, rs, r);
  }

  /** The error branch: sleep and try again, unless a budget is spent. */
  method AfterError(kbs: bool, start: int, l: Loop, now: int) returns (again: bool, wake: int, window: int)
    ensures window == if l.errorDeadline.Some? then l.errorDeadline.value else now + ERROR_DEADLINE
    ensures again <==> kbs && l.errors + 1 < ERROR_ATTEMPTS && now < Min(window, start + TOTAL_DEADLINE)
    ensures wake == if again then Min(now + ERROR_DELAY, Min(window, start + TOTAL_DEADLINE)) else now
  {
    window := if l.errorDeadline.Some? then l.errorDeadline.value else now + ERROR_DEADLINE;
    var deadline := if window <= start + TOTAL_DEADLINE then window else start + TOTAL_DEADLINE;
    wake := now;
    again := kbs && l.errors + 1 < ERROR_ATTEMPTS && now < deadline;
    if again { wake := if now + ERROR_DELAY <= deadline then now + ERROR_DELAY else deadline; }
  }

  /** The success branch: go on polling an unclaimed instance while the budget lasts. */
  method AfterSuccess(kbs: bool, start: int, l: Loop, now: int, m: Machine) returns (again: bool, wake: int)
    ensures again <==> kbs && m.state == Unclaimed && l.polls + 1 < RECHECK_ATTEMPTS
    ensures wake == if again then Min(now + RECHECK_DELAY, start + TOTAL_DEADLINE) else now
  {
    wake := now;
    again := false;
    if m.state != Unclaimed { return; }
    if !kbs || l.polls + 1 >= RECHECK_ATTEMPTS { return; }
    again := true;
    wake := if now + RECHECK_DELAY <= start + TOTAL_DEADLINE then now + RECHECK_DELAY else start + TOTAL_DEADLINE;
  }

  /** What a round leaves: the loop's variables, or the final machine and time. */
  ghost predicate Went(kbs: bool, m0: Machine, start: int, rs: seq<Refresh>, r: Refresh, n: Loop, again: bool) {
    && again == Continues(kbs, m0, start, rs + [r])
    && n.rs == rs + [r]
    && if again then n == Advanced(m0, start, rs, r) else n.m == Final(m0, rs + [r]) && n.now == r.end
  }

  method SuccessRound(kbs: bool, ghost m0: Machine, start: int, l: Loop, r: Refresh) returns (n: Loop, again: bool)
    requires r.answer.Success? && l.m == AfterAll(m0, l.rs) && l.polls == Successes(l.rs) && l.errors == Errors(l.rs)
    ensures Went(kbs, m0, start, l.rs, r, n, again)
  {
    ContinuesAfter(kbs, m0, start, l.rs, r);
    Appended(m0, l.rs, r);
    var m, wake := Observed(l.m, r.answer.value), r.end;
    again, wake := AfterSuccess(kbs, start, l, r.end, m);
    n := Loop(m, wake, l.polls + 1, l.errors, None, l.rs + [r]);
  }

  method FailureRound(kbs: bool, ghost m0: Machine, start: int, l: Loop, r: Refresh) returns (n: Loop, again: bool)
    requires r.answer.Failure? && r.window == l.errorDeadline
    requires l.m == AfterAll(m0, l.rs) && l.polls == Successes(l.rs) && l.errors == Errors(l.rs)
    ensures Went(kbs, m0, start, l.rs, r, n, again)
  {
    ContinuesAfter(kbs, m0, start, l.rs, r);
    Appended(m0, l.rs, r);
    var wake, window := r.end, r.end;
    again, wake, window := AfterError(kbs, start, l, r.end);
    n := Loop(if again then l.m else Latched(l.m, r.answer.error), wake, l.polls, l.errors + 1, Some(window), l.rs + [r]);
  }

  /** One round: a refresh under its deadline, then one of the two branches. */
  method Round(kbs: bool, ghost m0: Machine, start: int, attempts: nat -> Attempt, l: Loop) returns (n: Loop, again: bool)
    requires Sound(kbs, m0, start, attempts, l)
    ensures Went(kbs, m0, start, l.rs, RefreshAt(start, attempts, |l.rs|), n, again)
    ensures Followed(start, attempts, n.rs)
    ensures again ==> Sound(kbs, m0, start, attempts, n)
  {
    var r := Awaited(start, l.now, l.errorDeadline, attempts(|l.rs|));
    NextFollows(start, attempts, l, kbs, m0);
    if r.answer.Success? {
      n, again := SuccessRound(kbs, m0, start, l, r);
    } else {
      n, again := FailureRound(kbs, m0, start, l, r);
    }
    if again { SoundExtends(kbs, m0, start, attempts, l, r); }
  }

  /** initialize_ownership_state; `rs` lists its refreshes. */
  method InitializeOwnershipState(mode: Mode, kbs: bool, m0: Machine, start: int, attempts: nat -> Attempt)
    returns (m: Machine, finish: int, rs: seq<Refresh>)
    ensures if mode.UsesOwnerSeed() then Concluded(kbs, m0, start, attempts, m, finish, rs)
            else m == m0 && finish == start && rs == []
  {
    if !mode.UsesOwnerSeed() { return m0, start, []; }
    var l, again := Loop(m0, start, 0, 0, None, []), true;
    ghost var front := l.rs;
    while again
      invariant again ==> Sound(kbs, m0, start, attempts, l)
      invariant !again ==> Concluded(kbs, m0, start, attempts, l.m, l.now, l.rs)
      decreases again, RECHECK_ATTEMPTS + ERROR_ATTEMPTS - l.polls - l.errors
    {
      BudgetsHold(kbs, m0, start, l.rs);
      front := l.rs;
      l, again := Round(kbs, m0, start, attempts, l);
      assert l.rs[..|l.rs| - 1] == front;
      Appended(m0, front, l.rs[|front|]);
    }
    return l.m, l.now, l.rs;
  }
}
