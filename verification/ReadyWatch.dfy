/**
 The bounded wait for the init ready file.  Cooldown markers may push the deadline
 out, but never past a cap counted from the start.  Times are nanoseconds.
 */
module ReadyWatch {
  import opened Wrappers
  import opened OwnershipSpec

  const MAX_EXTENSION := 15_000_000_000_000  // 4 hours and 10 minutes
  const GRACE := 180_000_000_000
  const POLL := 100_000_000

  datatype ReadyRead = IsReady | NotReady | ReadFailed

  /** One look at the world: the files and how much time passes between the readings. */
  datatype Probe = Probe(
    ready: ReadyRead,
    failure: Option<OwnershipError>,
    readyAfterFailure: bool,
    cooldown: Option<nat>,  // time left until the marker's retry deadline
    beforeCandidate: nat,
    beforeCheck: nat)

  /** The deadline after one marker has been read. */
  function Extended(deadline: int, candidate: int, cap: int): int {
    if candidate > deadline then (if candidate < cap then candidate else cap) else deadline
  }

  /** No marker of the stream moves the deadline back or past the cap. */
  predicate Steady(deadline: int, candidates: seq<int>, cap: int)
    decreases candidates
  {
    candidates == [] ||
    var next := Extended(deadline, candidates[0], cap);
    deadline <= next <= cap && Steady(next, candidates[1..], cap)
  }

  lemma {:induction false} SteadyBelowCap(deadline: int, candidates: seq<int>, cap: int)
    requires deadline <= cap
    ensures Steady(deadline, candidates, cap)
    decreases candidates
  {
    if candidates != [] { SteadyBelowCap(Extended(deadline, candidates[0], cap), candidates[1..], cap); }
  }

  lemma PulledBack(deadline: int, cap: int)
    requires cap < deadline
    ensures !Steady(deadline, [deadline + 1], cap)
  {
  }

  /**
   Whatever markers appear, a deadline never moves earlier nor past the cap, exactly
   when it is no later than the cap to begin with: beyond it a marker would pull the
   deadline back.
   */
  lemma SteadyIffBelowCap(deadline: int, cap: int)
    ensures deadline <= cap <==> forall candidates :: Steady(deadline, candidates, cap)
  {
    if deadline <= cap {
      forall candidates ensures Steady(deadline, candidates, cap) { SteadyBelowCap(deadline, candidates, cap); }
    } else {
      PulledBack(deadline, cap);
      assert exists candidates :: !Steady(deadline, candidates, cap);
    }
  }

  /** One pass of the loop at the clock: the reading and the deadline it was compared with. */
  datatype Reading = Reading(clock: int, deadline: int) {
    predicate Late() { clock >= deadline }
  }

  /** The reading of a pass that began at `now` under `deadline`. */
  function Noted(start: int, now: int, deadline: int, p: Probe): Reading {
    var t := now + p.beforeCandidate;
    var d := if p.cooldown.Some? then Extended(deadline, t + p.cooldown.value + GRACE, start + MAX_EXTENSION) else deadline;
    Reading(t + p.beforeCheck, d)
  }

  /** When the sleep after a pass ends. */
  function Woken(r: Reading): int { r.clock + if POLL < r.deadline - r.clock then POLL else r.deadline - r.clock }

  /** The reading of pass i, if every pass before it went to sleep. */
  function ReadingAt(start: int, timeout: nat, probes: nat -> Probe, i: nat): Reading {
    if i == 0 then Noted(start, start, start + timeout, probes(0))
    else var before := ReadingAt(start, timeout, probes, i - 1);
      Noted(start, Woken(before), before.deadline, probes(i))
  }

  /** What the files alone decide: a ready file wins over a recorded failure. */
  function Verdict(p: Probe): Option<Result<(), OwnershipError>> {
    if p.ready == IsReady then Some(Success(()))
    else if p.ready == ReadFailed then Some(Failure(Store("enclava_init_ready_file_read_failed")))
    else if p.failure.None? then None
    else if p.readyAfterFailure then Some(Success(()))
    else Some(Failure(p.failure.value))
  }

  /** The readings are those of the first passes, none of which the files decided. */
  ghost predicate Followed(start: int, timeout: nat, probes: nat -> Probe, readings: seq<Reading>) {
    forall i :: 0 <= i < |readings| ==> readings[i] == ReadingAt(start, timeout, probes, i) && Verdict(probes(i)) == None
  }

  ghost predicate InTime(readings: seq<Reading>) {
    forall i :: 0 <= i < |readings| ==> !readings[i].Late()
  }

  /** The watch gave up at its first late reading, or the files decided before there was one. */
  ghost predicate Concluded(
    start: int, timeout: nat, probes: nat -> Probe, r: Result<(), OwnershipError>, readings: seq<Reading>)
  {
    && Followed(start, timeout, probes, readings)
    && (|| (readings != [] && InTime(readings[..|readings| - 1]) && readings[|readings| - 1].Late() && r == Failure(Timeout))
        || (InTime(readings) && Verdict(probes(|readings|)) == Some(r)))
  }

  /** The world determines the outcome. */
  lemma OutcomeIsDetermined(
    start: int, timeout: nat, probes: nat -> Probe,
    r: Result<(), OwnershipError>, readings: seq<Reading>, r': Result<(), OwnershipError>, readings': seq<Reading>)
    requires Concluded(start, timeout, probes, r, readings) && Concluded(start, timeout, probes, r', readings')
    ensures r == r' && readings == readings'
  {
    if |readings| < |readings'| {
      NotPast(start, timeout, probes, r, readings, readings');
    } else if |readings'| < |readings| {
      NotPast(start, timeout, probes, r', readings', readings);
    }
  }

  /** No run goes past the pass that concludes another. */
  lemma NotPast(
    start: int, timeout: nat, probes: nat -> Probe,
    r: Result<(), OwnershipError>, readings: seq<Reading>, longer: seq<Reading>)
    requires Concluded(start, timeout, probes, r, readings) && Followed(start, timeout, probes, longer)
    requires |readings| < |longer|
    ensures !InTime(longer[..|longer| - 1])
  {
    var n := |readings|;
    assert longer[n] == ReadingAt(start, timeout, probes, n) && Verdict(probes(n)) == None;
    var last := n - 1;
    assert readings[last].Late() && longer[last] == readings[last];
    assert longer[..|longer| - 1][last] == longer[last];
  }

  /** The deadlines start no earlier than `low`, end no later than `high` and never move back. */
  ghost predicate Ordered(readings: seq<Reading>, low: int, high: int) {
    && (forall i :: 0 <= i < |readings| ==> low <= readings[i].deadline <= high)
    && (forall i, j :: 0 <= i < j < |readings| ==> readings[i].deadline <= readings[j].deadline)
  }

  lemma {:induction false} DeadlinesRise(start: int, timeout: nat, probes: nat -> Probe, i: nat, j: nat)
    requires timeout <= MAX_EXTENSION && i <= j
    ensures var d := ReadingAt(start, timeout, probes, i).deadline;
            start + timeout <= d <= ReadingAt(start, timeout, probes, j).deadline <= start + MAX_EXTENSION
    decreases j
  {
    if j > 0 { DeadlinesRise(start, timeout, probes, if i < j then i else i - 1, j - 1); }
  }

  /** With a timeout within the cap, whatever the markers say, the deadlines are ordered and within start plus cap. */
  lemma DeadlinesAreOrdered(start: int, timeout: nat, probes: nat -> Probe, readings: seq<Reading>)
    requires timeout <= MAX_EXTENSION && Followed(start, timeout, probes, readings)
    ensures Ordered(readings, start + timeout, start + MAX_EXTENSION)
  {
    forall i, j | 0 <= i <= j < |readings|
      ensures start + timeout <= readings[i].deadline <= readings[j].deadline <= start + MAX_EXTENSION
    {
      DeadlinesRise(start, timeout, probes, i, j);
    }
  }

  function Top(start: int, timeout: nat): int { start + if timeout >= MAX_EXTENSION then timeout else MAX_EXTENSION }

  /** Where the loop stands before pass i. */
  ghost predicate Waiting(start: int, timeout: nat, probes: nat -> Probe, readings: seq<Reading>, now: int, deadline: int) {
    && now <= deadline <= Top(start, timeout)
    && Followed(start, timeout, probes, readings) && InTime(readings)
    && (readings == [] ==> now == start && deadline == start + timeout)
    && (readings != [] ==> var last := readings[|readings| - 1]; now == Woken(last) && deadline == last.deadline)
  }

  /** The end of one pass: marker, clock, and the sleep if there is time left. */
  method Pass(start: int, ghost timeout: nat, ghost probes: nat -> Probe, ghost readings: seq<Reading>,
              now: int, deadline: int, p: Probe)
    returns (reading: Reading, next: int)
    requires Waiting(start, timeout, probes, readings, now, deadline)
    requires p == probes(|readings|) && Verdict(p) == None
    ensures reading == ReadingAt(start, timeout, probes, |readings|)
    ensures Followed(start, timeout, probes, readings + [reading])
    ensures !reading.Late() ==> now < next && Waiting(start, timeout, probes, readings + [reading], next, reading.deadline)
  {
    var d := deadline;
    var t := now + p.beforeCandidate;
    if p.cooldown.Some? {
      var candidate := t + p.cooldown.value + GRACE;
      var cap := start + MAX_EXTENSION;
      if candidate > d { d := if candidate < cap then candidate else cap; }
    }
    t := t + p.beforeCheck;
    reading := Reading(t, d);
    next := t;
    if t < d { next := t + if POLL < d - t then POLL else d - t; }
  }

  /** wait_for_enclava_init_ready, with or without a ready file configured. */
  method WaitForReady(configured: bool, start: int, timeout: nat, probes: nat -> Probe)
    returns (r: Result<(), OwnershipError>, readings: seq<Reading>)
    ensures !configured ==> r == Success(()) && readings == []
    ensures configured ==> Concluded(start, timeout, probes, r, readings)
  {
    readings := [];
    if !configured { return Success(()), readings; }
    var now, deadline := start, start + timeout;
    while true
      invariant Waiting(start, timeout, probes, readings, now, deadline)
      decreases Top(start, timeout) - now
    {
      var probe := probes(|readings|);
      var verdict := Verdict(probe);
      if verdict.Some? { return verdict.value, readings; }
      var reading, next := Pass(start, timeout, probes, readings, now, deadline, probe);
      ghost var before := readings;
      readings := readings + [reading];
      if reading.Late() {
        assert readings[..|readings| - 1] == before;
        return Failure(Timeout), readings;
      }
      now, deadline := next, reading.deadline;
    }
  }
}
