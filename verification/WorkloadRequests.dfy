/**
 One conditional write to the workload-resource endpoint, retried over every
 sequence of upstream answers.  The store behind the endpoint honours `If-Match: *`
 and `If-None-Match: *` (sections 13.1.1 and 13.1.2 of RFC 9110).  A request whose
 answer is lost or is an error may still have reached the store: `reached` says so.
 */
module WorkloadRequests {
  import opened Wrappers

  const MAX_ATTEMPTS := 3

  datatype Request<+V> = Create(value: V) | Replace(value: V) | Delete {
    /** What the resource holds once the request has taken effect. */
    function Wanted(): Option<V> { if Delete? then None else Some(value) }
  }

  /** `If-None-Match: *` on a creation, `If-Match: *` on everything else. */
  predicate Allowed<V>(content: Option<V>, r: Request<V>) { r.Create? <==> content.None? }

  function Effect<V>(content: Option<V>, r: Request<V>): Option<V> {
    if Allowed(content, r) then r.Wanted() else content
  }

  /** What becomes of one attempt. */
  datatype Fate =
    | NoToken                                           // no bearer, so nothing is sent
    | Lost(reached: bool)                               // no answer comes back
    | Failed(status: nat, stale: bool, reached: bool)   // an answer that says nothing about the resource
    | Served(gone: bool)                                // the store answers; `gone` picks 404 over 412 for absence
  {
    /** A failed attempt that changed nothing. */
    predicate Quiet() { (Lost? || Failed?) ==> !reached }
  }

  datatype Reply = Unsent | Broken | Status(code: nat, stale: bool) {
    predicate Succeeded() { Status? && 200 <= code < 300 }
    predicate Absent(deleting: bool) { Status? && (code == 404 || (deleting && code == 412)) }
    predicate Unavailable() { Status? && code == 503 }
    predicate StaleSession() { Status? && code == 401 && stale }
  }

  function Answer<V>(content: Option<V>, r: Request<V>, gone: bool): Reply {
    if Allowed(content, r) then Status(200, false)
    else Status(if gone && content.None? then 404 else 412, false)
  }

  /** Success, 404 and 412 only ever come from the store itself. */
  function Handled<V>(content: Option<V>, r: Request<V>, f: Fate): (Option<V>, Reply) {
    match f
    case NoToken => (content, Unsent)
    case Lost(reached) => (if reached then Effect(content, r) else content, Broken)
    case Failed(status, stale, reached) =>
      if 200 <= status < 300 || status == 404 || status == 412
      then (Effect(content, r), Answer(content, r, status == 404))
      else (if reached then Effect(content, r) else content, Status(status, stale))
    case Served(gone) => (Effect(content, r), Answer(content, r, gone))
  }

  function FateAt(fates: seq<Fate>, i: nat): Fate { if i < |fates| then fates[i] else NoToken }

  // ------------------------------------------------------ specification

  function Unavailables(rs: seq<Reply>): nat {
    if rs == [] then 0 else Unavailables(rs[..|rs| - 1]) + if rs[|rs| - 1].Unavailable() then 1 else 0
  }

  function StaleSessions(rs: seq<Reply>): nat {
    if rs == [] then 0 else StaleSessions(rs[..|rs| - 1]) + if rs[|rs| - 1].StaleSession() then 1 else 0
  }

  lemma Appended(before: seq<Reply>, x: Reply)
    ensures Unavailables(before + [x]) == Unavailables(before) + if x.Unavailable() then 1 else 0
    ensures StaleSessions(before + [x]) == StaleSessions(before) + if x.StaleSession() then 1 else 0
  {
    assert (before + [x])[..|before|] == before;
  }

  /** Whether a reply is tried again, given all replies before it. */
  predicate Retried(before: seq<Reply>, x: Reply) {
    || (x.Unavailable() && Unavailables(before) + 1 < MAX_ATTEMPTS)
    || (x.StaleSession() && StaleSessions(before) == 0)
  }

  function Budget(before: seq<Reply>): nat {
    (if Unavailables(before) < MAX_ATTEMPTS then MAX_ATTEMPTS - Unavailables(before) else 0)
    + if StaleSessions(before) == 0 then 1 else 0
  }

  datatype Outcome = Applied | NotFound | Refused(reply: Reply)

  function Concluded<V>(r: Request<V>, x: Reply): Outcome {
    if x.Succeeded() then Applied else if x.Absent(r.Delete?) then NotFound else Refused(x)
  }

  datatype Exchange<+V> = Exchange(outcome: Outcome, content: Option<V>, replies: seq<Reply>)

  /** The whole exchange after the replies `before`: up to the first one that is not retried. */
  function Exchanged<V>(content: Option<V>, r: Request<V>, fates: seq<Fate>, before: seq<Reply>): Exchange<V>
    decreases Budget(before)
  {
    var (next, x) := Handled(content, r, FateAt(fates, |before|));
    Appended(before, x);
    if Retried(before, x) then Exchanged(next, r, fates, before + [x])
    else Exchange(Concluded(r, x), next, before + [x])
  }

  // ------------------------------------------------------ the loop

  /** send_workload_resource_request: two counters instead of a history. */
  method SendWorkloadResourceRequest<V>(content: Option<V>, r: Request<V>, fates: seq<Fate>)
    returns (e: Exchange<V>, invalidations: nat)
    ensures e == Exchanged(content, r, fates, [])
    ensures 0 < |e.replies| <= MAX_ATTEMPTS + 1
    ensures invalidations == StaleSessions(e.replies[..|e.replies| - 1]) <= 1
  {
    var current, replies := content, [];
    var availabilityRetries, sessionRefreshed := 0, false;
    invalidations := 0;
    while true
      invariant availabilityRetries == Unavailables(replies) < MAX_ATTEMPTS
      invariant invalidations == StaleSessions(replies) == if sessionRefreshed then 1 else 0
      invariant |replies| == availabilityRetries + invalidations
      invariant Exchanged(content, r, fates, []) == Exchanged(current, r, fates, replies)
      decreases MAX_ATTEMPTS + 1 - availabilityRetries - invalidations
    {
      var (next, x) := Handled(current, r, FateAt(fates, |replies|));
      Appended(replies, x);
      assert (replies + [x])[..|replies|] == replies;
      current, replies := next, replies + [x];
      if x.Succeeded() { return Exchange(Applied, current, replies), invalidations; }
      if x.Absent(r.Delete?) { return Exchange(NotFound, current, replies), invalidations; }
      if x.Status? && x.code == 401 {
        if !sessionRefreshed && x.stale {
          sessionRefreshed := true;
          invalidations := invalidations + 1;
          continue;
        }
        return Exchange(Refused(x), current, replies), invalidations;
      }
      if !x.Unavailable() || availabilityRetries + 1 >= MAX_ATTEMPTS {
        return Exchange(Refused(x), current, replies), invalidations;
      }
      availabilityRetries := availabilityRetries + 1;
    }
  }

  // ------------------------------------------------------ results

  ghost predicate AllRetried(rs: seq<Reply>) {
    forall i :: 0 <= i < |rs| ==> Retried(rs[..i], rs[i])
  }

  ghost predicate OnlyTransient(rs: seq<Reply>) {
    forall i :: 0 <= i < |rs| ==> rs[i].Unavailable() || rs[i].StaleSession()
  }

  /** The two budgets are independent: only how many of each kind counts, not their order. */
  lemma {:induction false} BudgetsAreIndependent(rs: seq<Reply>)
    ensures AllRetried(rs) <==>
            OnlyTransient(rs) && Unavailables(rs) < MAX_ATTEMPTS && StaleSessions(rs) <= 1
    ensures OnlyTransient(rs) ==> |rs| == Unavailables(rs) + StaleSessions(rs)
  {
    if rs != [] {
      var front, x := rs[..|rs| - 1], rs[|rs| - 1];
      BudgetsAreIndependent(front);
      assert forall i :: 0 <= i < |front| ==> front[i] == rs[i] && front[..i] == rs[..i];
      assert OnlyTransient(rs) <==> OnlyTransient(front) && (x.Unavailable() || x.StaleSession());
      assert AllRetried(rs) <==> AllRetried(front) && Retried(front, x);
    }
  }

  lemma RetriedExtends(before: seq<Reply>, x: Reply)
    requires AllRetried(before) && Retried(before, x)
    ensures AllRetried(before + [x])
  {
    var more := before + [x];
    assert more[..|before|] == before;
    assert forall i :: 0 <= i < |before| ==> more[i] == before[i] && more[..i] == before[..i];
  }

  /** Every reply but the last is retried, the last is not, and it decides the outcome. */
  ghost predicate Decided<V>(r: Request<V>, e: Exchange<V>) {
    && e.replies != []
    && var front, last := e.replies[..|e.replies| - 1], e.replies[|e.replies| - 1];
    AllRetried(front) && !Retried(front, last) && e.outcome == Concluded(r, last)
  }

  lemma {:induction false} EndsAtTheFirstFinalReply<V>(
    content: Option<V>, r: Request<V>, fates: seq<Fate>, before: seq<Reply>)
    requires AllRetried(before)
    ensures before < Exchanged(content, r, fates, before).replies
    ensures Decided(r, Exchanged(content, r, fates, before))
    decreases Budget(before)
  {
    var (next, x) := Handled(content, r, FateAt(fates, |before|));
    Appended(before, x);
    if Retried(before, x) {
      RetriedExtends(before, x);
      EndsAtTheFirstFinalReply(next, r, fates, before + [x]);
    } else {
      assert (before + [x])[..|before|] == before;
    }
  }

  /** At most four requests, for every sequence of answers. */
  lemma AtMostFourRequests<V>(content: Option<V>, r: Request<V>, fates: seq<Fate>)
    ensures |Exchanged(content, r, fates, []).replies| <= MAX_ATTEMPTS + 1
  {
    EndsAtTheFirstFinalReply(content, r, fates, []);
    var e := Exchanged(content, r, fates, []);
    BudgetsAreIndependent(e.replies[..|e.replies| - 1]);
  }

  ghost predicate Quiet(fates: seq<Fate>) {
    forall i :: 0 <= i < |fates| ==> fates[i].Quiet()
  }

  /** What one attempt can do, and what its reply proves about the resource. */
  lemma OneAttempt<V>(content: Option<V>, r: Request<V>, f: Fate)
    ensures var (next, x) := Handled(content, r, f);
            && (next == content || next == r.Wanted())
            && (x.Succeeded() ==> Allowed(content, r) && next == r.Wanted())
            && (x.Absent(r.Delete?) ==> content == next == None)
            && (f.Quiet() && !x.Succeeded() ==> next == content)
  {
  }

  /**
   What the outcome says about the resource.  `Applied` and `NotFound` are true
   whatever earlier attempts did unseen; a refusal leaves the resource alone when
   failed attempts change nothing, and otherwise at worst did what was asked.
   */
  lemma {:induction false} OutcomeIsTrue<V>(content: Option<V>, r: Request<V>, fates: seq<Fate>, before: seq<Reply>)
    ensures var e := Exchanged(content, r, fates, before);
            && (e.outcome.Applied? ==> e.content == r.Wanted())
            && (e.outcome.NotFound? ==> e.content == None)
            && (e.content == content || e.content == r.Wanted())
            && (Quiet(fates) ==>
                  && (e.outcome.Applied? ==> Allowed(content, r))
                  && (!e.outcome.Applied? ==> e.content == content))
    decreases Budget(before)
  {
    var f := FateAt(fates, |before|);
    var (next, x) := Handled(content, r, f);
    OneAttempt(content, r, f);
    Appended(before, x);
    if Retried(before, x) {
      OutcomeIsTrue(next, r, fates, before + [x]);
    }
  }

  /** What a server roll answers: nothing reaches the store. */
  ghost predicate Rolling(fates: seq<Fate>, roll: seq<Reply>) {
    && |roll| <= |fates|
    && forall i :: 0 <= i < |roll| ==> roll[i].Status? && fates[i] == Failed(roll[i].code, roll[i].stale, false)
  }

  /**
   A roll of transient answers, in any order, followed by the store's own answer
   is ridden out if and only if each kind stays within its budget.
   */
  lemma RollIsRiddenOutIff<V>(content: Option<V>, r: Request<V>, fates: seq<Fate>, roll: seq<Reply>)
    requires Rolling(fates, roll) && OnlyTransient(roll)
    requires |roll| < |fates| && fates[|roll|].Served?
    ensures var e := Exchanged(content, r, fates, []);
            if Unavailables(roll) < MAX_ATTEMPTS && StaleSessions(roll) <= 1
            then e.outcome == Concluded(r, Answer(content, r, fates[|roll|].gone)) && e.content == Effect(content, r)
            else e.outcome.Refused? && e.content == content
  {
    BudgetsAreIndependent(roll);
    assert roll[..0] == [];
    RollStep(content, r, fates, roll, 0);
  }

  lemma {:induction false} RollStep<V>(
    content: Option<V>, r: Request<V>, fates: seq<Fate>, roll: seq<Reply>, k: nat)
    requires Rolling(fates, roll) && OnlyTransient(roll)
    requires |roll| < |fates| && fates[|roll|].Served?
    requires k <= |roll| && AllRetried(roll[..k])
    ensures var e := Exchanged(content, r, fates, roll[..k]);
            if AllRetried(roll)
            then e.outcome == Concluded(r, Answer(content, r, fates[|roll|].gone)) && e.content == Effect(content, r)
            else e.outcome.Refused? && e.content == content
    decreases |roll| - k
  {
    if k == |roll| {
      assert roll[..k] == roll;
    } else {
      var x := roll[k];
      assert Handled(content, r, FateAt(fates, k)) == (content, x);
      assert roll[..k + 1] == roll[..k] + [x];
      if Retried(roll[..k], x) {
        RetriedExtends(roll[..k], x);
        RollStep(content, r, fates, roll, k + 1);
      }
    }
  }
}
