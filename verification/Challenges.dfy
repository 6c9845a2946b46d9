/**
 The bootstrap challenge queue over whole runs: which challenges were issued, which
 were consumed and which were pushed out at capacity.  Expiries are computed before
 the queue is locked, so they may reach it in any order; the results say what holds
 for every order and what needs them sorted.
 */
module Challenges {
  const MAX_ACTIVE := 32

  datatype Challenge = Challenge(id: string, expiresAt: int)

  predicate Expired(c: Challenge, now: int) { now >= c.expiresAt }

  // ------------------------------------------------- the queue

  /** What pruning from the front leaves. */
  function FrontPruned(q: seq<Challenge>, now: int): seq<Challenge> {
    if q != [] && Expired(q[0], now) then FrontPruned(q[1..], now) else q
  }

  function Recorded(q: seq<Challenge>, c: Challenge, now: int): seq<Challenge> {
    var pruned := FrontPruned(q, now);
    (if |pruned| >= MAX_ACTIVE then pruned[1..] else pruned) + [c]
  }

  /** The first entry with this id, or the length of the queue. */
  function Position(q: seq<Challenge>, id: string): (k: nat)
    ensures k <= |q| && (k < |q| ==> q[k].id == id)
    ensures forall i :: 0 <= i < k ==> q[i].id != id
  {
    if q == [] || q[0].id == id then 0 else 1 + Position(q[1..], id)
  }

  function Consumed(q: seq<Challenge>, id: string, now: int): (seq<Challenge>, bool) {
    var pruned := FrontPruned(q, now);
    var k := Position(pruned, id);
    if k == |pruned| then (pruned, false) else (pruned[..k] + pruned[k + 1..], true)
  }

  class ChallengeQueue {
    var queue: seq<Challenge>

    constructor ()
      ensures queue == []
    {
      queue := [];
    }

    method Prune(now: int)
      modifies this
      ensures queue == FrontPruned(old(queue), now)
    {
      while queue != [] && Expired(queue[0], now)
        invariant FrontPruned(queue, now) == FrontPruned(old(queue), now)
        decreases |queue|
      {
        queue := queue[1..];
      }
    }

    /** record_bootstrap_challenge */
    method Record(c: Challenge, now: int)
      modifies this
      ensures queue == Recorded(old(queue), c, now)
    {
      Prune(now);
      if |queue| >= MAX_ACTIVE { queue := queue[1..]; }
      queue := queue + [c];
    }

    /** consume_bootstrap_challenge */
    method Consume(id: string, now: int) returns (ok: bool)
      modifies this
      ensures (queue, ok) == Consumed(old(queue), id, now)
    {
      Prune(now);
      var k := 0;
      while k < |queue| && queue[k].id != id
        invariant k <= |queue| && forall i :: 0 <= i < k ==> queue[i].id != id
      {
        k := k + 1;
      }
      var first := Position(queue, id);
      assert k == first;
      if k == |queue| { return false; }
      queue := queue[..k] + queue[k + 1..];
      return true;
    }
  }

  // ------------------------------------------------- runs

  datatype Event = Issue(c: Challenge, now: int) | Use(id: string, now: int)

  /**
   The queue with its history: `births[i]` is the number under which queue[i] was
   issued.  Only the queue exists at run time.
   */
  datatype Book = Book(
    queue: seq<Challenge>, births: seq<nat>, issued: seq<Challenge>, consumed: set<string>, pushedOut: set<string>)

  const EMPTY := Book([], [], [], {}, {})

  /** How many entries pruning takes off the front. */
  function Stale(q: seq<Challenge>, now: int): (n: nat)
    ensures n <= |q| && FrontPruned(q, now) == q[n..]
    ensures forall i :: 0 <= i < n ==> Expired(q[i], now)
    ensures n < |q| ==> !Expired(q[n], now)
  {
    if q != [] && Expired(q[0], now) then
      assert forall i :: 0 < i < |q| ==> q[1..][i - 1] == q[i];
      1 + Stale(q[1..], now)
    else 0
  }

  function Cut(b: Book, n: nat): Book
    requires n <= |b.queue|
  {
    b.(queue := b.queue[n..], births := if n <= |b.births| then b.births[n..] else [])
  }

  function Without(b: Book, k: nat): Book
    requires k < |b.queue|
  {
    b.(queue := b.queue[..k] + b.queue[k + 1..],
       births := if k < |b.births| then b.births[..k] + b.births[k + 1..] else b.births)
  }

  function Booked(b: Book, e: Event): Book {
    var p := Cut(b, Stale(b.queue, e.now));
    match e
    case Issue(c, _) =>
      var room := if |p.queue| >= MAX_ACTIVE then Without(p, 0).(pushedOut := p.pushedOut + {p.queue[0].id}) else p;
      room.(queue := room.queue + [c], births := room.births + [|b.issued|], issued := b.issued + [c])
    case Use(id, _) =>
      var k := Position(p.queue, id);
      if k == |p.queue| then p else Without(p, k).(consumed := p.consumed + {id})
  }

  /** The book's queue is the queue of the program. */
  lemma BookFollowsQueue(b: Book, e: Event)
    ensures Booked(b, e).queue == match e
              case Issue(c, now) => Recorded(b.queue, c, now)
              case Use(id, now) => Consumed(b.queue, id, now).0
  {
    var p := Cut(b, Stale(b.queue, e.now));
    if p.queue != [] { assert p.queue[..0] + p.queue[1..] == p.queue[1..]; }
  }

  function BookedAll(b: Book, es: seq<Event>): Book
    decreases es
  {
    if es == [] then b else BookedAll(Booked(b, es[0]), es[1..])
  }

  ghost predicate DistinctIds(q: seq<Challenge>) {
    forall i, j :: 0 <= i < j < |q| ==> q[i].id != q[j].id
  }

  ghost predicate SortedByExpiry(q: seq<Challenge>) {
    forall i, j :: 0 <= i < j < |q| ==> q[i].expiresAt <= q[j].expiresAt
  }

  ghost predicate NewId(issued: seq<Challenge>, e: Event) { e.Issue? ==> !WasIssued(issued, e.c.id) }

  ghost predicate WasIssued(issued: seq<Challenge>, id: string) {
    exists n :: 0 <= n < |issued| && issued[n].id == id
  }

  /** A run: fresh random ids, a clock that does not go back, expiries in any order. */
  ghost predicate Proper(b: Book, es: seq<Event>, clock: int)
    decreases es
  {
    es == [] ||
    (&& clock <= es[0].now
     && NewId(b.issued, es[0])
     && Proper(Booked(b, es[0]), es[1..], es[0].now))
  }

  function Gone(b: Book): set<string> { b.consumed + b.pushedOut }

  // ------------------------------------------------- the invariant

  ghost predicate Ascending(births: seq<nat>, below: nat) {
    && (forall i :: 0 <= i < |births| ==> births[i] < below)
    && (forall i, j :: 0 <= i < j < |births| ==> births[i] < births[j])
  }

  /** The queue is what its births say, in the order of issue, and nothing in it is gone. */
  ghost predicate Embedded(q: seq<Challenge>, births: seq<nat>, issued: seq<Challenge>, gone: set<string>) {
    && |births| == |q| && Ascending(births, |issued|)
    && (forall i :: 0 <= i < |q| ==> q[i] == issued[births[i]] && q[i].id !in gone)
  }

  /** Every challenge that is neither expired nor gone is in the queue. */
  ghost predicate LiveHeld(births: seq<nat>, issued: seq<Challenge>, gone: set<string>, clock: int) {
    forall n :: 0 <= n < |issued| && !Expired(issued[n], clock) && issued[n].id !in gone ==> n in births
  }

  ghost predicate OnlyIssued(ids: set<string>, issued: seq<Challenge>) {
    forall id :: id in ids ==> WasIssued(issued, id)
  }

  /** A challenge is pushed out only when 32 newer ones were issued. */
  ghost predicate PushedOutByNewer(pushedOut: set<string>, issued: seq<Challenge>) {
    forall id :: id in pushedOut ==> HasNewer(issued, id)
  }

  ghost predicate HasNewer(issued: seq<Challenge>, id: string) {
    exists n :: 0 <= n && n + MAX_ACTIVE < |issued| && issued[n].id == id
  }

  ghost predicate Held(b: Book, clock: int) {
    && DistinctIds(b.issued) && Embedded(b.queue, b.births, b.issued, Gone(b))
    && LiveHeld(b.births, b.issued, Gone(b), clock) && OnlyIssued(Gone(b), b.issued)
  }

  ghost predicate Kept(b: Book, clock: int) {
    Held(b, clock) && |b.queue| <= MAX_ACTIVE && PushedOutByNewer(b.pushedOut, b.issued)
  }

  lemma EmptyKept(clock: int)
    ensures Kept(EMPTY, clock)
  {
  }

  lemma AscendingWithout(births: seq<nat>, k: nat, below: nat)
    requires Ascending(births, below) && k < |births|
    ensures Ascending(births[..k] + births[k + 1..], below)
    ensures forall n :: n in births && n != births[k] ==> n in births[..k] + births[k + 1..]
  {
    var rest := births[..k] + births[k + 1..];
    forall n | n in births && n != births[k] ensures n in rest {
      var i :| 0 <= i < |births| && births[i] == n;
      assert rest[if i < k then i else i - 1] == n;
    }
  }

  lemma CutHeld(b: Book, now: int, clock: int)
    requires Held(b, clock) && clock <= now
    ensures Held(Cut(b, Stale(b.queue, now)), now)
  {
    var n := Stale(b.queue, now);
    EmbeddedCut(b.queue, b.births, b.issued, Gone(b), n);
    LiveHeldCut(b.queue, b.births, b.issued, Gone(b), n, clock, now);
  }

  lemma EmbeddedCut(q: seq<Challenge>, births: seq<nat>, issued: seq<Challenge>, gone: set<string>, n: nat)
    requires Embedded(q, births, issued, gone) && n <= |q|
    ensures Embedded(q[n..], births[n..], issued, gone)
  {
  }

  lemma LiveHeldCut(
    q: seq<Challenge>, births: seq<nat>, issued: seq<Challenge>, gone: set<string>, n: nat, clock: int, now: int)
    requires Embedded(q, births, issued, gone) && LiveHeld(births, issued, gone, clock) && clock <= now
    requires n <= |q| && forall i :: 0 <= i < n ==> Expired(q[i], now)
    ensures LiveHeld(births[n..], issued, gone, now)
  {
    assert forall j :: 0 <= j < n ==> Expired(issued[births[j]], now);
    forall i | 0 <= i < |issued| && !Expired(issued[i], now) && issued[i].id !in gone ensures i in births[n..] {
      assert i in births;
      var k :| 0 <= k < |births| && births[k] == i;
      assert births[n..][k - n] == i;
    }
  }

  /** Taking entry k out while its id goes. */
  lemma WithoutHeld(b: Book, k: nat, after: Book, now: int)
    requires Held(b, now) && k < |b.queue|
    requires after == Without(b, k).(consumed := after.consumed, pushedOut := after.pushedOut)
    requires Gone(after) == Gone(b) + {b.queue[k].id}
    ensures Held(after, now)
  {
    AscendingWithout(b.births, k, |b.issued|);
    EmbeddedWithout(b.queue, b.births, b.issued, Gone(b), k);
    assert b.issued[b.births[k]].id == b.queue[k].id;
  }

  lemma EmbeddedWithout(q: seq<Challenge>, births: seq<nat>, issued: seq<Challenge>, gone: set<string>, k: nat)
    requires Embedded(q, births, issued, gone) && DistinctIds(issued) && k < |q|
    ensures Embedded(q[..k] + q[k + 1..], births[..k] + births[k + 1..], issued, gone + {q[k].id})
  {
    AscendingWithout(births, k, |issued|);
    var q', births' := q[..k] + q[k + 1..], births[..k] + births[k + 1..];
    forall i | 0 <= i < |q'| ensures q'[i] == issued[births'[i]] && q'[i].id !in gone + {q[k].id} {
      var j := if i < k then i else i + 1;
      assert q'[i] == q[j] && births'[i] == births[j];
      assert births[j] != births[k];
    }
  }

  lemma UseKept(b: Book, id: string, now: int, clock: int)
    requires Kept(b, clock) && clock <= now
    ensures Kept(Booked(b, Use(id, now)), now)
  {
    CutHeld(b, now, clock);
    var p := Cut(b, Stale(b.queue, now));
    var k := Position(p.queue, id);
    if k < |p.queue| {
      var after := Booked(b, Use(id, now));
      assert Gone(after) == Gone(p) + {p.queue[k].id};
      WithoutHeld(p, k, after, now);
    }
  }

  /** Making room in a pruned queue. */
  lemma RoomHeld(p: Book, now: int)
    requires Held(p, now) && |p.queue| == MAX_ACTIVE
    ensures Held(Without(p, 0).(pushedOut := p.pushedOut + {p.queue[0].id}), now)
    ensures p.births[0] + MAX_ACTIVE <= |p.issued| && p.issued[p.births[0]].id == p.queue[0].id
  {
    var room := Without(p, 0).(pushedOut := p.pushedOut + {p.queue[0].id});
    assert Gone(room) == Gone(p) + {p.queue[0].id};
    WithoutHeld(p, 0, room, now);
    AscendingIsFast(p.births, |p.issued|, 0, |p.births| - 1);
  }

  lemma {:induction false} AscendingIsFast(births: seq<nat>, below: nat, i: nat, j: nat)
    requires Ascending(births, below) && i <= j < |births|
    ensures births[i] + (j - i) <= births[j] < below
    decreases j - i
  {
    if i < j { AscendingIsFast(births, below, i, j - 1); }
  }

  lemma IssueKept(b: Book, c: Challenge, now: int, clock: int)
    requires Kept(b, clock) && clock <= now && NewId(b.issued, Issue(c, now))
    ensures Kept(Booked(b, Issue(c, now)), now)
  {
    CutHeld(b, now, clock);
    var p := Cut(b, Stale(b.queue, now));
    if |p.queue| >= MAX_ACTIVE {
      RoomHeld(p, now);
      AppendHeld(Without(p, 0).(pushedOut := p.pushedOut + {p.queue[0].id}), c, now);
      NewerIssued(b.pushedOut, b.issued, c, p.births[0]);
    } else {
      AppendHeld(p, c, now);
      NewerIssued(b.pushedOut, b.issued, c, -1);
    }
  }

  /** The issue number of whatever is pushed out, or a negative one for nothing. */
  lemma NewerIssued(pushedOut: set<string>, issued: seq<Challenge>, c: Challenge, oldest: int)
    requires PushedOutByNewer(pushedOut, issued) && (oldest < 0 || oldest + MAX_ACTIVE <= |issued|)
    ensures PushedOutByNewer(pushedOut, issued + [c])
    ensures oldest >= 0 ==> PushedOutByNewer(pushedOut + {issued[oldest].id}, issued + [c])
  {
    var more := issued + [c];
    forall id | id in pushedOut ensures HasNewer(more, id) {
      var n :| 0 <= n && n + MAX_ACTIVE < |issued| && issued[n].id == id;
      assert more[n].id == id;
    }
    if oldest >= 0 { assert more[oldest].id == issued[oldest].id; }
  }

  lemma AppendHeld(room: Book, c: Challenge, now: int)
    requires Held(room, now) && !WasIssued(room.issued, c.id)
    ensures Held(room.(queue := room.queue + [c], births := room.births + [|room.issued|], issued := room.issued + [c]), now)
  {
    var n, more := |room.issued|, room.issued + [c];
    assert c.id !in Gone(room);
    assert forall i :: 0 <= i < n ==> more[i] == room.issued[i];
    LiveHeldAppended(room.births, room.issued, Gone(room), c, now);
    forall id | id in Gone(room) ensures WasIssued(more, id) {
      var i :| 0 <= i < n && room.issued[i].id == id;
      assert more[i].id == id;
    }
  }

  lemma LiveHeldAppended(births: seq<nat>, issued: seq<Challenge>, gone: set<string>, c: Challenge, now: int)
    requires LiveHeld(births, issued, gone, now)
    ensures LiveHeld(births + [|issued|], issued + [c], gone, now)
  {
    var more := issued + [c];
    forall n | 0 <= n < |more| && !Expired(more[n], now) && more[n].id !in gone ensures n in births + [|issued|] {
      if n < |issued| { assert more[n] == issued[n]; }
    }
  }

  lemma StepKept(b: Book, e: Event, clock: int)
    requires Kept(b, clock) && clock <= e.now && NewId(b.issued, e)
    ensures Kept(Booked(b, e), e.now)
  {
    if e.Issue? { IssueKept(b, e.c, e.now, clock); } else { UseKept(b, e.id, e.now, clock); }
  }

  lemma ProperHead(b: Book, es: seq<Event>, rest: seq<Event>, clock: int)
    requires es != [] && Proper(b, es + rest, clock)
    ensures clock <= es[0].now && NewId(b.issued, es[0]) && Proper(Booked(b, es[0]), es[1..] + rest, es[0].now)
  {
    assert (es + rest)[0] == es[0] && (es + rest)[1..] == es[1..] + rest;
  }

  /** The invariant at every point of every run, whatever the order of the expiries. */
  lemma {:induction false} RunKept(b: Book, es: seq<Event>, rest: seq<Event>, clock: int) returns (now: int)
    requires Kept(b, clock) && Proper(b, es + rest, clock)
    ensures Kept(BookedAll(b, es), now) && Proper(BookedAll(b, es), rest, now)
    decreases es
  {
    if es == [] {
      now := clock;
      assert es + rest == rest;
    } else {
      ProperHead(b, es, rest, clock);
      StepKept(b, es[0], clock);
      now := RunKept(Booked(b, es[0]), es[1..], rest, es[0].now);
    }
  }

  // ------------------------------------------------- consuming

  /** Some entry before position j of the queue has not expired. */
  ghost predicate Shielded(q: seq<Challenge>, j: int, now: int) {
    exists i :: 0 <= i < j && i < |q| && !Expired(q[i], now)
  }

  /** Whether position j of the queue survives pruning. */
  lemma SurvivesIff(q: seq<Challenge>, j: nat, now: int)
    requires j < |q|
    ensures j >= Stale(q, now) <==> !Expired(q[j], now) || Shielded(q, j, now)
  {
    var n := Stale(q, now);
    if n < j { assert !Expired(q[n], now); }
  }

  lemma AcceptedSurvived(q: seq<Challenge>, id: string, now: int)
    requires Consumed(q, id, now).1
    ensures exists j :: 0 <= j < |q| && q[j].id == id && (!Expired(q[j], now) || Shielded(q, j, now))
  {
    var n := Stale(q, now);
    var j := n + Position(q[n..], id);
    assert q[n..][j - n] == q[j];
    SurvivesIff(q, j, now);
  }

  lemma SurvivorAccepted(q: seq<Challenge>, j: nat, now: int)
    requires j < |q| && (!Expired(q[j], now) || Shielded(q, j, now))
    ensures Consumed(q, q[j].id, now).1
  {
    var n := Stale(q, now);
    SurvivesIff(q, j, now);
    assert q[n..][j - n].id == q[j].id;
  }

  lemma AcceptedIsInQueue(q: seq<Challenge>, id: string, now: int)
    ensures Consumed(q, id, now).1 <==>
            exists j :: 0 <= j < |q| && q[j].id == id && (!Expired(q[j], now) || Shielded(q, j, now))
  {
    if Consumed(q, id, now).1 { AcceptedSurvived(q, id, now); }
    if j :| 0 <= j < |q| && q[j].id == id && (!Expired(q[j], now) || Shielded(q, j, now)) {
      SurvivorAccepted(q, j, now);
    }
  }

  /**
   For every run and every order of expiries: a challenge is accepted if and only if
   it was issued, was neither consumed nor pushed out, and is unexpired, or expired
   but still in the queue behind an unexpired one.
   */
  lemma AcceptedIff(es: seq<Event>, id: string, now: int, clock: int)
    requires Proper(EMPTY, es + [Use(id, now)], clock)
    ensures var b := BookedAll(EMPTY, es);
            Consumed(b.queue, id, now).1 <==>
              && id !in Gone(b)
              && exists n :: 0 <= n < |b.issued| && b.issued[n].id == id &&
                   (!Expired(b.issued[n], now) ||
                    exists j :: 0 <= j < |b.queue| && b.queue[j] == b.issued[n] && Shielded(b.queue, j, now))
  {
    EmptyKept(clock);
    var before := RunKept(EMPTY, es, [Use(id, now)], clock);
    AcceptedWhenKept(BookedAll(EMPTY, es), id, before, now);
  }

  lemma AcceptedWhenKept(b: Book, id: string, clock: int, now: int)
    requires Kept(b, clock) && clock <= now
    ensures Consumed(b.queue, id, now).1 <==>
              && id !in Gone(b)
              && exists n :: 0 <= n < |b.issued| && b.issued[n].id == id &&
                   (!Expired(b.issued[n], now) ||
                    exists j :: 0 <= j < |b.queue| && b.queue[j] == b.issued[n] && Shielded(b.queue, j, now))
  {
    AcceptedIsInQueue(b.queue, id, now);
    if Consumed(b.queue, id, now).1 {
      var j :| 0 <= j < |b.queue| && b.queue[j].id == id && (!Expired(b.queue[j], now) || Shielded(b.queue, j, now));
      assert b.issued[b.births[j]] == b.queue[j];
    }
    if id !in Gone(b) {
      if n :| 0 <= n < |b.issued| && b.issued[n].id == id && !Expired(b.issued[n], now) {
        assert n in b.births;
        var j :| 0 <= j < |b.births| && b.births[j] == n;
        assert b.queue[j] == b.issued[n];
      }
    }
  }

  lemma SortedIsUnshielded(b: Book, j: nat, now: int)
    requires Embedded(b.queue, b.births, b.issued, Gone(b)) && SortedByExpiry(b.issued) && j < |b.queue| && Expired(b.queue[j], now)
    ensures !Shielded(b.queue, j, now)
  {
    forall i | 0 <= i < j ensures Expired(b.queue[i], now) {
      assert b.births[i] < b.births[j];
    }
  }

  lemma SortedBehindLive(b: Book, n: nat, now: int)
    requires Embedded(b.queue, b.births, b.issued, Gone(b)) && SortedByExpiry(b.issued)
    requires n < |b.queue| ==> !Expired(b.queue[n], now)
    requires n <= |b.queue|
    ensures forall i :: 0 <= i < |b.queue[n..]| ==> !Expired(b.queue[n..][i], now)
  {
    forall i | n <= i < |b.queue| ensures !Expired(b.queue[i], now) {
      assert b.births[n] <= b.births[i];
    }
  }

  /** With expiries in order the queue is exact: accepted if and only if issued, unexpired and not gone. */
  lemma AcceptedIffLive(es: seq<Event>, id: string, now: int, clock: int)
    requires Proper(EMPTY, es + [Use(id, now)], clock) && SortedByExpiry(BookedAll(EMPTY, es).issued)
    ensures var b := BookedAll(EMPTY, es);
            Consumed(b.queue, id, now).1 <==>
              id !in Gone(b) && exists n :: 0 <= n < |b.issued| && b.issued[n].id == id && !Expired(b.issued[n], now)
  {
    EmptyKept(clock);
    var before := RunKept(EMPTY, es, [Use(id, now)], clock);
    var b := BookedAll(EMPTY, es);
    AcceptedWhenKept(b, id, before, now);
    forall j | 0 <= j < |b.queue| && Expired(b.queue[j], now) ensures !Shielded(b.queue, j, now) {
      SortedIsUnshielded(b, j, now);
    }
  }

  lemma {:induction false} GoneForGood(b: Book, es: seq<Event>, id: string)
    requires id in b.consumed
    ensures id in BookedAll(b, es).consumed
    decreases es
  {
    if es != [] { GoneForGood(Booked(b, es[0]), es[1..], id); }
  }

  /** Each challenge is consumed at most once in a whole run, and at most 32 are ever held. */
  lemma ConsumedOnce(es: seq<Event>, id: string, now: int, later: seq<Event>, again: int, clock: int)
    requires Proper(EMPTY, es + ([Use(id, now)] + later + [Use(id, again)]), clock)
    requires Consumed(BookedAll(EMPTY, es).queue, id, now).1
    ensures var last := BookedAll(EMPTY, es + ([Use(id, now)] + later));
            |last.queue| <= MAX_ACTIVE && !Consumed(last.queue, id, again).1
  {
    var use, end := [Use(id, now)], [Use(id, again)];
    assert use + later + end == (use + later) + end;
    RunsConcatenate(EMPTY, es, use + later);
    EmptyKept(clock);
    var from := RunKept(EMPTY, es, (use + later) + end, clock);
    UsedUp(BookedAll(EMPTY, es), id, now, later, again, from);
  }

  lemma UsedUp(b: Book, id: string, now: int, later: seq<Event>, again: int, clock: int)
    requires Kept(b, clock) && Proper(b, ([Use(id, now)] + later) + [Use(id, again)], clock)
    requires Consumed(b.queue, id, now).1
    ensures var last := BookedAll(b, [Use(id, now)] + later);
            |last.queue| <= MAX_ACTIVE && !Consumed(last.queue, id, again).1
  {
    var use := [Use(id, now)] + later;
    var afterwards := RunKept(b, use, [Use(id, again)], clock);
    assert use[1..] == later && id in Booked(b, Use(id, now)).consumed;
    GoneForGood(Booked(b, Use(id, now)), later, id);
    AcceptedWhenKept(BookedAll(b, use), id, afterwards, again);
  }

  lemma {:induction false} RunsConcatenate(b: Book, es: seq<Event>, rest: seq<Event>)
    ensures BookedAll(b, es + rest) == BookedAll(BookedAll(b, es), rest)
    decreases es
  {
    if es == [] {
      assert es + rest == rest;
    } else {
      assert (es + rest)[0] == es[0] && (es + rest)[1..] == es[1..] + rest;
      RunsConcatenate(Booked(b, es[0]), es[1..], rest);
    }
  }

  lemma OneMore(b: Book, es: seq<Event>, e: Event)
    ensures BookedAll(b, es + [e]) == Booked(BookedAll(b, es), e)
  {
    RunsConcatenate(b, es, [e]);
    var last := Booked(BookedAll(b, es), e);
    assert [e][1..] == [] && BookedAll(last, []) == last;
  }

  // ------------------------------------------------- pushing out

  /** After every run at most 32 challenges are held, and whatever was pushed out has 32 newer ones. */
  lemma HeldAndPushedOut(es: seq<Event>, clock: int)
    requires Proper(EMPTY, es, clock)
    ensures var b := BookedAll(EMPTY, es); |b.queue| <= MAX_ACTIVE && PushedOutByNewer(b.pushedOut, b.issued)
  {
    assert es + [] == es;
    EmptyKept(clock);
    var now := RunKept(EMPTY, es, [], clock);
    assert Kept(BookedAll(EMPTY, es), now);
  }

  /** Entries of the queue that have not expired. */
  function Live(q: seq<Challenge>, now: int): nat {
    if q == [] then 0 else (if Expired(q[0], now) then 0 else 1) + Live(q[1..], now)
  }

  lemma {:induction false} LiveOfPruned(q: seq<Challenge>, now: int)
    ensures Live(FrontPruned(q, now), now) == Live(q, now)
  {
    if q != [] && Expired(q[0], now) { LiveOfPruned(q[1..], now); }
  }

  lemma {:induction false} AllLiveIff(q: seq<Challenge>, now: int)
    ensures Live(q, now) <= |q|
    ensures Live(q, now) == |q| <==> forall i :: 0 <= i < |q| ==> !Expired(q[i], now)
  {
    if q != [] {
      AllLiveIff(q[1..], now);
      assert forall i :: 0 < i < |q| ==> q[1..][i - 1] == q[i];
      if Live(q, now) != |q| && !Expired(q[0], now) {
        var i :| 0 <= i < |q[1..]| && Expired(q[1..][i], now);
        assert Expired(q[i + 1], now);
      }
    }
  }

  /**
   For every run and every order of expiries: issuing pushes out a challenge if and
   only if 32 entries are left after pruning; the one pushed out is always live, and
   fewer than 32 are live then if and only if an expired one stands among the 32.
   */
  lemma PushedOutIff(es: seq<Event>, c: Challenge, now: int, clock: int)
    requires Proper(EMPTY, es + [Issue(c, now)], clock)
    ensures var b := BookedAll(EMPTY, es); var pruned := FrontPruned(b.queue, now);
            if |pruned| >= MAX_ACTIVE
            then && !Expired(pruned[0], now) && pruned[0].id !in b.pushedOut
                 && Booked(b, Issue(c, now)).pushedOut == b.pushedOut + {pruned[0].id}
                 && (Live(b.queue, now) < MAX_ACTIVE <==> exists i :: 0 <= i < |pruned| && Expired(pruned[i], now))
            else Booked(b, Issue(c, now)).pushedOut == b.pushedOut
  {
    EmptyKept(clock);
    var from := RunKept(EMPTY, es, [Issue(c, now)], clock);
    var b := BookedAll(EMPTY, es);
    var n := Stale(b.queue, now);
    LiveOfPruned(b.queue, now);
    AllLiveIff(b.queue[n..], now);
    if n < |b.queue| { assert b.queue[n..][0] == b.queue[n]; }
  }

  /** With expiries in order a challenge is pushed out only when 32 are live. */
  lemma PushedOutIffFull(es: seq<Event>, c: Challenge, now: int, clock: int)
    requires Proper(EMPTY, es + [Issue(c, now)], clock) && SortedByExpiry(BookedAll(EMPTY, es).issued)
    ensures var b := BookedAll(EMPTY, es);
            Booked(b, Issue(c, now)).pushedOut != b.pushedOut <==> Live(b.queue, now) == MAX_ACTIVE
  {
    PushedOutIff(es, c, now, clock);
    EmptyKept(clock);
    var from := RunKept(EMPTY, es, [Issue(c, now)], clock);
    var b := BookedAll(EMPTY, es);
    var n := Stale(b.queue, now);
    LiveOfPruned(b.queue, now);
    AllLiveIff(b.queue[n..], now);
    SortedBehindLive(b, n, now);
  }

  // ------------------------------------------------- witnesses

  /** Issuing into a queue with room whose front is live. */
  lemma IssuedIntoRoom(b: Book, c: Challenge, now: int)
    requires |b.queue| == |b.births| < MAX_ACTIVE && (b.queue != [] ==> !Expired(b.queue[0], now))
    ensures Booked(b, Issue(c, now)) ==
            b.(queue := b.queue + [c], births := b.births + [|b.issued|], issued := b.issued + [c])
  {
    assert b.queue[0..] == b.queue && b.births[0..] == b.births;
  }

  const LONG := Challenge("a", 10)
  const SHORT := Challenge("b", 5)
  const TWO := [Issue(LONG, 0), Issue(SHORT, 0)]

  lemma TwoRecords()
    ensures BookedAll(EMPTY, [TWO[0]]) == Book([LONG], [0], [LONG], {}, {})
    ensures BookedAll(EMPTY, TWO) == Book([LONG, SHORT], [0, 1], [LONG, SHORT], {}, {})
  {
    assert [] + [TWO[0]] == [TWO[0]] && [TWO[0]] + [TWO[1]] == TWO;
    OneMore(EMPTY, [], TWO[0]);
    IssuedIntoRoom(EMPTY, LONG, 0);
    OneMore(EMPTY, [TWO[0]], TWO[1]);
    IssuedIntoRoom(Book([LONG], [0], [LONG], {}, {}), SHORT, 0);
  }

  lemma TwoRecordsProper()
    ensures Proper(EMPTY, TWO + [Use("b", 7)], 0)
  {
    TwoRecords();
    assert [] + [TWO[0]] == [TWO[0]] && [TWO[0]] + [TWO[1]] == TWO;
    ProperExtends(EMPTY, [], TWO[0], 0);
    ProperExtends(EMPTY, [TWO[0]], TWO[1], 0);
    ProperExtends(EMPTY, TWO, Use("b", 7), 0);
  }

  /** Two records out of order: the expired second challenge is accepted. */
  lemma OutOfOrderExpiryWitness()
    ensures Proper(EMPTY, TWO + [Use("b", 7)], 0)
    ensures Expired(SHORT, 7) && Consumed(BookedAll(EMPTY, TWO).queue, "b", 7).1
  {
    TwoRecordsProper();
    TwoRecords();
    var q := [LONG, SHORT];
    assert !Expired(q[0], 7) && q[1].id == "b";
    AcceptedIsInQueue(q, "b", 7);
  }

  function Id(n: nat): string { seq(n, _ => 'x') }

  /** One long-lived challenge and n short-lived ones behind it. */
  function Line(n: nat): seq<Challenge> {
    if n == 0 then [Challenge("", 10)] else Line(n - 1) + [Challenge(Id(n), 5)]
  }

  lemma {:induction false} LineShape(n: nat)
    ensures |Line(n)| == n + 1 && Line(n)[0] == Challenge("", 10)
    ensures forall i :: 0 < i <= n ==> Line(n)[i] == Challenge(Id(i), 5)
  {
    if n > 0 { LineShape(n - 1); }
  }

  function BurstBook(n: nat): Book { Book(Line(n), seq(n + 1, i => i), Line(n), {}, {}) }

  lemma BurstStarts()
    ensures Booked(EMPTY, Issue(Challenge("", 10), 0)) == BurstBook(0)
  {
    IssuedIntoRoom(EMPTY, Challenge("", 10), 0);
  }

  lemma BurstGoesOn(n: nat)
    requires 0 < n < MAX_ACTIVE
    ensures Booked(BurstBook(n - 1), Issue(Challenge(Id(n), 5), 0)) == BurstBook(n)
  {
    LineShape(n - 1);
    IssuedIntoRoom(BurstBook(n - 1), Challenge(Id(n), 5), 0);
  }

  /** The run that fills a queue with the line. */
  lemma {:induction false} Burst(n: nat) returns (es: seq<Event>)
    requires n < MAX_ACTIVE
    ensures es != [] && es[|es| - 1].now == 0
    ensures Proper(EMPTY, es, 0) && BookedAll(EMPTY, es) == BurstBook(n)
  {
    if n == 0 {
      var e := Issue(Challenge("", 10), 0);
      es := [] + [e];
      OneMore(EMPTY, [], e);
      ProperExtends(EMPTY, [], e, 0);
      BurstStarts();
    } else {
      var before := Burst(n - 1);
      es := before + [Issue(Challenge(Id(n), 5), 0)];
      BurstNext(EMPTY, before, n);
      BurstNextIsProper(EMPTY, before, n);
    }
  }

  lemma BurstNext(b: Book, before: seq<Event>, n: nat)
    requires 0 < n < MAX_ACTIVE && BookedAll(b, before) == BurstBook(n - 1)
    ensures BookedAll(b, before + [Issue(Challenge(Id(n), 5), 0)]) == BurstBook(n)
  {
    OneMore(b, before, Issue(Challenge(Id(n), 5), 0));
    BurstGoesOn(n);
  }

  lemma BurstNextIsProper(b: Book, before: seq<Event>, n: nat)
    requires 0 < n < MAX_ACTIVE && BookedAll(b, before) == BurstBook(n - 1)
    requires before != [] && before[|before| - 1].now == 0 && Proper(b, before, 0)
    ensures Proper(b, before + [Issue(Challenge(Id(n), 5), 0)], 0)
  {
    NotInLine(n - 1, Id(n));
    ProperExtends(b, before, Issue(Challenge(Id(n), 5), 0), 0);
  }

  lemma {:induction false} ProperExtends(b: Book, es: seq<Event>, e: Event, clock: int)
    requires Proper(b, es, clock) && (if es == [] then clock else es[|es| - 1].now) <= e.now
    requires NewId(BookedAll(b, es).issued, e)
    ensures Proper(b, es + [e], clock)
    decreases es
  {
    if es == [] {
      assert (es + [e])[1..] == [];
    } else {
      assert (es + [e])[0] == es[0] && (es + [e])[1..] == es[1..] + [e];
      ProperExtends(Booked(b, es[0]), es[1..], e, es[0].now);
    }
  }

  /** A run that pushes out the only live challenge: one long-lived, 31 expired behind it, one more. */
  lemma OnlyLivePushedOutWitness() returns (es: seq<Event>, c: Challenge)
    ensures Proper(EMPTY, es + [Issue(c, 7)], 0)
    ensures var b := BookedAll(EMPTY, es);
            && Live(b.queue, 7) == 1 && b.queue != [] && b.queue[0] == Challenge("", 10)
            && Booked(b, Issue(c, 7)).pushedOut == {""}
  {
    es := Burst(31);
    c := Challenge("y", 20);
    LineShape(31);
    LineIsStale(31);
    NotInLine(31, "y");
    ProperExtends(EMPTY, es, Issue(c, 7), 0);
    PushedOutIff(es, c, 7, 0);
  }

  /** The line holds the ids of as many letters as their positions. */
  lemma NotInLine(n: nat, id: string)
    requires |id| > n || id == "y"
    ensures !WasIssued(Line(n), id)
  {
    LineShape(n);
    forall i | 0 <= i < |Line(n)| ensures Line(n)[i].id != id {
      if i > 0 { assert Line(n)[i].id == Id(i) && Id(i)[0] == 'x'; }
    }
  }

  lemma LineIsStale(n: nat)
    ensures FrontPruned(Line(n), 7) == Line(n) && Live(Line(n), 7) == 1
  {
    LineShape(n);
    ExpiredTail(Line(n)[1..], 7);
  }

  lemma {:induction false} ExpiredTail(q: seq<Challenge>, now: int)
    requires forall i :: 0 <= i < |q| ==> Expired(q[i], now)
    ensures Live(q, now) == 0
  {
    if q != [] { ExpiredTail(q[1..], now); }
  }

  // ------------------------------------------------- a client

  lemma OneEntry(c: Challenge, now: int)
    ensures Consumed([c], c.id, now) == ([], !Expired(c, now))
    ensures Consumed([], c.id, now) == ([], false)
  {
    var q := [c];
    assert q[1..] == [] && q[..0] + q[1..] == [] && FrontPruned([], now) == [];
  }

  /** Records one challenge and consumes it twice. */
  method ConsumeTwice(c: Challenge, issued: int, first: int, second: int) returns (ok: bool, again: bool)
    ensures ok <==> first < c.expiresAt
    ensures !again
  {
    var q := new ChallengeQueue();
    q.Record(c, issued);
    assert q.queue == [c];
    OneEntry(c, first);
    OneEntry(c, second);
    ok := q.Consume(c.id, first);
    again := q.Consume(c.id, second);
  }
}
