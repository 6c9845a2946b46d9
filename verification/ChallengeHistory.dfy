/**
 Acceptance of a challenge in terms of what was issued, consumed and pushed out
 alone, for expiries in any order: an expired challenge outlives its expiry for as
 long as an older one stands live before it whenever the queue is touched.
 */
module ChallengeHistory {
  import opened Challenges

  /** At this time challenge n is live, or an older one is that is neither consumed nor pushed out. */
  ghost predicate Protected(issued: seq<Challenge>, gone: set<string>, n: nat, now: int)
    requires n < |issued|
  {
    !Expired(issued[n], now) || exists m :: 0 <= m < n && issued[m].id !in gone && !Expired(issued[m], now)
  }

  /** Protected at event k, if it was issued before. */
  ghost predicate ProtectedAt(run: seq<Event>, n: nat, k: nat)
    requires k < |run|
  {
    var b := BookedAll(EMPTY, run[..k]);
    n < |b.issued| ==> Protected(b.issued, Gone(b), n, run[k].now)
  }

  ghost predicate AlwaysProtected(run: seq<Event>, n: nat) {
    forall k: nat :: k < |run| ==> ProtectedAt(run, n, k)
  }

  // ------------------------------------------------- one event

  /** Where a queued challenge stands. */
  lemma PositionOf(b: Book, n: nat, clock: int) returns (j: nat)
    requires Kept(b, clock) && n in b.births
    ensures j < |b.queue| && b.births[j] == n && b.queue[j] == b.issued[n]
  {
    j :| 0 <= j < |b.births| && b.births[j] == n;
  }

  lemma ShieldedIffOlderLive(b: Book, j: nat, clock: int, now: int)
    requires Kept(b, clock) && clock <= now && j < |b.queue|
    ensures Shielded(b.queue, j, now) <==>
            exists m :: 0 <= m < b.births[j] && b.issued[m].id !in Gone(b) && !Expired(b.issued[m], now)
  {
    if Shielded(b.queue, j, now) {
      var i :| 0 <= i < j && i < |b.queue| && !Expired(b.queue[i], now);
      assert b.queue[i] == b.issued[b.births[i]] && b.births[i] < b.births[j];
    }
    if m :| 0 <= m < b.births[j] && b.issued[m].id !in Gone(b) && !Expired(b.issued[m], now) {
      assert m in b.births;
      var i := PositionOf(b, m, clock);
      assert i < j;
      assert !Expired(b.queue[i], now);
    }
  }

  lemma InTailIff(births: seq<nat>, below: nat, cut: nat, j: nat)
    requires Ascending(births, below) && j < |births| && cut <= |births|
    ensures births[j] in births[cut..] <==> j >= cut
  {
    if j >= cut {
      assert births[cut..][j - cut] == births[j];
    } else {
      forall i | 0 <= i < |births[cut..]| ensures births[cut..][i] != births[j] {
        assert births[cut..][i] == births[cut + i];
      }
    }
  }

  /** Whether position j survives pruning, in terms of the history. */
  lemma SurvivesIffProtected(b: Book, j: nat, clock: int, now: int)
    requires Kept(b, clock) && clock <= now && j < |b.queue|
    ensures j >= Stale(b.queue, now) <==> Protected(b.issued, Gone(b), b.births[j], now)
  {
    SurvivesIff(b.queue, j, now);
    ShieldedIffOlderLive(b, j, clock, now);
    assert b.queue[j] == b.issued[b.births[j]];
  }

  /** Pruning keeps a queued challenge exactly when it is protected. */
  lemma PruningKeepsIff(b: Book, n: nat, clock: int, now: int)
    requires Kept(b, clock) && clock <= now && n < |b.issued|
    ensures n in Cut(b, Stale(b.queue, now)).births <==> n in b.births && Protected(b.issued, Gone(b), n, now)
  {
    var cut := Stale(b.queue, now);
    if n in b.births {
      var j := PositionOf(b, n, clock);
      SurvivesIffProtected(b, j, clock, now);
      InTailIff(b.births, |b.issued|, cut, j);
    }
  }

  lemma WithoutOthers(births: seq<nat>, k: nat, n: nat)
    requires k < |births| && n != births[k]
    ensures n in births <==> n in births[..k] + births[k + 1..]
  {
    assert births == births[..k] + [births[k]] + births[k + 1..];
  }

  /** What an event leaves of a challenge that is not gone after it. */
  lemma EventKeepsIff(b: Book, e: Event, n: nat, clock: int)
    requires Kept(b, clock) && clock <= e.now && NewId(b.issued, e)
    requires n < |b.issued| && b.issued[n].id !in Gone(Booked(b, e))
    ensures n in Booked(b, e).births <==> n in b.births && Protected(b.issued, Gone(b), n, e.now)
  {
    PruningKeepsIff(b, n, clock, e.now);
    CutHeld(b, e.now, clock);
    var p := Cut(b, Stale(b.queue, e.now));
    if e.Use? {
      UseKeeps(p, e.id, n);
    } else {
      IssueKeeps(p, e.c, n);
    }
  }

  lemma UseKeeps(p: Book, id: string, n: nat)
    requires Embedded(p.queue, p.births, p.issued, Gone(p)) && n < |p.issued|
    requires var k := Position(p.queue, id); k < |p.queue| ==> p.issued[n].id != id
    ensures var k := Position(p.queue, id);
            k < |p.queue| ==> (n in Without(p, k).births <==> n in p.births)
  {
    var k := Position(p.queue, id);
    if k < |p.queue| {
      assert p.issued[p.births[k]] == p.queue[k];
      WithoutOthers(p.births, k, n);
    }
  }

  lemma IssueKeeps(p: Book, c: Challenge, n: nat)
    requires Embedded(p.queue, p.births, p.issued, Gone(p)) && n < |p.issued|
    requires |p.queue| >= MAX_ACTIVE ==> p.issued[n].id != p.queue[0].id
    ensures var room := if |p.queue| >= MAX_ACTIVE then Without(p, 0) else p;
            n in room.births + [|p.issued|] <==> n in p.births
  {
    if |p.queue| >= MAX_ACTIVE {
      assert p.issued[p.births[0]] == p.queue[0];
      WithoutOthers(p.births, 0, n);
    }
  }

  // ------------------------------------------------- runs

  lemma ProtectedSnoc(es: seq<Event>, e: Event, n: nat)
    ensures AlwaysProtected(es + [e], n) <==> AlwaysProtected(es, n) && ProtectedAt(es + [e], n, |es|)
  {
    var run := es + [e];
    forall k: nat | k < |es| ensures ProtectedAt(run, n, k) == ProtectedAt(es, n, k) {
      assert run[..k] == es[..k] && run[k] == es[k];
    }
  }

  ghost predicate QueuedIff(es: seq<Event>, n: nat) {
    var b := BookedAll(EMPTY, es);
    n < |b.issued| && b.issued[n].id !in Gone(b) ==> (n in b.births <==> AlwaysProtected(es, n))
  }

  lemma QueuedStep(front: seq<Event>, last: Event, n: nat, now: int)
    requires Kept(BookedAll(EMPTY, front), now) && Proper(BookedAll(EMPTY, front), [last], now)
    requires QueuedIff(front, n)
    ensures QueuedIff(front + [last], n)
  {
    OneMore(EMPTY, front, last);
    ProtectedSnoc(front, last, n);
    assert (front + [last])[..|front|] == front;
    StepQueuedIff(BookedAll(EMPTY, front), last, n, now);
    if n >= |BookedAll(EMPTY, front).issued| { NotYetIssued(front, n); }
  }

  /** After every run: a challenge that is not gone is queued exactly if it was protected at every event since. */
  lemma {:induction false} QueuedIffProtected(es: seq<Event>, n: nat, clock: int)
    requires Proper(EMPTY, es, clock)
    ensures QueuedIff(es, n)
  {
    if es == [] {
      assert BookedAll(EMPTY, es) == EMPTY;
    } else {
      var front, last := es[..|es| - 1], es[|es| - 1];
      assert es == front + [last];
      EmptyKept(clock);
      var now := RunKept(EMPTY, front, [last], clock);
      ProperFront(EMPTY, front, last, clock);
      QueuedIffProtected(front, n, clock);
      QueuedStep(front, last, n, now);
    }
  }

  lemma {:induction false} ProperFront(b: Book, es: seq<Event>, e: Event, clock: int)
    requires Proper(b, es + [e], clock)
    ensures Proper(b, es, clock)
    decreases es
  {
    if es != [] {
      ProperHead(b, es, [e], clock);
      ProperFront(Booked(b, es[0]), es[1..], e, es[0].now);
    }
  }

  /** One event, seen from a challenge that is not gone after it. */
  lemma StepQueuedIff(b: Book, e: Event, n: nat, clock: int)
    requires Kept(b, clock) && Proper(b, [e], clock)
    ensures var after := Booked(b, e);
            n < |after.issued| && after.issued[n].id !in Gone(after) ==>
              if n < |b.issued| then n in after.births <==> n in b.births && Protected(b.issued, Gone(b), n, e.now)
              else n in after.births
    ensures n < |b.issued| ==> b.issued[n].id in Gone(b) ==> b.issued[n].id in Gone(Booked(b, e))
    ensures n < |b.issued| ==> Booked(b, e).issued[n] == b.issued[n]
  {
    var after := Booked(b, e);
    if n < |b.issued| {
      if b.issued[n].id !in Gone(after) { EventKeepsIff(b, e, n, clock); }
    } else if n < |after.issued| {
      assert after.births[|after.births| - 1] == n;
    }
  }

  lemma {:induction false} IssuedGrows(b: Book, es: seq<Event>)
    ensures |b.issued| <= |BookedAll(b, es).issued|
    decreases es
  {
    if es != [] { IssuedGrows(Booked(b, es[0]), es[1..]); }
  }

  /** Before it is issued there is nothing to protect. */
  lemma NotYetIssued(es: seq<Event>, n: nat)
    requires n >= |BookedAll(EMPTY, es).issued|
    ensures AlwaysProtected(es, n)
  {
    forall k: nat | k < |es| ensures ProtectedAt(es, n, k) {
      assert es == es[..k] + es[k..];
      RunsConcatenate(EMPTY, es[..k], es[k..]);
      IssuedGrows(BookedAll(EMPTY, es[..k]), es[k..]);
    }
  }

  // ------------------------------------------------- result

  /**
   For every run and every order of expiries, over the history alone: a challenge is
   accepted if and only if it was issued, was neither consumed nor pushed out, and at
   every event since, this one included, it or an older challenge that was neither
   consumed nor pushed out was live.
   */
  lemma AcceptedIffProtected(es: seq<Event>, id: string, now: int, clock: int)
    requires Proper(EMPTY, es + [Use(id, now)], clock)
    ensures var b := BookedAll(EMPTY, es);
            Consumed(b.queue, id, now).1 <==>
              && id !in Gone(b)
              && exists n: nat :: n < |b.issued| && b.issued[n].id == id && AlwaysProtected(es + [Use(id, now)], n)
  {
    EmptyKept(clock);
    var from := RunKept(EMPTY, es, [Use(id, now)], clock);
    ProperFront(EMPTY, es, Use(id, now), clock);
    var b := BookedAll(EMPTY, es);
    forall n: nat | n < |b.issued| && b.issued[n].id == id && id !in Gone(b)
      ensures QueuedAndProtected(b, n, now) <==> AlwaysProtected(es + [Use(id, now)], n)
    {
      QueuedIffProtected(es, n, clock);
      ProtectedSnoc(es, Use(id, now), n);
      assert (es + [Use(id, now)])[..|es|] == es;
    }
    if Consumed(b.queue, id, now).1 {
      var n := AcceptedHasNumber(b, id, from, now);
      assert AlwaysProtected(es + [Use(id, now)], n);
    } else if n: nat :| n < |b.issued| && b.issued[n].id == id && id !in Gone(b) && AlwaysProtected(es + [Use(id, now)], n) {
      NumberIsAccepted(b, n, from, now);
    }
  }

  ghost predicate QueuedAndProtected(b: Book, n: nat, now: int) {
    n < |b.issued| && n in b.births && Protected(b.issued, Gone(b), n, now)
  }

  lemma AcceptedHasNumber(b: Book, id: string, clock: int, now: int) returns (n: nat)
    requires Kept(b, clock) && clock <= now && Consumed(b.queue, id, now).1
    ensures QueuedAndProtected(b, n, now) && b.issued[n].id == id && id !in Gone(b)
  {
    AcceptedSurvived(b.queue, id, now);
    var j :| 0 <= j < |b.queue| && b.queue[j].id == id && (!Expired(b.queue[j], now) || Shielded(b.queue, j, now));
    SurvivesIff(b.queue, j, now);
    SurvivesIffProtected(b, j, clock, now);
    n := b.births[j];
    assert b.issued[n] == b.queue[j];
  }

  lemma NumberIsAccepted(b: Book, n: nat, clock: int, now: int)
    requires Kept(b, clock) && clock <= now && QueuedAndProtected(b, n, now)
    ensures Consumed(b.queue, b.issued[n].id, now).1
  {
    var j := PositionOf(b, n, clock);
    SurvivesIffProtected(b, j, clock, now);
    SurvivesIff(b.queue, j, now);
    SurvivorAccepted(b.queue, j, now);
  }
}
