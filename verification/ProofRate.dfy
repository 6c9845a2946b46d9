/**
 The sliding-window limiter of the proof endpoint against the history of its
 admissions.  `history` and `clock` are kept by the specification only.
 */
module ProofRates {

  const PER_SOURCE := 6
  const GLOBAL := 30
  const WINDOW := 60_000_000_000

  type IpAddr = nat

  datatype Admission = Admission(source: IpAddr, time: int)

  // ------------------------------------------------- queues and histories

  /** VecDeque::retain with the window test. */
  function Kept(times: seq<int>, now: int): seq<int> {
    if times == [] then []
    else (if now - times[0] < WINDOW then [times[0]] else []) + Kept(times[1..], now)
  }

  ghost function Recent(h: seq<Admission>, now: int): seq<Admission> {
    if h == [] then []
    else (if now - h[0].time < WINDOW then [h[0]] else []) + Recent(h[1..], now)
  }

  ghost function From(h: seq<Admission>, source: IpAddr): seq<Admission> {
    if h == [] then []
    else (if h[0].source == source then [h[0]] else []) + From(h[1..], source)
  }

  ghost function Without(h: seq<Admission>, source: IpAddr): seq<Admission> {
    if h == [] then []
    else (if h[0].source == source then [] else [h[0]]) + Without(h[1..], source)
  }

  ghost function Times(h: seq<Admission>): (t: seq<int>)
    ensures |t| == |h|
  {
    if h == [] then [] else [h[0].time] + Times(h[1..])
  }

  ghost function Sources(h: seq<Admission>): set<IpAddr> {
    if h == [] then {} else {h[0].source} + Sources(h[1..])
  }

  lemma {:induction false} RecentOfConcat(a: seq<Admission>, b: seq<Admission>, now: int)
    ensures Recent(a + b, now) == Recent(a, now) + Recent(b, now)
  {
    if a == [] {
      assert a + b == b;
    } else {
      var head := if now - a[0].time < WINDOW then [a[0]] else [];
      assert (a + b)[0] == a[0] && (a + b)[1..] == a[1..] + b;
      RecentOfConcat(a[1..], b, now);
      assert Recent(a + b, now) == head + (Recent(a[1..], now) + Recent(b, now));
    }
  }

  lemma {:induction false} FromOfConcat(a: seq<Admission>, b: seq<Admission>, k: IpAddr)
    ensures From(a + b, k) == From(a, k) + From(b, k)
  {
    if a == [] {
      assert a + b == b;
    } else {
      var head := if a[0].source == k then [a[0]] else [];
      assert (a + b)[0] == a[0] && (a + b)[1..] == a[1..] + b;
      FromOfConcat(a[1..], b, k);
      assert From(a + b, k) == head + (From(a[1..], k) + From(b, k));
    }
  }

  lemma {:induction false} TimesOfConcat(a: seq<Admission>, b: seq<Admission>)
    ensures Times(a + b) == Times(a) + Times(b)
  {
    if a == [] {
      assert a + b == b;
    } else {
      assert (a + b)[1..] == a[1..] + b;
      TimesOfConcat(a[1..], b);
    }
  }

  lemma {:induction false} RecentOfRecent(h: seq<Admission>, t: int, now: int)
    requires t <= now
    ensures Recent(Recent(h, t), now) == Recent(h, now)
  {
    if h != [] {
      var head := if t - h[0].time < WINDOW then [h[0]] else [];
      RecentOfConcat(head, Recent(h[1..], t), now);
      RecentOfRecent(h[1..], t, now);
      assert head != [] ==> head[1..] == [];
    }
  }

  lemma {:induction false} KeptOfTimes(h: seq<Admission>, now: int)
    ensures Kept(Times(h), now) == Times(Recent(h, now))
  {
    if h != [] {
      assert Times(h)[1..] == Times(h[1..]);
      KeptOfTimes(h[1..], now);
      var head := if now - h[0].time < WINDOW then [h[0]] else [];
      TimesOfConcat(head, Recent(h[1..], now));
      assert head != [] ==> head[1..] == [];
    }
  }

  lemma {:induction false} RecentOfFrom(h: seq<Admission>, k: IpAddr, now: int)
    ensures Recent(From(h, k), now) == From(Recent(h, now), k)
  {
    if h != [] {
      RecentOfFrom(h[1..], k, now);
      var a := if h[0].source == k then [h[0]] else [];
      var b := if now - h[0].time < WINDOW then [h[0]] else [];
      RecentOfConcat(a, From(h[1..], k), now);
      FromOfConcat(b, Recent(h[1..], now), k);
      assert a != [] ==> a[1..] == [];
      assert b != [] ==> b[1..] == [];
    }
  }

  // ------------------------------------------------- totals

  /** The lengths of all queues of a map, added up. */
  ghost function Total(m: map<IpAddr, seq<int>>): nat {
    if m == map[] then 0
    else
      var k :| k in m;
      MapShrinks(m, k);
      |m[k]| + Total(m - {k})
  }

  lemma MapShrinks(m: map<IpAddr, seq<int>>, k: IpAddr)
    requires k in m
    ensures |m - {k}| < |m|
  {
    assert (m - {k}).Keys == m.Keys - {k};
    assert |(m - {k}).Keys| == |m - {k}| && |m.Keys| == |m|;
  }

  lemma {:induction false} WithoutSplits(h: seq<Admission>, k: IpAddr)
    ensures |h| == |From(h, k)| + |Without(h, k)|
    ensures forall j :: j != k ==> From(Without(h, k), j) == From(h, j)
    ensures forall a :: a in Without(h, k) ==> a in h && a.source != k
  {
    if h != [] {
      WithoutSplits(h[1..], k);
      var head := if h[0].source == k then [] else [h[0]];
      forall j | j != k ensures From(Without(h, k), j) == From(h, j) {
        FromOfConcat(head, Without(h[1..], k), j);
        assert head != [] ==> head[1..] == [];
      }
    }
  }

  lemma FirstIsMember(h: seq<Admission>)
    ensures h != [] ==> h[0] in h
  {
  }

  /** Per-source queues that cover a list add up to its length. */
  lemma {:induction false} QueuesAddUp(h: seq<Admission>, m: map<IpAddr, seq<int>>)
    requires forall k :: k in m ==> |m[k]| == |From(h, k)|
    requires forall a :: a in h ==> a.source in m
    ensures Total(m) == |h|
    decreases |m|
  {
    if m == map[] {
      FirstIsMember(h);
    } else {
      var k :| k in m && Total(m) == |m[k]| + Total(m - {k});
      MapShrinks(m, k);
      WithoutSplits(h, k);
      QueuesAddUp(Without(h, k), m - {k});
    }
  }

  lemma {:induction false} FewSources(h: seq<Admission>)
    ensures |Sources(h)| <= |h|
    ensures forall a :: a in h ==> a.source in Sources(h)
    ensures forall k :: From(h, k) != [] ==> k in Sources(h)
  {
    if h != [] { FewSources(h[1..]); }
  }

  lemma SubsetIsSmaller(a: set<IpAddr>, b: set<IpAddr>)
    requires a <= b
    ensures |a| <= |b|
  {
    assert b == a + (b - a);
  }

  lemma {:induction false} FromNone(h: seq<Admission>, k: IpAddr)
    requires From(h, k) == []
    ensures forall a :: a in h ==> a.source != k
  {
    if h != [] { FromNone(h[1..], k); }
  }

  // ------------------------------------------------- the limiter

  /** The queues hold the admissions `live`, split by source; only `last` may be left empty. */
  ghost predicate Represents(global: seq<int>, sources: map<IpAddr, seq<int>>, live: seq<Admission>, last: IpAddr) {
    && global == Times(live) && |live| <= GLOBAL
    && (forall k :: k in sources ==> sources[k] == Times(From(live, k)))
    && (forall k :: k !in sources ==> From(live, k) == [])
    && (forall k :: k in sources && sources[k] == [] ==> k == last)
  }

  function PrunedSources(m: map<IpAddr, seq<int>>, now: int): map<IpAddr, seq<int>> {
    map k | k in m && Kept(m[k], now) != [] :: Kept(m[k], now)
  }

  /** HashMap::entry(source).or_default(). */
  function WithEntry(m: map<IpAddr, seq<int>>, source: IpAddr): map<IpAddr, seq<int>> {
    if source in m then m else m[source := []]
  }

  lemma KeptOfShare(live: seq<Admission>, k: IpAddr, now: int)
    ensures Kept(Times(From(live, k)), now) == Times(From(Recent(live, now), k))
  {
    KeptOfTimes(From(live, k), now);
    RecentOfFrom(live, k, now);
  }

  lemma {:induction false} RecentIsShorter(h: seq<Admission>, now: int)
    ensures |Recent(h, now)| <= |h|
  {
    if h != [] { RecentIsShorter(h[1..], now); }
  }

  lemma PruningRepresents(
    global: seq<int>, sources: map<IpAddr, seq<int>>, live: seq<Admission>, last: IpAddr, source: IpAddr, now: int)
    requires Represents(global, sources, live, last)
    ensures Represents(Kept(global, now), WithEntry(PrunedSources(sources, now), source), Recent(live, now), source)
  {
    KeptOfTimes(live, now);
    RecentIsShorter(live, now);
    var m := WithEntry(PrunedSources(sources, now), source);
    forall k
      ensures k in m ==> m[k] == Times(From(Recent(live, now), k))
      ensures k !in m ==> From(Recent(live, now), k) == []
    {
      KeptOfShare(live, k, now);
    }
  }

  /** Appending an admission extends the recent part and one source's share of it. */
  lemma AdmissionRepresents(
    global: seq<int>, sources: map<IpAddr, seq<int>>, live: seq<Admission>, source: IpAddr, now: int)
    requires Represents(global, sources, live, source) && |live| < GLOBAL && source in sources
    ensures Represents(global + [now], sources[source := sources[source] + [now]],
                       live + [Admission(source, now)], source)
  {
    var a := [Admission(source, now)];
    assert a[1..] == [];
    TimesOfConcat(live, a);
    TimesOfConcat(From(live, source), a);
    forall k ensures From(live + a, k) == if k == source then From(live, k) + a else From(live, k) {
      FromOfConcat(live, a, k);
    }
  }

  lemma SourcesCovered(live: seq<Admission>, sources: map<IpAddr, seq<int>>)
    requires forall k :: k !in sources ==> From(live, k) == []
    ensures forall a :: a in live ==> a.source in sources
  {
    forall k | k !in sources ensures forall a :: a in live ==> a.source != k {
      FromNone(live, k);
    }
  }

  lemma MapIsSmall(global: seq<int>, sources: map<IpAddr, seq<int>>, live: seq<Admission>, last: IpAddr)
    requires Represents(global, sources, live, last)
    ensures |sources| <= GLOBAL + 1
  {
    FewSources(live);
    assert sources.Keys <= Sources(live) + {last};
    SubsetIsSmaller(sources.Keys, Sources(live) + {last});
    assert |sources| == |sources.Keys|;
  }

  lemma TotalIsGlobal(global: seq<int>, sources: map<IpAddr, seq<int>>, live: seq<Admission>, last: IpAddr)
    requires Represents(global, sources, live, last)
    ensures Total(sources) == |global|
  {
    SourcesCovered(live, sources);
    QueuesAddUp(live, sources);
  }

  class ProofRate {
    var global: seq<int>
    var sources: map<IpAddr, seq<int>>
    ghost var history: seq<Admission>
    ghost var clock: int
    ghost var last: IpAddr

    ghost predicate Valid() reads this {
      Represents(global, sources, Recent(history, clock), last)
    }

    constructor (ghost start: int)
      ensures Valid() && history == [] && clock == start
    {
      global, sources, history, clock, last := [], map[], [], start, 0;
    }

    /** The two `retain` passes and the entry for this caller. */
    method Prune(source: IpAddr, now: int)
      requires Valid() && clock <= now
      modifies this
      ensures Valid() && history == old(history) && clock == now && last == source
      ensures source in sources
    {
      PruningRepresents(global, sources, Recent(history, clock), last, source, now);
      RecentOfRecent(history, clock, now);
      global := Kept(global, now);
      sources := WithEntry(PrunedSources(sources, now), source);
      clock, last := now, source;
    }

    method Push(source: IpAddr, now: int)
      requires Valid() && clock == now && last == source && source in sources && |global| < GLOBAL
      modifies this
      ensures Valid() && history == old(history) + [Admission(source, now)] && clock == now && last == source
    {
      AdmissionRepresents(global, sources, Recent(history, now), source, now);
      RecentOfConcat(history, [Admission(source, now)], now);
      assert Recent([Admission(source, now)], now) == [Admission(source, now)];
      global := global + [now];
      sources := sources[source := sources[source] + [now]];
      history := history + [Admission(source, now)];
    }

    /**
     Admits if and only if fewer than 30 admissions in all and fewer than 6 from this
     source fall in the window; the queues add up and the map stays small.
     */
    method Allow(source: IpAddr, now: int) returns (ok: bool)
      requires Valid() && clock <= now
      modifies this
      ensures Valid() && clock == now
      ensures ok <==> |Recent(old(history), now)| < GLOBAL && |From(Recent(old(history), now), source)| < PER_SOURCE
      ensures history == old(history) + (if ok then [Admission(source, now)] else [])
      ensures |global| == Total(sources) && |sources| <= GLOBAL + 1
    {
      Prune(source, now);
      if |global| >= GLOBAL || |sources[source]| >= PER_SOURCE {
        ok := false;
      } else {
        Push(source, now);
        ok := true;
      }
      TotalIsGlobal(global, sources, Recent(history, clock), last);
      MapIsSmall(global, sources, Recent(history, clock), last);
    }
  }
  // ------------------------------------------------- a client over a whole run

  /** The requests that were admitted. */
  ghost function Admitted(requests: seq<Admission>, answers: seq<bool>): seq<Admission>
    requires |answers| == |requests|
  {
    if requests == [] then [] else
    var n := |requests| - 1;
    Admitted(requests[..n], answers[..n]) + if answers[n] then [requests[n]] else []
  }

  /** Answer i is what the admissions before it demand. */
  ghost predicate Exact(requests: seq<Admission>, answers: seq<bool>, i: nat)
    requires i < |answers| <= |requests|
  {
    var recent := Recent(Admitted(requests[..i], answers[..i]), requests[i].time);
    answers[i] <==> |recent| < GLOBAL && |From(recent, requests[i].source)| < PER_SOURCE
  }

  lemma AdmittedSnoc(requests: seq<Admission>, answers: seq<bool>, i: nat, ok: bool)
    requires i < |requests| && |answers| == i
    ensures Admitted(requests[..i + 1], answers + [ok]) ==
            Admitted(requests[..i], answers) + if ok then [requests[i]] else []
    ensures forall j :: 0 <= j < i ==> Exact(requests, answers + [ok], j) == Exact(requests, answers, j)
  {
    assert requests[..i + 1][..i] == requests[..i] && (answers + [ok])[..i] == answers;
    forall j | 0 <= j < i ensures Exact(requests, answers + [ok], j) == Exact(requests, answers, j) {
      assert (answers + [ok])[..j] == answers[..j];
    }
  }

  /** A new limiter asked once per request, at times that do not go back. */
  method Serve(requests: seq<Admission>) returns (answers: seq<bool>)
    requires forall i, j :: 0 <= i < j < |requests| ==> requests[i].time <= requests[j].time
    ensures |answers| == |requests|
    ensures forall i :: 0 <= i < |requests| ==> Exact(requests, answers, i)
  {
    var limiter := new ProofRate(if requests == [] then 0 else requests[0].time);
    answers := [];
    for n := 0 to |requests|
      invariant limiter.Valid() && fresh(limiter) && |answers| == n
      invariant limiter.history == Admitted(requests[..n], answers)
      invariant n < |requests| ==> limiter.clock <= requests[n].time
      invariant forall i :: 0 <= i < n ==> Exact(requests, answers, i)
    {
      var ok := limiter.Allow(requests[n].source, requests[n].time);
      AdmittedSnoc(requests, answers, n, ok);
      assert (answers + [ok])[..n] == answers;
      answers := answers + [ok];
    }
  }
}
