/**
 Read-after-write for the resource cache under every interleaving.  Any number of
 clients fetch (holding the cache lock from the lookup to the store), write
 (upstream first, eviction after a success reply) and are dropped at any await,
 while other parties may change the upstream store behind the cache's back.

 The upstream history of a path is a log of contents; an index into it is a
 version.  `origins` and `settled` are bookkeeping of the model: the version a
 cached entry was read at, and the versions whose writer has returned Ok.
 */
module CacheCoherence {
  import opened Wrappers
  import opened ByteStrings
  import opened ResourceCaches

  type Content = Option<Bytes>

  datatype Answer =
    | Found(body: Bytes)
    | Missing
    | Trouble(status: Option<nat>)  // any other status, or none at all

  datatype Client =
    | Idle
    | FetchWaiting(path: Path)
    | FetchAnswered(path: Path, answer: Answer, origin: nat)
    | Writing(path: Path, content: Content)
    | Applied(path: Path, version: nat, content: Content)
    | Evicting(path: Path, version: nat, content: Content)

  datatype System = System(
    cache: Cache,
    origins: map<Path, nat>,
    logs: map<Path, seq<Content>>,
    holder: Option<nat>,
    clients: map<nat, Client>,
    settled: set<(Path, nat)>,
    abandoned: set<(Path, nat)>)

  datatype Event =
    | BeginFetch(id: nat, path: Path, now: int)
    | Serve(id: nat, trouble: Option<Option<nat>>)
    | FinishFetch(id: nat, now: int, ttl: int, failureTtl: int)
    | DropFetch(id: nat)
    | BeginWrite(id: nat, path: Path, content: Content)
    | Apply(id: nat)
    | AnswerAbsent(id: nat)   // DELETE's own 404 or 412
    | RefuseWrite(id: nat)    // any failure that changed nothing
    | ConfirmWrite(id: nat)
    | DropWrite(id: nat)      // reply lost, or the writer was dropped
    | EvictAfterWrite(id: nat)
    | ForceEvict(path: Path)  // refresh_ownership_state(force)
    | ForeignWrite(path: Path, content: Content)

  function Log(s: System, p: Path): (log: seq<Content>)
    ensures log != []
  {
    if p in s.logs && s.logs[p] != [] then s.logs[p] else [None]
  }

  function Version(s: System, p: Path): nat { |Log(s, p)| - 1 }

  function ClientOf(s: System, id: nat): Client { if id in s.clients then s.clients[id] else Idle }

  function Put(s: System, id: nat, c: Client): System { s.(clients := s.clients[id := c]) }

  function Append(s: System, p: Path, content: Content): System {
    s.(logs := s.logs[p := Log(s, p) + [content]])
  }

  /** An honest upstream: what it says about presence is true when it says it. */
  function Honest(s: System, p: Path, trouble: Option<Option<nat>>): Answer {
    if trouble.Some? && trouble.value != Some(404) && trouble.value != Some(200) then Trouble(trouble.value)
    else match Log(s, p)[Version(s, p)]
      case Some(body) => Found(body)
      case None => Missing
  }

  function PayloadOf(a: Answer): ErrorPayload
    requires !a.Found?
  {
    ErrorPayload(if a.Missing? then Some(404) else a.status)
  }

  function AnswerOf(h: Hit): Answer
    requires !h.Miss?
  {
    match h
    case HitBody(body, _, _) => Found(body)
    case HitError(e) => if e.upstreamStatus == Some(404) then Missing else Trouble(e.upstreamStatus)
  }

  function Stored(cache: Cache, p: Path, a: Answer, now: int, ttl: int, failureTtl: int): Cache {
    if a.Found? then StoredSuccess(cache, p, a.body, "application/octet-stream", now, ttl)
    else StoredError(cache, p, PayloadOf(a), now, failureTtl)
  }

  function Uncached(s: System, p: Path): System { s.(cache := s.cache - {p}, origins := s.origins - {p}) }

  function Exec(s: System, e: Event): System {
    match e
    case BeginFetch(id, p, now) =>
      if ClientOf(s, id) != Idle || s.holder.Some? then s else
      var (cache, hit) := Looked(s.cache, p, now);
      if !hit.Miss? then s
      else Put(s, id, FetchWaiting(p)).(cache := cache, origins := s.origins - {p}, holder := Some(id))
    case Serve(id, trouble) =>
      if !ClientOf(s, id).FetchWaiting? then s else
      var p := ClientOf(s, id).path;
      Put(s, id, FetchAnswered(p, Honest(s, p, trouble), Version(s, p)))
    case FinishFetch(id, now, ttl, failureTtl) =>
      if !ClientOf(s, id).FetchAnswered? then s else
      var FetchAnswered(p, a, origin) := ClientOf(s, id);
      var cache := Stored(s.cache, p, a, now, ttl, failureTtl);
      Put(s, id, Idle).(
        cache := cache,
        origins := if p in cache then s.origins[p := origin] else s.origins - {p},
        holder := None)
    case DropFetch(id) =>
      if ClientOf(s, id).FetchWaiting? || ClientOf(s, id).FetchAnswered? then Put(s, id, Idle).(holder := None) else s
    case BeginWrite(id, p, content) =>
      if ClientOf(s, id) == Idle then Put(s, id, Writing(p, content)) else s
    case Apply(id) =>
      if !ClientOf(s, id).Writing? then s else
      var Writing(p, content) := ClientOf(s, id);
      Put(Append(s, p, content), id, Applied(p, Version(s, p) + 1, content))
    case AnswerAbsent(id) =>
      var c := ClientOf(s, id);
      if c.Writing? && c.content == None && Log(s, c.path)[Version(s, c.path)] == None
      then Put(s, id, Evicting(c.path, Version(s, c.path), None)) else s
    case RefuseWrite(id) => if ClientOf(s, id).Writing? then Put(s, id, Idle) else s
    case ConfirmWrite(id) =>
      var c := ClientOf(s, id);
      if c.Applied? then Put(s, id, Evicting(c.path, c.version, c.content)) else s
    case DropWrite(id) =>
      var c := ClientOf(s, id);
      if c.Applied? || c.Evicting?
      then Put(s, id, Idle).(abandoned := s.abandoned + {(c.path, c.version)})
      else if c.Writing? then Put(s, id, Idle) else s
    case EvictAfterWrite(id) =>
      var c := ClientOf(s, id);
      if c.Evicting? && s.holder.None?
      then Put(Uncached(s, c.path), id, Idle).(settled := s.settled + {(c.path, c.version)}) else s
    case ForceEvict(p) => if s.holder.None? then Uncached(s, p) else s
    case ForeignWrite(p, content) =>
      Append(s, p, content).(abandoned := s.abandoned + {(p, Version(s, p) + 1)})
  }

  /** What a fetch that event e completes hands to its caller, and the version it stems from. */
  datatype Return = Return(path: Path, answer: Answer, origin: nat)

  function Returns(s: System, e: Event): Option<Return> {
    match e
    case BeginFetch(id, p, now) =>
      if ClientOf(s, id) != Idle || s.holder.Some? then None else
      var hit := Looked(s.cache, p, now).1;
      if hit.Miss? then None else Some(Return(p, AnswerOf(hit), if p in s.origins then s.origins[p] else 0))
    case FinishFetch(id, _, _, _) =>
      if !ClientOf(s, id).FetchAnswered? then None else
      var FetchAnswered(p, a, origin) := ClientOf(s, id);
      Some(Return(p, a, origin))
    case _ => None
  }

  function ExecAll(s: System, es: seq<Event>): System
    decreases es
  {
    if es == [] then s else ExecAll(Exec(s, es[0]), es[1..])
  }

  /** A proxy that has just started over an arbitrary upstream store, which counts as settled. */
  function Boot(logs: map<Path, seq<Content>>): System {
    System(map[], map[], logs, None, map[], set p | p in logs && logs[p] != [] :: (p, |logs[p]| - 1), {})
  }

  // ------------------------------------------------- the invariant

  /** The answer is what the path held at that version; trouble says nothing about presence. */
  predicate Agrees(a: Answer, content: Content) {
    match a
    case Found(body) => content == Some(body)
    case Missing => content == None
    case Trouble(status) => status != Some(404)
  }

  ghost predicate Current(s: System, p: Path, origin: nat, a: Answer) {
    && origin <= Version(s, p)
    && (forall v: nat :: (p, v) in s.settled ==> v <= origin)
    && Agrees(a, Log(s, p)[origin])
  }

  function EntryAnswer(e: Entry): Answer {
    match e.error
    case None => Found(e.body)
    case Some(err) => if err.upstreamStatus == Some(404) then Missing else Trouble(err.upstreamStatus)
  }

  ghost predicate LockHeldByFetch(s: System) {
    forall id: nat :: ClientOf(s, id).FetchWaiting? || ClientOf(s, id).FetchAnswered? ==> s.holder == Some(id)
  }

  ghost predicate EntryCurrent(s: System, p: Path) {
    && (p in s.cache <==> p in s.origins)
    && (p in s.cache ==> Current(s, p, s.origins[p], EntryAnswer(s.cache[p])))
    && (p in s.cache && s.cache[p].error.Some? ==> s.cache[p].body == [])
  }

  ghost predicate CacheCurrent(s: System) { forall p :: EntryCurrent(s, p) }

  ghost predicate ClientCurrent(s: System, c: Client) {
    c.FetchAnswered? ==> Current(s, c.path, c.origin, c.answer)
  }

  ghost predicate InFlightCurrent(s: System) { forall id: nat :: ClientCurrent(s, ClientOf(s, id)) }

  /** Somebody will evict this version, unless its writer was lost. */
  ghost predicate Outstanding(s: System, p: Path, v: nat) {
    (p, v) in s.abandoned ||
    exists id: nat :: WillEvict(ClientOf(s, id), p, v)
  }

  predicate WillEvict(c: Client, p: Path, v: nat) { (c.Applied? || c.Evicting?) && c.path == p && c.version == v }

  ghost predicate VersionsExist(s: System) {
    && (forall p, v: nat :: (p, v) in s.settled ==> v <= Version(s, p))
    && (forall id: nat :: VersionReached(s, ClientOf(s, id)))
  }

  predicate VersionReached(s: System, c: Client) {
    c.Applied? || c.Evicting? ==> c.version <= Version(s, c.path) && Log(s, c.path)[c.version] == c.content
  }

  ghost predicate Coherent(s: System) {
    LockHeldByFetch(s) && CacheCurrent(s) && InFlightCurrent(s) && VersionsExist(s)
  }

  /** Every version since the start is settled or outstanding. */
  ghost predicate WritesAccounted(s: System, start: System) {
    forall p, v: nat :: Version(start, p) < v <= Version(s, p) && (p, v) !in s.settled ==> Outstanding(s, p, v)
  }

  // ------------------------------------------------- preservation, event by event

  /** What was current stays current while the log of the path only grows. */
  lemma CurrentKept(s: System, s': System, p: Path, origin: nat, a: Answer)
    requires Current(s, p, origin, a) && Log(s, p) <= Log(s', p)
    requires forall v: nat :: (p, v) in s'.settled ==> (p, v) in s.settled
    ensures Current(s', p, origin, a)
  {
    assert Log(s', p)[origin] == Log(s, p)[origin];
  }

  /** How a client comes to hold a version: it already did, it has just written it, or it found absence. */
  lemma ClientAfter(s: System, e: Event, id: nat)
    ensures var b, c := ClientOf(s, id), ClientOf(Exec(s, e), id);
            c.Applied? || c.Evicting? ==>
              || (WillEvict(b, c.path, c.version) && b.content == c.content)
              || (c.version == Version(Exec(s, e), c.path) && Log(Exec(s, e), c.path)[c.version] == c.content)
  {
  }

  lemma VersionStillReached(s: System, e: Event, id: nat)
    requires VersionReached(s, ClientOf(s, id))
    ensures VersionReached(Exec(s, e), ClientOf(Exec(s, e), id))
  {
    var s' := Exec(s, e);
    ClientAfter(s, e, id);
    var c := ClientOf(s', id);
    if c.Applied? || c.Evicting? { LogGrows(s, e, c.path); }
  }

  lemma VersionsStillExist(s: System, e: Event)
    requires VersionsExist(s)
    ensures VersionsExist(Exec(s, e))
  {
    var s' := Exec(s, e);
    LogsGrow(s, e);
    forall p, v: nat | (p, v) in s'.settled ensures v <= Version(s', p) {
      assert Log(s, p) <= Log(s', p);
      if (p, v) !in s.settled { assert VersionReached(s, ClientOf(s, e.id)); }
    }
    forall id: nat ensures VersionReached(s', ClientOf(s', id)) { VersionStillReached(s, e, id); }
  }

  /** An eviction runs under the lock, so no fetch is under way when a version settles. */
  lemma SettlingNeedsTheLock(s: System, e: Event, id: nat)
    requires LockHeldByFetch(s) && Exec(s, e).settled != s.settled
    ensures !ClientOf(s, id).FetchWaiting? && !ClientOf(s, id).FetchAnswered?
    ensures !ClientOf(Exec(s, e), id).FetchAnswered?
  {
  }

  lemma LockStillHeld(s: System, e: Event)
    requires LockHeldByFetch(s)
    ensures LockHeldByFetch(Exec(s, e))
  {
  }

  lemma ClientStaysCurrent(s: System, e: Event, id: nat)
    requires LockHeldByFetch(s) && VersionsExist(s) && ClientCurrent(s, ClientOf(s, id))
    ensures ClientCurrent(Exec(s, e), ClientOf(Exec(s, e), id))
  {
    var s' := Exec(s, e);
    var c := ClientOf(s', id);
    LogsGrow(s, e);
    if s'.settled != s.settled {
      SettlingNeedsTheLock(s, e, id);
    } else if c.FetchAnswered? && c == ClientOf(s, id) {
      CurrentKept(s, s', c.path, c.origin, c.answer);
    }
  }

  /** Only a finished fetch of this path puts anything new in its place, and only an eviction settles a version. */
  lemma EntryAfter(s: System, e: Event, p: Path)
    requires p in s.cache <==> p in s.origins
    requires !(e.FinishFetch? && ClientOf(s, e.id).FetchAnswered? && ClientOf(s, e.id).path == p)
    ensures var t := Exec(s, e);
            && (p in t.cache <==> p in t.origins)
            && (p in t.cache ==> p in s.cache && t.cache[p] == s.cache[p] && t.origins[p] == s.origins[p])
            && (p in t.cache ==> forall v: nat :: (p, v) in t.settled ==> (p, v) in s.settled)
  {
  }

  lemma EntryStaysCurrent(s: System, e: Event, p: Path)
    requires EntryCurrent(s, p) && InFlightCurrent(s)
    ensures EntryCurrent(Exec(s, e), p)
  {
    var s' := Exec(s, e);
    if e.FinishFetch? && ClientOf(s, e.id).FetchAnswered? && ClientOf(s, e.id).path == p {
      assert ClientCurrent(s, ClientOf(s, e.id));
      FetchedEntryCurrent(s, e, p);
    } else {
      EntryAfter(s, e, p);
      LogGrows(s, e, p);
      if p in s'.cache { CurrentKept(s, s', p, s.origins[p], EntryAnswer(s.cache[p])); }
    }
  }

  lemma FetchedEntryCurrent(s: System, e: Event, p: Path)
    requires e.FinishFetch? && ClientOf(s, e.id).FetchAnswered? && ClientOf(s, e.id).path == p
    requires ClientCurrent(s, ClientOf(s, e.id))
    ensures EntryCurrent(Exec(s, e), p)
  {
    var c := ClientOf(s, e.id);
    CurrentKept(s, Exec(s, e), p, c.origin, c.answer);
  }

  lemma LogGrows(s: System, e: Event, p: Path)
    ensures Log(s, p) <= Log(Exec(s, e), p)
  {
  }

  lemma LogsGrow(s: System, e: Event)
    ensures forall p :: Log(s, p) <= Log(Exec(s, e), p)
  {
  }

  lemma ExecCoherent(s: System, e: Event)
    requires Coherent(s)
    ensures Coherent(Exec(s, e))
  {
    LockStillHeld(s, e);
    VersionsStillExist(s, e);
    forall p ensures EntryCurrent(Exec(s, e), p) { EntryStaysCurrent(s, e, p); }
    forall id: nat ensures ClientCurrent(Exec(s, e), ClientOf(Exec(s, e), id)) { ClientStaysCurrent(s, e, id); }
  }

  /** A client gives up a version only by settling or abandoning it. */
  lemma ExecAccounted(s: System, e: Event, start: System)
    requires WritesAccounted(s, start)
    ensures WritesAccounted(Exec(s, e), start)
  {
    var s' := Exec(s, e);
    forall p, v: nat | Version(start, p) < v <= Version(s', p) && (p, v) !in s'.settled
      ensures Outstanding(s', p, v)
    {
      if v <= Version(s, p) {
        OutstandingKept(s, e, p, v);
      } else {
        NewVersionOutstanding(s, e, p, v);
      }
    }
  }

  lemma OutstandingKept(s: System, e: Event, p: Path, v: nat)
    requires Outstanding(s, p, v)
    ensures (p, v) in Exec(s, e).settled || Outstanding(Exec(s, e), p, v)
  {
    var s' := Exec(s, e);
    if (p, v) !in s.abandoned {
      var id: nat :| WillEvict(ClientOf(s, id), p, v);
      assert WillEvict(ClientOf(s', id), p, v) || (p, v) in s'.abandoned || (p, v) in s'.settled;
    }
  }

  lemma NewVersionOutstanding(s: System, e: Event, p: Path, v: nat)
    requires Version(s, p) < v <= Version(Exec(s, e), p)
    ensures Outstanding(Exec(s, e), p, v)
  {
    if e.Apply? { assert WillEvict(ClientOf(Exec(s, e), e.id), p, v); }
  }

  lemma {:induction false} ExecAllSound(s: System, es: seq<Event>, start: System)
    requires Coherent(s) && WritesAccounted(s, start)
    ensures Coherent(ExecAll(s, es)) && WritesAccounted(ExecAll(s, es), start)
    decreases es
  {
    if es != [] {
      ExecCoherent(s, es[0]);
      ExecAccounted(s, es[0], start);
      ExecAllSound(Exec(s, es[0]), es[1..], start);
    }
  }

  lemma SettledGrows(s: System, e: Event)
    ensures s.settled <= Exec(s, e).settled
  {
  }

  lemma {:induction false} HistoryGrows(s: System, es: seq<Event>, p: Path)
    ensures s.settled <= ExecAll(s, es).settled && Log(s, p) <= Log(ExecAll(s, es), p)
    decreases es
  {
    if es != [] {
      LogGrows(s, es[0], p);
      SettledGrows(s, es[0]);
      HistoryGrows(Exec(s, es[0]), es[1..], p);
    }
  }

  // ------------------------------------------------- results

  /** Whatever a fetch returns, its caller sees a content no older than any settled write. */
  lemma ReturnIsCurrent(s: System, e: Event)
    requires Coherent(s) && Returns(s, e).Some?
    ensures var r := Returns(s, e).value; Current(s, r.path, r.origin, r.answer)
  {
    if e.BeginFetch? {
      var p := e.path;
      assert EntryCurrent(s, p);
    } else {
      assert ClientCurrent(s, ClientOf(s, e.id));
    }
  }

  /** A fetch of path p returns the content of version v or of a later one. */
  ghost predicate AtLeast(s: System, e: Event, p: Path, v: nat, content: Content) {
    Returns(s, e).Some? && Returns(s, e).value.path == p ==>
      var r := Returns(s, e).value;
      && v <= r.origin <= Version(s, p)
      && Agrees(r.answer, Log(s, p)[r.origin])
      && (Version(s, p) == v ==> Agrees(r.answer, content))
  }

  lemma SettledReadsAtLeast(s: System, e: Event, p: Path, v: nat, content: Content)
    requires Coherent(s) && (p, v) in s.settled && v <= Version(s, p) && Log(s, p)[v] == content
    ensures AtLeast(s, e, p, v, content)
  {
    if Returns(s, e).Some? { ReturnIsCurrent(s, e); }
  }

  lemma EvictionSettles(s: System, id: nat)
    requires Coherent(s) && ClientOf(s, id).Evicting? && s.holder.None?
    ensures var c := ClientOf(s, id); var w := Exec(s, EvictAfterWrite(id));
            (c.path, c.version) in w.settled && c.version <= Version(w, c.path) &&
            Log(w, c.path)[c.version] == c.content
  {
    assert VersionReached(s, ClientOf(s, id));
  }

  /**
   Read-after-write.  A put or delete of a path settles version v when it returns
   Ok.  In every continuation of every run, a fetch of that path returns what the
   path held at v, or at a version written after v; while v is the newest version it
   returns exactly what the writer wrote, so never an older body nor a cached 404
   for a resource that v made present.
   */
  lemma ReadAfterWrite(logs: map<Path, seq<Content>>, before: seq<Event>, id: nat, after: seq<Event>, e: Event)
    requires var s := ExecAll(Boot(logs), before); ClientOf(s, id).Evicting? && s.holder.None?
    ensures var s := ExecAll(Boot(logs), before);
            var c := ClientOf(s, id);
            AtLeast(ExecAll(Exec(s, EvictAfterWrite(id)), after), e, c.path, c.version, c.content)
  {
    var start := Boot(logs);
    ExecAllSound(start, before, start);
    var s := ExecAll(start, before);
    var c := ClientOf(s, id);
    EvictionSettles(s, id);
    ExecCoherent(s, EvictAfterWrite(id));
    ExecAccounted(s, EvictAfterWrite(id), start);
    var w := Exec(s, EvictAfterWrite(id));
    ExecAllSound(w, after, start);
    HistoryGrows(w, after, c.path);
    SettledReadsAtLeast(ExecAll(w, after), e, c.path, c.version, c.content);
  }

  /**
   Staleness has a cause.  A cached entry, or an answer in flight, that is not from
   the newest version of its path exists only while the newest write has been
   applied and its writer has not evicted: it is still on its way to, or it was lost
   (dropped, its reply lost, or a foreign writer) and never will.
   */
  lemma StaleOnlyWhileWriteOutstanding(logs: map<Path, seq<Content>>, es: seq<Event>, p: Path, origin: nat)
    requires var s := ExecAll(Boot(logs), es);
             || (p in s.cache && p in s.origins && s.origins[p] == origin)
             || exists id: nat :: ClientOf(s, id).FetchAnswered? && ClientOf(s, id).path == p && ClientOf(s, id).origin == origin
    ensures var s := ExecAll(Boot(logs), es);
            origin < Version(s, p) ==> (p, Version(s, p)) !in s.settled && Outstanding(s, p, Version(s, p))
  {
    var start := Boot(logs);
    ExecAllSound(start, es, start);
    HistoryGrows(start, es, p);
    var s := ExecAll(start, es);
    assert Version(start, p) == 0 || (p, Version(start, p)) in s.settled;
    assert EntryCurrent(s, p) && InFlightCurrent(s);
    assert exists a :: Current(s, p, origin, a) by {
      if !(p in s.cache && p in s.origins && s.origins[p] == origin) {
        var id: nat :| ClientOf(s, id).FetchAnswered? && ClientOf(s, id).path == p && ClientOf(s, id).origin == origin;
        assert ClientCurrent(s, ClientOf(s, id));
      }
    }
  }
  // ------------------------------------------------- the class and the events

  /**
   fetch_kbs_resource on the cache object: lookup, and on a miss the upstream answer is
   stored.  `answer` is what upstream would say, `later` when it has been read.
   */
  method FetchKbsResource(cache: ResourceCache, p: Path, now: int, answer: Answer, later: int, ttl: int, failureTtl: int)
    returns (a: Answer)
    modifies cache
    ensures var (looked, hit) := Looked(old(cache.entries), p, now);
            if hit.Miss? then a == answer && cache.entries == Stored(looked, p, answer, later, ttl, failureTtl)
            else a == AnswerOf(hit) && cache.entries == looked
  {
    var hit := cache.CachedResourceEntry(p, now);
    if !hit.Miss? { return AnswerOf(hit); }
    if answer.Found? {
      cache.StoreResourceSuccess(p, answer.body, "application/octet-stream", later, ttl);
    } else {
      cache.StoreResourceError(p, PayloadOf(answer), later, failureTtl);
    }
    return answer;
  }

  /** Undisturbed, the three fetch events do to the cache and return what that method does. */
  lemma FetchIsThreeEvents(
    s: System, id: nat, p: Path, now: int, trouble: Option<Option<nat>>, later: int, ttl: int, failureTtl: int)
    requires ClientOf(s, id) == Idle && s.holder == None && Looked(s.cache, p, now).1.Miss?
    ensures var begun := Exec(s, BeginFetch(id, p, now));
            var served := Exec(begun, Serve(id, trouble));
            var finish := FinishFetch(id, later, ttl, failureTtl);
            var answer := Honest(s, p, trouble);
            && Exec(served, finish).cache == Stored(Looked(s.cache, p, now).0, p, answer, later, ttl, failureTtl)
            && Returns(served, finish) == Some(Return(p, answer, Version(s, p)))
            && Exec(served, finish).holder == None && Exec(served, finish).logs == s.logs
  {
  }

  /** A new cache asked twice: while the first answer lives, the second is the same whatever upstream says. */
  method FetchTwice(p: Path, first: Answer, at: int, second: Answer, now: int, later: int, ttl: int, failureTtl: int)
    returns (a: Answer, b: Answer)
    ensures a == first
    ensures first.Found? && first.body != [] && now < at + ttl && 0 < ttl ==> b == first
    ensures first.Missing? && now < at + failureTtl && 0 < failureTtl ==> b == Missing
  {
    var cache := new ResourceCache();
    a := FetchKbsResource(cache, p, at, first, at, ttl, failureTtl);
    b := FetchKbsResource(cache, p, now, second, later, ttl, failureTtl);
  }
}
