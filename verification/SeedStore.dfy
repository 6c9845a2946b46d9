/**
 The owner-seed store: two KBS resources behind the resource cache, read as a
 pair, updated one after the other with a rollback, and erased by teardown.
 One operation at a time; interleavings of single reads and writes are the
 subject of module CacheCoherence.  Configured resource paths carry no
 surrounding white space, so reads and writes agree on the cache key.
 */
module SeedStore {
  import opened Wrappers
  import opened WorkloadRequests

  datatype Path = Encrypted | Sealed

  /** A cached body, a cached 404, or any other cached read error. */
  datatype Entry<+V> = Body(value: V) | Missing | Trouble(status: Option<nat>)

  datatype Store<V> = Store(upstream: map<Path, V>, cache: map<Path, Entry<V>>)

  function Content<V>(s: Store<V>, p: Path): Option<V> {
    if p in s.upstream then Some(s.upstream[p]) else None
  }

  function Written<V>(s: Store<V>, p: Path, content: Option<V>): Store<V> {
    s.(upstream := if content.Some? then s.upstream[p := content.value] else s.upstream - {p})
  }

  function Evicted<V>(s: Store<V>, p: Path): Store<V> { s.(cache := s.cache - {p}) }

  ghost predicate CurrentEntry<V>(content: Option<V>, e: Entry<V>) {
    match e
    case Body(v) => content == Some(v)
    case Missing => content == None
    case Trouble(_) => true
  }

  /** Everything cached about a resource's content is still so. */
  ghost predicate Coherent<V>(s: Store<V>) {
    forall p :: p in s.cache ==> CurrentEntry(Content(s, p), s.cache[p])
  }

  // ---------------------------------------------------------------- reads

  /** What happens to one read: the entry expires first, the GET fails, the answer is kept, the 500 probe answers. */
  datatype ReadNet = ReadNet(expired: bool, trouble: Option<Option<nat>>, kept: bool, probed: bool)

  function Got<V>(content: Option<V>, trouble: Option<Option<nat>>): Entry<V> {
    if trouble.Some? && trouble.value != Some(200) && trouble.value != Some(404) then Trouble(trouble.value)
    else match content
      case Some(v) => Body(v)
      case None => Missing
  }

  /** fetch_kbs_resource: the cache, or a GET whose answer is cached. */
  function Fetched<V>(s: Store<V>, p: Path, n: ReadNet): (Store<V>, Entry<V>) {
    var looked := if n.expired then Evicted(s, p) else s;
    if p in looked.cache then (looked, looked.cache[p]) else
    var entry := Got(Content(s, p), n.trouble);
    (if n.kept then looked.(cache := looked.cache[p := entry]) else looked, entry)
  }

  /** A 404 is absence; a 500 is absence when the direct probe says 404; anything else is unknown. */
  function Classified<V>(content: Option<V>, e: Entry<V>, probed: bool): Option<Option<V>> {
    match e
    case Body(v) => Some(Some(v))
    case Missing => Some(None)
    case Trouble(status) => if status == Some(500) && probed && content.None? then Some(None) else None
  }

  function Read<V>(s: Store<V>, p: Path, n: ReadNet): (Store<V>, Option<Option<V>>) {
    var (t, e) := Fetched(s, p, n);
    (t, Classified(Content(s, p), e, n.probed))
  }

  datatype Material<+V> = Material(encrypted: Option<V>, sealed: Option<V>)

  function Held<V>(s: Store<V>): Material<V> { Material(Content(s, Encrypted), Content(s, Sealed)) }

  datatype PairNet = PairNet(encrypted: ReadNet, sealed: ReadNet)

  /** load_owner_seed_material; None when the owner seed is unavailable. */
  function Loaded<V>(s: Store<V>, n: PairNet): (Store<V>, Option<Material<V>>) {
    var (t, encrypted) := Read(s, Encrypted, n.encrypted);
    if encrypted.None? then (t, None) else
    var (u, sealed) := Read(t, Sealed, n.sealed);
    (u, if sealed.None? then None else Some(Material(encrypted.value, sealed.value)))
  }

  // ---------------------------------------------------------------- writes

  /** Whether the receipt could be signed and attested, and what becomes of each attempt. */
  datatype WriteNet = WriteNet(prepared: bool, fates: seq<Fate>)

  /** put_kbs_workload_resource and delete_kbs_workload_resource: upstream first, then evict. */
  function Wrote<V>(s: Store<V>, p: Path, r: Request<V>, n: WriteNet): (Store<V>, bool) {
    if !n.prepared then (s, false) else
    var e := Exchanged(Content(s, p), r, n.fates, []);
    var done := e.outcome.Applied? || (r.Delete? && e.outcome.NotFound?);
    var t := Written(s, p, e.content);
    (if done then Evicted(t, p) else t, done)
  }

  datatype Update<+V> = Keep | Remove | Set(value: V)

  /** The request an update needs, if any. */
  function RequestFor<V>(u: Update<V>, previous: Option<V>): Option<Request<V>> {
    match u
    case Keep => None
    case Remove => if previous.None? then None else Some(Delete)
    case Set(v) => Some(if previous.Some? then Replace(v) else Create(v))
  }

  function Changed<V>(s: Store<V>, p: Path, u: Update<V>, previous: Option<V>, n: WriteNet): (Store<V>, bool) {
    match RequestFor(u, previous)
    case None => (s, true)
    case Some(r) => Wrote(s, p, r, n)
  }

  function RestoreRequest<V>(previous: Option<V>): Request<V> {
    if previous.Some? then Replace(previous.value) else Delete
  }

  datatype UpdateNet = UpdateNet(load: PairNet, encrypted: WriteNet, sealed: WriteNet, rollback: WriteNet)

  datatype Verdict = Stored | NotLoaded | NotStored | RollbackFailed

  /** The sealed half and, if it fails after a change, the rollback. */
  function Finished<V>(s: Store<V>, changed: bool, sealed: Update<V>, previous: Material<V>, n: UpdateNet)
    : (Store<V>, Verdict)
  {
    var (t, ok) := Changed(s, Sealed, sealed, previous.sealed, n.sealed);
    if ok then (t, Stored)
    else if !changed then (t, NotStored)
    else
      var (u, restored) := Wrote(t, Encrypted, RestoreRequest(previous.encrypted), n.rollback);
      (u, if restored then NotStored else RollbackFailed)
  }

  /** update_owner_seed_material for the kbs-resource backend. */
  function Updated<V>(s: Store<V>, encrypted: Update<V>, sealed: Update<V>, n: UpdateNet): (Store<V>, Verdict) {
    var (t, previous) := Loaded(s, n.load);
    if previous.None? then (t, NotLoaded) else
    var (u, ok) := Changed(t, Encrypted, encrypted, previous.value.encrypted, n.encrypted);
    if !ok then (u, NotStored)
    else Finished(u, RequestFor(encrypted, previous.value.encrypted).Some?, sealed, previous.value, n)
  }

  /** teardown: both deletions are tried; complete when neither failed. */
  function TornDown<V>(s: Store<V>, encrypted: WriteNet, sealed: WriteNet): (Store<V>, bool) {
    var (t, first) := Wrote(s, Encrypted, Delete, encrypted);
    var (u, second) := Wrote(t, Sealed, Delete, sealed);
    (u, first && second)
  }

  // ---------------------------------------------------------------- the simple form

  function After<V>(u: Update<V>, content: Option<V>): Option<V> {
    match u
    case Keep => content
    case Remove => None
    case Set(v) => Some(v)
  }

  /** The same update in one step, as the single-Secret backend does it. */
  function PairUpdate<V>(m: Material<V>, encrypted: Update<V>, sealed: Update<V>): Material<V> {
    Material(After(encrypted, m.encrypted), After(sealed, m.sealed))
  }
}
