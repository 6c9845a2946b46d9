/**
 The owner-seed handlers in small steps: every read of a resource, every request to
 the store, every eviction and every request to init is one step, any number of
 handlers interleave, and any of them may be dropped between two steps.  Rate limits,
 the ownership machine and an init that is already ready only forbid steps and are
 left out.  A claim is here up
 to the look that decides whether it may go on.
 */
module InterleavedHandlers {
  import opened Wrappers
  import opened SeedStore
  import W = WorkloadRequests
  import C = SeedConservation

  type Seed = C.Seed
  type Key = C.Key
  type Envelope = C.Envelope
  type Seeds = C.Seeds

  datatype Job =
    | ClaimSeed(key: Key, seed: Seed)
    | ChangePassword(oldKey: Key, key: Key)
    | Recover(seed: Seed, key: Key)
    | DisableAutoUnlock(key: Key)
    | Unlock(key: Key)

  /** Which load this is: the first, the one of the refresh in between, the second, or that of a refresh up front. */
  datatype Load = FirstLoad | RefreshLoad | SecondLoad | UpFrontLoad

  datatype Stage =
    | Evicting(path: Path, load: Load)
    | Reading(load: Load)
    | ReadingSealed(load: Load, encrypted: Option<Envelope>)
    | Deciding(load: Load, material: Material<Envelope>)
    | Asking
    | Updating(update: Update<Envelope>)
    | UpdatingSealed(update: Update<Envelope>, encrypted: Option<Envelope>)
    | Applying(update: Update<Envelope>, previous: Material<Envelope>)
    | Sending(path: Path, request: W.Request<Envelope>, replies: seq<W.Reply>)
    | Settling(path: Path)
    | HandingOver(seed: Seed)
    | Over

  datatype Process = Process(job: Job, stage: Stage)

  datatype World = World(store: Seeds, volume: Option<Seed>, procs: map<nat, Process>)

  /** What the world does to one step; `passed` stands for every check that touches neither store nor volume. */
  datatype Choice = Choice(read: ReadNet, fate: W.Fate, init: C.InitNet, passed: bool)

  datatype Event =
    | Begin(id: nat, job: Job, refreshFirst: bool)
    | Move(id: nat, choice: Choice)
    | Drop(id: nat)
    | Restart

  function FirstStage(job: Job, refreshFirst: bool): Stage {
    if job.ClaimSeed? || (job.Unlock? && refreshFirst) then Evicting(Encrypted, UpFrontLoad) else Reading(FirstLoad)
  }

  /** What a handler does with the pair it has loaded. */
  function Decided(job: Job, load: Load, m: Material<Envelope>, passed: bool): Stage {
    if job.ClaimSeed? then
      if m.encrypted.None? && m.sealed.None? && passed then Updating(Set(C.Wrapped(job.key, job.seed))) else Over
    else if load.UpFrontLoad? then Reading(FirstLoad)
    else if load.FirstLoad? && m.encrypted.None? then Evicting(Encrypted, RefreshLoad)
    else if load.RefreshLoad? then Reading(SecondLoad)
    else if job.Recover? then (if passed then Asking else Over)
    else if m.encrypted.None? || !passed then Over
    else Unwrapped(job, m.encrypted.value)
  }

  function Unwrapped(job: Job, e: Envelope): Stage
    requires !job.ClaimSeed? && !job.Recover?
  {
    var seed := C.Opened(e, if job.ChangePassword? then job.oldKey else job.key);
    if seed.None? then Over
    else match job
      case ChangePassword(_, key) => Updating(Set(C.Wrapped(key, seed.value)))
      case DisableAutoUnlock(_) => Updating(Remove)
      case Unlock(_) => HandingOver(seed.value)
  }

  /** The one request of these updates: the password envelope is set, or the seal is removed. */
  function Chosen(u: Update<Envelope>, previous: Material<Envelope>): Stage {
    match u
    case Keep => Over
    case Set(_) => Sending(Encrypted, RequestFor(u, previous.encrypted).value, [])
    case Remove =>
      (match RequestFor(u, previous.sealed) case None => Over case Some(r) => Sending(Sealed, r, []))
  }

  function Answered(path: Path, r: W.Request<Envelope>, replies: seq<W.Reply>, x: W.Reply): Stage {
    if W.Retried(replies, x) then Sending(path, r, replies + [x])
    else if W.Concluded(r, x).Applied? || (r.Delete? && W.Concluded(r, x).NotFound?) then Settling(path)
    else Over
  }

  function Advanced(s: Seeds, v: Option<Seed>, job: Job, stage: Stage, ch: Choice): (Seeds, Option<Seed>, Stage) {
    match stage
    case Evicting(p, load) => (Evicted(s, p), v, if p == Encrypted then Evicting(Sealed, load) else Reading(load))
    case Reading(load) =>
      var (t, r) := Read(s, Encrypted, ch.read);
      (t, v, if r.None? then Over else ReadingSealed(load, r.value))
    case ReadingSealed(load, encrypted) =>
      var (t, r) := Read(s, Sealed, ch.read);
      (t, v, if r.None? then Over else Deciding(load, Material(encrypted, r.value)))
    case Deciding(load, m) => (s, v, Decided(job, load, m, ch.passed))
    case Asking =>
      if !job.Recover? then (s, v, Over) else
      var (volume, ok) := C.Requested(v, job.seed, ch.init);
      (s, volume, if ok && ch.init.becomesReady then Updating(Set(C.Wrapped(job.key, job.seed))) else Over)
    case Updating(u) =>
      var (t, r) := Read(s, Encrypted, ch.read);
      (t, v, if r.None? then Over else UpdatingSealed(u, r.value))
    case UpdatingSealed(u, encrypted) =>
      var (t, r) := Read(s, Sealed, ch.read);
      (t, v, if r.None? then Over else Applying(u, Material(encrypted, r.value)))
    case Applying(u, previous) => (s, v, Chosen(u, previous))
    case Sending(p, r, replies) =>
      var (content, x) := W.Handled(Content(s, p), r, ch.fate);
      (Written(s, p, content), v, Answered(p, r, replies, x))
    case Settling(p) => (Evicted(s, p), v, Over)
    case HandingOver(seed) => (s, C.HandedOver(v, seed, ch.init).0, Over)
    case Over => (s, v, Over)
  }

  function Exec(w: World, e: Event): World {
    match e
    case Begin(id, job, refreshFirst) =>
      if id in w.procs then w else w.(procs := w.procs[id := Process(job, FirstStage(job, refreshFirst))])
    case Move(id, ch) =>
      if id !in w.procs then w else
      var p := w.procs[id];
      var (s, v, stage) := Advanced(w.store, w.volume, p.job, p.stage, ch);
      World(s, v, w.procs[id := p.(stage := stage)])
    case Drop(id) => w.(procs := w.procs - {id})
    case Restart => World(w.store.(cache := map[]), w.volume, map[])
  }

  function ExecAll(w: World, es: seq<Event>): World
    decreases es
  {
    if es == [] then w else ExecAll(Exec(w, es[0]), es[1..])
  }
}

/** Conservation over every interleaving of these steps. */
module InterleavedConservation {
  import opened Wrappers
  import opened SeedStore
  import opened InterleavedHandlers
  import W = WorkloadRequests
  import C = SeedConservation
  import P = SeedConservationProofs
  import O = OwnershipSpec
  import SeedUpdates

  // ---------------------------------------------------------------- the invariant

  ghost predicate Own(e: Option<Envelope>, own: iset<Seed>) { e.Some? ==> e.value.seed in own }

  /** Every envelope a handler holds or is about to write has a seed in `own`, and no handler knows of a seal. */
  ghost predicate OwnStage(stage: Stage, own: iset<Seed>) {
    match stage
    case ReadingSealed(_, encrypted) => Own(encrypted, own)
    case Deciding(_, m) => Own(m.encrypted, own) && m.sealed == None
    case Updating(u) => u.Set? ==> u.value.seed in own
    case UpdatingSealed(u, encrypted) => (u.Set? ==> u.value.seed in own) && Own(encrypted, own)
    case Applying(u, m) => (u.Set? ==> u.value.seed in own) && m.sealed == None
    case Sending(p, r, _) => p == Encrypted && !r.Delete? && r.value.seed in own
    case HandingOver(seed) => seed in own
    case _ => true
  }

  /** Nothing cached says that the encrypted resource is absent. */
  ghost predicate NoStaleAbsence(s: Seeds) { Encrypted in s.cache ==> !s.cache[Encrypted].Missing? }

  /** A claim that has not looked yet, or has seen the envelope. */
  ghost predicate ClaimStops(stage: Stage, s: Seeds) {
    match stage
    case Evicting(p, _) => p == Sealed ==> NoStaleAbsence(s)
    case Reading(_) => NoStaleAbsence(s)
    case ReadingSealed(_, encrypted) => encrypted.Some?
    case Deciding(_, m) => m.encrypted.Some?
    case _ => stage.Over?
  }

  ghost predicate Harmless(p: Process, s: Seeds, own: iset<Seed>) {
    OwnStage(p.stage, own) && (p.job.ClaimSeed? ==> ClaimStops(p.stage, s))
  }

  ghost predicate OwnStore(s: Seeds, v: Option<Seed>, own: iset<Seed>) {
    P.Conserved(s, own) && P.OwnCache(s, own) && P.Anchors(v, own)
  }

  ghost predicate Safe(w: World, own: iset<Seed>) {
    && OwnStore(w.store, w.volume, own)
    && forall id :: id in w.procs ==> Harmless(w.procs[id], w.store, own)
  }

  // ---------------------------------------------------------------- one step

  lemma ReadIsFresh(s: Seeds, p: Path, n: ReadNet)
    requires Content(s, Encrypted).Some?
    ensures NoStaleAbsence(s) ==> NoStaleAbsence(Read(s, p, n).0)
    ensures NoStaleAbsence(s) && p == Encrypted && Read(s, p, n).1.Some? ==> Read(s, p, n).1.value.Some?
  {
  }

  /** What a step may do to the store, for everybody else. */
  ghost predicate Gentle(s: Seeds, t: Seeds, own: iset<Seed>) {
    P.Conserved(t, own) && P.OwnCache(t, own) && (NoStaleAbsence(s) ==> NoStaleAbsence(t))
  }

  lemma ReadIsGentle(s: Seeds, p: Path, n: ReadNet, own: iset<Seed>)
    requires P.Conserved(s, own) && P.OwnCache(s, own)
    ensures Gentle(s, Read(s, p, n).0, own)
    ensures var r := Read(s, p, n).1; r.Some? ==> Own(r.value, own) && (p == Sealed ==> r.value == None)
  {
    P.ReadKeeps(s, p, n, own);
    ReadIsFresh(s, p, n);
  }

  lemma RequestIsGentle(s: Seeds, r: W.Request<Envelope>, f: W.Fate, own: iset<Seed>)
    requires P.Conserved(s, own) && P.OwnCache(s, own) && !r.Delete? && r.value.seed in own
    ensures Gentle(s, Written(s, Encrypted, W.Handled(Content(s, Encrypted), r, f).0), own)
  {
    W.OneAttempt(Content(s, Encrypted), r, f);
    SeedUpdates.WrittenContent(s, Encrypted, W.Handled(Content(s, Encrypted), r, f).0);
  }

  ghost predicate StepIsSafe(s: Seeds, job: Job, r: (Seeds, Option<Seed>, Stage), own: iset<Seed>) {
    Gentle(s, r.0, own) && P.Anchors(r.1, own) && Harmless(Process(job, r.2), r.0, own)
  }

  lemma LoadStep(s: Seeds, v: Option<Seed>, p: Process, ch: Choice, own: iset<Seed>)
    requires OwnStore(s, v, own) && Harmless(p, s, own)
    requires p.stage.Evicting? || p.stage.Reading? || p.stage.ReadingSealed?
    ensures StepIsSafe(s, p.job, Advanced(s, v, p.job, p.stage, ch), own)
  {
    if p.stage.Reading? {
      ReadIsGentle(s, Encrypted, ch.read, own);
      ReadIsFresh(s, Encrypted, ch.read);
    } else if p.stage.ReadingSealed? {
      ReadIsGentle(s, Sealed, ch.read, own);
    }
  }

  lemma UpdateStep(s: Seeds, v: Option<Seed>, p: Process, ch: Choice, own: iset<Seed>)
    requires OwnStore(s, v, own) && Harmless(p, s, own)
    requires p.stage.Updating? || p.stage.UpdatingSealed? || p.stage.Applying?
    ensures StepIsSafe(s, p.job, Advanced(s, v, p.job, p.stage, ch), own)
  {
    if p.stage.Updating? {
      ReadIsGentle(s, Encrypted, ch.read, own);
    } else if p.stage.UpdatingSealed? {
      ReadIsGentle(s, Sealed, ch.read, own);
    }
  }

  lemma SendStep(s: Seeds, v: Option<Seed>, p: Process, ch: Choice, own: iset<Seed>)
    requires OwnStore(s, v, own) && Harmless(p, s, own) && (p.stage.Sending? || p.stage.Settling?)
    ensures StepIsSafe(s, p.job, Advanced(s, v, p.job, p.stage, ch), own)
  {
    if p.stage.Sending? { RequestIsGentle(s, p.stage.request, ch.fate, own); }
  }

  lemma DecideStep(s: Seeds, v: Option<Seed>, p: Process, ch: Choice, own: iset<Seed>)
    requires OwnStore(s, v, own) && Harmless(p, s, own) && p.stage.Deciding?
    ensures StepIsSafe(s, p.job, Advanced(s, v, p.job, p.stage, ch), own)
  {
  }

  lemma InitStep(s: Seeds, v: Option<Seed>, p: Process, ch: Choice, own: iset<Seed>)
    requires OwnStore(s, v, own) && Harmless(p, s, own) && (p.stage.Asking? || p.stage.HandingOver? || p.stage.Over?)
    ensures StepIsSafe(s, p.job, Advanced(s, v, p.job, p.stage, ch), own)
  {
  }

  lemma AnyStep(s: Seeds, v: Option<Seed>, p: Process, ch: Choice, own: iset<Seed>)
    requires OwnStore(s, v, own) && Harmless(p, s, own)
    ensures StepIsSafe(s, p.job, Advanced(s, v, p.job, p.stage, ch), own)
  {
    if p.stage.Evicting? || p.stage.Reading? || p.stage.ReadingSealed? {
      LoadStep(s, v, p, ch, own);
    } else if p.stage.Updating? || p.stage.UpdatingSealed? || p.stage.Applying? {
      UpdateStep(s, v, p, ch, own);
    } else if p.stage.Sending? || p.stage.Settling? {
      SendStep(s, v, p, ch, own);
    } else if p.stage.Deciding? {
      DecideStep(s, v, p, ch, own);
    } else {
      InitStep(s, v, p, ch, own);
    }
  }

  /** A gentle step leaves every other handler harmless. */
  lemma OthersStayHarmless(q: Process, s: Seeds, t: Seeds, own: iset<Seed>)
    requires Harmless(q, s, own) && Gentle(s, t, own)
    ensures Harmless(q, t, own)
  {
  }

  lemma EventIsSafe(w: World, e: Event, own: iset<Seed>)
    requires Safe(w, own)
    ensures Safe(Exec(w, e), own)
  {
    match e
    case Begin(id, job, refreshFirst) =>
    case Move(id, ch) =>
      if id in w.procs {
        var p := w.procs[id];
        AnyStep(w.store, w.volume, p, ch, own);
        var w' := Exec(w, e);
        forall q | q in w'.procs ensures Harmless(w'.procs[q], w'.store, own) {
          if q != id { OthersStayHarmless(w.procs[q], w.store, w'.store, own); }
        }
      }
    case Drop(id) =>
    case Restart =>
  }

  /** Over every interleaving, from any world whose handlers are harmless. */
  lemma {:induction false} RunIsSafe(w: World, es: seq<Event>, own: iset<Seed>)
    requires Safe(w, own)
    ensures Safe(ExecAll(w, es), own)
    decreases es
  {
    if es != [] {
      EventIsSafe(w, es[0], own);
      RunIsSafe(Exec(w, es[0]), es[1..], own);
    }
  }

  // ---------------------------------------------------------------- results

  /**
   After a claim that anchored its volume: whatever change-password, recover, disable,
   unlock and claim requests do from then on, step by step and in any interleaving,
   the stored envelope opens to the claimed seed and there is no other.
   */
  lemma SeedIsConservedInterleaved(mode: O.Mode, before: C.World, claim: C.Handler, es: seq<Event>)
    requires mode.UsesOwnerSeed() && claim.Claim?
    requires C.Exec(mode, before, claim).store.upstream != before.store.upstream
    requires P.FormatsItsVolume(mode, before, claim)
    ensures var c := C.Exec(mode, before, claim);
            P.Conserved(ExecAll(World(c.store, c.volume, map[]), es).store, iset{claim.seed})
  {
    P.SeedIsConserved(mode, before, claim, []);
    var c := C.Exec(mode, before, claim);
    assert C.ExecAll(mode, c, []) == c;
    RunIsSafe(World(c.store, c.volume, map[]), es, iset{claim.seed});
  }

  const READS := ReadNet(true, None, true, true)
  const GO := Choice(READS, W.Served(true), C.InitNet(false, true, true, true, true, true), true)

  /**
   The one excluded case: a claim that has decided on a vacant store and goes on after
   another claim has stored its envelope.  Four steps later the envelope is its own.
   */
  lemma LateClaimOverwrites(s: Seeds, v: Option<Seed>, job: Job)
    requires job.ClaimSeed? && Content(s, Encrypted).Some? && Content(s, Sealed) == None
    ensures var w := World(s, v, map[0 := Process(job, Updating(Set(C.Wrapped(job.key, job.seed))))]);
            var go := Move(0, GO);
            Content(ExecAll(w, [go, go, go, go]).store, Encrypted) == Some(C.Wrapped(job.key, job.seed))
  {
    var e := C.Wrapped(job.key, job.seed);
    var w := World(s, v, map[0 := Process(job, Updating(Set(e)))]);
    var go := Move(0, GO);
    var w1 := Exec(w, go);
    var w2 := Exec(w1, go);
    var w3 := Exec(w2, go);
    var w4 := Exec(w3, go);
    assert w1.store.upstream == s.upstream && w1.procs[0].stage == UpdatingSealed(Set(e), Content(s, Encrypted));
    assert w2.store.upstream == s.upstream && w2.procs[0].stage == Applying(Set(e), Held(s));
    assert w3.store.upstream == s.upstream && w3.procs[0].stage == Sending(Encrypted, W.Replace(e), []);
    SeedUpdates.WrittenContent(w3.store, Encrypted, Some(e));
    FourSteps(w, go);
  }

  lemma FourSteps(w: World, e: Event)
    ensures ExecAll(w, [e, e, e, e]) == Exec(Exec(Exec(Exec(w, e), e), e), e)
  {
    assert [e, e, e, e][1..] == [e, e, e] && [e, e, e][1..] == [e, e] && [e, e][1..] == [e] && [e][1..] == [];
    var w3 := Exec(Exec(Exec(w, e), e), e);
    assert ExecAll(Exec(w3, e), []) == Exec(w3, e);
    assert ExecAll(w3, [e]) == Exec(w3, e);
    assert ExecAll(Exec(Exec(w, e), e), [e, e]) == ExecAll(w3, [e]);
    assert ExecAll(Exec(w, e), [e, e, e]) == ExecAll(Exec(Exec(w, e), e), [e, e]);
  }
}
