/**
 From a claim until a teardown, every envelope anyone can read opens to the seed
 of that claim, over every run of handlers and every behaviour of the upstream
 store, including writes that took effect although they were reported as failed.
 */
module SeedConservationProofs {
  import opened Wrappers
  import opened OwnershipSpec
  import opened SeedStore
  import opened SeedConservation
  import SeedUpdates
  import W = WorkloadRequests

  // ---------------------------------------------------------------- the invariant

  /** A cached answer that shows no seed outside `own`, and no seal at all. */
  ghost predicate OwnEntry(p: Path, e: Entry<Envelope>, own: iset<Seed>) {
    e.Body? ==> p == Encrypted && e.value.seed in own
  }

  ghost predicate OwnCache(s: Seeds, own: iset<Seed>) {
    forall p :: p in s.cache ==> OwnEntry(p, s.cache[p], own)
  }

  /** The password envelope is stored and opens to a seed in `own`; there is no other. */
  ghost predicate Conserved(s: Seeds, own: iset<Seed>) {
    && Content(s, Encrypted).Some? && Content(s, Encrypted).value.seed in own
    && Content(s, Sealed) == None
  }

  /** Init admits no seed outside `own`. */
  ghost predicate Anchors(volume: Option<Seed>, own: iset<Seed>) {
    forall seed :: Admits(volume, seed) ==> seed in own
  }

  ghost predicate Reigns(w: World, own: iset<Seed>) {
    Conserved(w.store, own) && OwnCache(w.store, own) && Anchors(w.volume, own)
  }

  // ---------------------------------------------------------------- reads

  lemma ReadKeeps(s: Seeds, p: Path, n: ReadNet, own: iset<Seed>)
    requires Conserved(s, own) && OwnCache(s, own)
    ensures Read(s, p, n).0.upstream == s.upstream && OwnCache(Read(s, p, n).0, own)
    ensures var r := Read(s, p, n).1;
            r.Some? && r.value.Some? ==> p == Encrypted && r.value.value.seed in own
  {
    SeedUpdates.PathsAreTwo(p);
  }

  ghost predicate OwnMaterial(m: Option<Material<Envelope>>, own: iset<Seed>) {
    m.Some? ==> m.value.sealed == None && (m.value.encrypted.Some? ==> m.value.encrypted.value.seed in own)
  }

  lemma UnwrapsToOwn(m: Option<Material<Envelope>>, k: Key, own: iset<Seed>)
    requires OwnMaterial(m, own)
    ensures Unwrapped(m, k).Some? ==> Unwrapped(m, k).value in own
  {
  }

  lemma LoadKeeps(s: Seeds, n: PairNet, own: iset<Seed>)
    requires Conserved(s, own) && OwnCache(s, own)
    ensures Conserved(Loaded(s, n).0, own) && OwnCache(Loaded(s, n).0, own)
    ensures OwnMaterial(Loaded(s, n).1, own)
  {
    ReadKeeps(s, Encrypted, n.encrypted, own);
    ReadKeeps(Read(s, Encrypted, n.encrypted).0, Sealed, n.sealed, own);
  }

  lemma RefreshKeeps(mode: Mode, w: World, force: bool, n: PairNet, own: iset<Seed>)
    requires Reigns(w, own)
    ensures Reigns(Refreshed(mode, w, force, n).0, own)
  {
    if mode.UsesOwnerSeed() {
      var s := if force then Evicted(Evicted(w.store, Encrypted), Sealed) else w.store;
      assert Conserved(s, own) && OwnCache(s, own);
      LoadKeeps(s, n, own);
    }
  }

  lemma RevalidateKeeps(mode: Mode, w: World, n: RevalidateNet, own: iset<Seed>)
    requires Reigns(w, own)
    ensures Reigns(Revalidated(mode, w, n).0, own)
    ensures OwnMaterial(Revalidated(mode, w, n).1, own)
  {
    LoadKeeps(w.store, n.first, own);
    var loaded := w.(store := Loaded(w.store, n.first).0);
    RefreshKeeps(mode, loaded, true, n.refresh, own);
    LoadKeeps(Refreshed(mode, loaded, true, n.refresh).0.store, n.second, own);
  }

  lemma BegunKeeps(mode: Mode, w: World, now: int, n: RevalidateNet, own: iset<Seed>)
    requires Reigns(w, own)
    ensures Reigns(Begun(mode, w, now, n).0, own)
    ensures OwnMaterial(Begun(mode, w, now, n).1, own)
  {
    RevalidateKeeps(mode, Guard(mode, w, BeginSecretOperation(now)), n, own);
  }

  // ---------------------------------------------------------------- writes

  lemma RewrapKeepsOne(s: Seeds, r: W.Request<Envelope>, n: WriteNet, own: iset<Seed>)
    requires Conserved(s, own) && OwnCache(s, own)
    requires !r.Delete? && r.value.seed in own
    ensures Conserved(Wrote(s, Encrypted, r, n).0, own) && OwnCache(Wrote(s, Encrypted, r, n).0, own)
  {
    if Wrote(s, Encrypted, r, n).1 { SeedUpdates.WroteTrue(s, Encrypted, r, n); }
    else { SeedUpdates.WroteFalse(s, Encrypted, r, n); }
    SeedUpdates.WrittenContent(s, Encrypted, r.Wanted());
  }

  lemma RewrapKeeps(s: Seeds, e: Envelope, n: UpdateNet, own: iset<Seed>)
    requires Conserved(s, own) && OwnCache(s, own) && e.seed in own
    ensures var t := Updated(s, Set(e), Keep, n).0; Conserved(t, own) && OwnCache(t, own)
  {
    LoadKeeps(s, n.load, own);
    var (t, previous) := Loaded(s, n.load);
    if previous.Some? {
      var request := RequestFor(Set(e), previous.value.encrypted).value;
      RewrapKeepsOne(t, request, n.encrypted, own);
    }
  }

  lemma UnsealKeeps(s: Seeds, n: UpdateNet, own: iset<Seed>)
    requires Conserved(s, own) && OwnCache(s, own)
    ensures var t := Updated(s, Keep, Remove, n).0; Conserved(t, own) && OwnCache(t, own)
  {
    LoadKeeps(s, n.load, own);
  }

  // ---------------------------------------------------------------- handlers

  /** A claim on an owned instance stops before it writes: the forced refresh sees the envelope. */
  lemma OwnedIsNotClaimable(mode: Mode, w: World, n: PairNet, own: iset<Seed>)
    requires Reigns(w, own) && mode.UsesOwnerSeed()
    ensures var (r, seen) := Refreshed(mode, w, true, n); seen.Some? ==> r.m.state == Locked
  {
  }

  lemma ClaimKeeps(mode: Mode, w: World, h: Handler, own: iset<Seed>)
    requires Reigns(w, own) && mode.UsesOwnerSeed() && h.Claim?
    ensures Reigns(BootstrapClaimed(mode, w, h), own)
  {
    RefreshKeeps(mode, w, true, h.load, own);
    OwnedIsNotClaimable(mode, w, h.load, own);
  }

  lemma ChangePasswordKeeps(mode: Mode, w: World, h: Handler, own: iset<Seed>)
    requires Reigns(w, own) && h.ChangePassword?
    ensures Reigns(PasswordChanged(mode, w, h), own)
  {
    BegunKeeps(mode, w, h.now, h.revalidate, own);
    var (r, material) := Begun(mode, w, h.now, h.revalidate);
    UnwrapsToOwn(material, h.oldKey, own);
    var seed := Unwrapped(material, h.oldKey);
    if seed.Some? { RewrapKeeps(r.store, Wrapped(h.key, seed.value), h.update, own); }
  }

  lemma DisableKeeps(mode: Mode, w: World, h: Handler, own: iset<Seed>)
    requires Reigns(w, own) && h.DisableAutoUnlock?
    ensures Reigns(AutoUnlockDisabled(mode, w, h), own)
  {
    BegunKeeps(mode, w, h.now, h.revalidate, own);
    UnsealKeeps(Begun(mode, w, h.now, h.revalidate).0.store, h.update, own);
  }

  /** A recovery is verified only for a seed that init admits, and that seed is then the volume's. */
  lemma VerifierRefusesForeignSeeds(mode: Mode, w: World, seed: Seed, restore: bool, i: InitNet)
    ensures var (v, ok) := Verified(mode, w, seed, restore, i);
            && v.store == w.store
            && (v.volume == w.volume || (w.volume == None && v.volume == Some(seed)))
            && (ok ==> Admits(w.volume, seed) && v.volume == Some(seed))
  {
  }

  lemma ReplacingKeeps(mode: Mode, v: World, h: Handler, own: iset<Seed>)
    requires Reigns(v, own) && h.Recover? && h.seed in own
    ensures Reigns(EnvelopeReplaced(mode, v, h), own)
  {
    RewrapKeeps(v.store, Wrapped(h.key, h.seed), h.update, own);
  }

  lemma RecoverKeeps(mode: Mode, w: World, h: Handler, own: iset<Seed>)
    requires Reigns(w, own) && h.Recover?
    ensures Reigns(Recovered(mode, w, h), own)
  {
    BegunKeeps(mode, w, h.now, h.revalidate, own);
    var (r, material) := Begun(mode, w, h.now, h.revalidate);
    if material.Some? {
      var restore := r.m.state == Unclaimed && material.value.encrypted.None?;
      VerifierRefusesForeignSeeds(mode, r, h.seed, restore, h.init);
      var (v, verified) := Verified(mode, r, h.seed, restore, h.init);
      if verified { ReplacingKeeps(mode, v, h, own); }
    }
  }

  lemma UnlockFinishKeeps(t: World, found: Option<Seed>, h: Handler, own: iset<Seed>)
    requires Reigns(t, own) && h.Unlock? && (found.Some? ==> found.value in own)
    ensures Reigns(UnlockFinished(t, found, h), own)
  {
  }

  lemma UnlockKeeps(mode: Mode, w: World, h: Handler, own: iset<Seed>)
    requires Reigns(w, own) && h.Unlock?
    ensures Reigns(UnlockAttempted(mode, w, h), own)
  {
    if h.refresh.Some? { RefreshKeeps(mode, w, true, h.refresh.value, own); }
    UnlockFromKeeps(mode, UnlockRefreshed(mode, w, h.refresh), h, own);
  }

  lemma UnlockFromKeeps(mode: Mode, r: World, h: Handler, own: iset<Seed>)
    requires Reigns(r, own) && h.Unlock?
    ensures var (t, material) := Revalidated(mode, r, h.revalidate);
            Reigns(UnlockFinished(t, Unwrapped(material, h.key), h), own)
  {
    RevalidateKeeps(mode, r, h.revalidate, own);
    var (t, material) := Revalidated(mode, r, h.revalidate);
    UnwrapsToOwn(material, h.key, own);
    UnlockFinishKeeps(t, Unwrapped(material, h.key), h, own);
  }

  lemma HandlerKeeps(mode: Mode, w: World, h: Handler, own: iset<Seed>)
    requires Reigns(w, own) && mode.UsesOwnerSeed() && !h.Teardown?
    ensures Reigns(Exec(mode, w, h), own)
  {
    match h
    case Refresh(force, load) => RefreshKeeps(mode, w, force, load, own);
    case Claim(_, _, _, _, _, _) => ClaimKeeps(mode, w, h, own);
    case ChangePassword(_, _, _, _, _, _) => ChangePasswordKeeps(mode, w, h, own);
    case Recover(_, _, _, _, _, _, _) => RecoverKeeps(mode, w, h, own);
    case DisableAutoUnlock(_, _, _, _, _) => DisableKeeps(mode, w, h, own);
    case Unlock(_, _, _, _, _) => UnlockKeeps(mode, w, h, own);
    case Restart =>
    case Other(_) =>
  }

  lemma {:induction false} RunKeeps(mode: Mode, w: World, hs: seq<Handler>, own: iset<Seed>)
    requires Reigns(w, own) && mode.UsesOwnerSeed() && NoTeardown(hs)
    ensures Reigns(ExecAll(mode, w, hs), own)
    decreases hs
  {
    if hs != [] {
      HandlerKeeps(mode, w, hs[0], own);
      RunKeeps(mode, Exec(mode, w, hs[0]), hs[1..], own);
    }
  }

  // ---------------------------------------------------------------- the claim

  /** Both resources absent and no cached body: what a claim sees when it goes on. */
  ghost predicate Vacant(s: Seeds) {
    s.upstream == map[] && forall p :: p in s.cache ==> !s.cache[p].Body?
  }

  lemma VacantRead(s: Seeds, p: Path, n: ReadNet)
    requires Vacant(s)
    ensures Vacant(Read(s, p, n).0)
    ensures Read(s, p, n).1.Some? ==> Read(s, p, n).1.value == None
  {
  }

  /** A forced refresh that finds no owner has read both resources as absent. */
  lemma ClaimableMeansVacant(mode: Mode, w: World, n: PairNet)
    requires mode.UsesOwnerSeed()
    requires var (r, seen) := Refreshed(mode, w, true, n); seen.Some? && r.m.state == Unclaimed
    ensures w.store.upstream == map[] && Vacant(Refreshed(mode, w, true, n).0.store)
  {
    var s := Evicted(Evicted(w.store, Encrypted), Sealed);
    assert Encrypted !in s.upstream && Sealed !in s.upstream;
    forall p | p in s.upstream || p in s.cache ensures false { SeedUpdates.PathsAreTwo(p); }
    VacantRead(s, Encrypted, n.encrypted);
    VacantRead(Read(s, Encrypted, n.encrypted).0, Sealed, n.sealed);
  }

  /** On a vacant store the claim's update creates the envelope or does nothing. */
  lemma ClaimCreates(s: Seeds, e: Envelope, n: UpdateNet)
    requires Vacant(s)
    ensures var (t, verdict) := Updated(s, Set(e), Remove, n);
            && (t.upstream == map[] || t.upstream == map[Encrypted := e])
            && (verdict.Stored? ==> t.upstream == map[Encrypted := e])
            && forall p :: p in t.cache ==> !t.cache[p].Body?
  {
    VacantRead(s, Encrypted, n.load.encrypted);
    VacantRead(Read(s, Encrypted, n.load.encrypted).0, Sealed, n.load.sealed);
    var (t, previous) := Loaded(s, n.load);
    if previous.Some? {
      var r := W.Create(e);
      if Wrote(t, Encrypted, r, n.encrypted).1 { SeedUpdates.WroteTrue(t, Encrypted, r, n.encrypted); }
      else { SeedUpdates.WroteFalse(t, Encrypted, r, n.encrypted); }
    }
  }

  /** The volume after a claim that got as far as its update. */
  function VolumeAfterClaim(r: World, h: Handler): Option<Seed>
    requires h.Claim?
  {
    if Updated(r.store, Set(Wrapped(h.key, h.seed)), Remove, h.update).1.Stored? && r.volume == None &&
       !h.init.ready && h.init.delivered
    then Some(h.seed) else r.volume
  }

  lemma CreationStarts(mode: Mode, r: World, h: Handler)
    requires Vacant(r.store) && h.Claim?
    ensures var c := EnvelopeCreated(mode, r, h);
            && (c.store.upstream == map[] || c.store.upstream == map[Encrypted := Wrapped(h.key, h.seed)])
            && OwnCache(c.store, iset{h.seed})
            && c.volume == VolumeAfterClaim(r, h)
  {
    ClaimCreates(r.store, Wrapped(h.key, h.seed), h.update);
  }

  lemma RefreshOnlyReads(mode: Mode, w: World, force: bool, n: PairNet)
    ensures var r := Refreshed(mode, w, force, n).0; r.store.upstream == w.store.upstream && r.volume == w.volume
  {
  }

  /** A claim writes only when both resources are absent, and then exactly its own envelope. */
  lemma ClaimWritesOnlyOnAbsence(mode: Mode, w: World, h: Handler)
    requires mode.UsesOwnerSeed() && h.Claim?
    requires Exec(mode, w, h).store.upstream != w.store.upstream
    ensures w.store.upstream == map[]
    ensures Exec(mode, w, h).store.upstream == map[Encrypted := Wrapped(h.key, h.seed)]
    ensures OwnCache(Exec(mode, w, h).store, iset{h.seed})
    ensures Exec(mode, w, h).volume == VolumeAfterClaim(Refreshed(mode, w, true, h.load).0, h)
  {
    var (r, seen) := Refreshed(mode, w, true, h.load);
    RefreshOnlyReads(mode, w, true, h.load);
    ClaimableMeansVacant(mode, w, h.load);
    CreationStarts(mode, r, h);
  }

  // ---------------------------------------------------------------- conservation

  /**
   The volume is the claimed seed's, or it is blank and this claim gets to format it:
   its update is reported as stored, init is not yet ready, and the request arrives.
   */
  predicate FormatsItsVolume(mode: Mode, w: World, h: Handler)
    requires h.Claim?
  {
    || w.volume == Some(h.seed)
    || (&& w.volume == None && !h.init.ready && h.init.delivered
        && Updated(Refreshed(mode, w, true, h.load).0.store, Set(Wrapped(h.key, h.seed)), Remove, h.update).1.Stored?)
  }

  lemma FormatsItsVolumeIff(mode: Mode, w: World, h: Handler)
    requires mode.UsesOwnerSeed() && h.Claim?
    requires Exec(mode, w, h).store.upstream != w.store.upstream
    ensures FormatsItsVolume(mode, w, h) <==> Exec(mode, w, h).volume == Some(h.seed)
  {
    ClaimWritesOnlyOnAbsence(mode, w, h);
    RefreshOnlyReads(mode, w, true, h.load);
  }

  /** From a claim on, until a teardown, the stored envelope opens to the claimed seed and there is no other. */
  lemma SeedIsConserved(mode: Mode, w: World, claim: Handler, hs: seq<Handler>)
    requires mode.UsesOwnerSeed() && claim.Claim? && NoTeardown(hs)
    requires Exec(mode, w, claim).store.upstream != w.store.upstream
    requires FormatsItsVolume(mode, w, claim)
    ensures Reigns(ExecAll(mode, Exec(mode, w, claim), hs), iset{claim.seed})
  {
    ClaimWritesOnlyOnAbsence(mode, w, claim);
    FormatsItsVolumeIff(mode, w, claim);
    RunKeeps(mode, Exec(mode, w, claim), hs, iset{claim.seed});
  }

  // ---------------------------------------------------------------- what handlers achieve when everything answers

  const READS := ReadNet(true, None, true, true)
  const LOADS := PairNet(READS, READS)
  const REVALIDATES := RevalidateNet(LOADS, LOADS, LOADS)
  const WRITES := WriteNet(true, [W.Served(true)])
  const UPDATES := UpdateNet(LOADS, WRITES, WRITES, WRITES)
  const ANSWERS := InitNet(false, true, true, true, true, true)

  lemma PlainUpdateCreates(s: Seeds, e: Envelope)
    requires s.upstream == map[]
    ensures Updated(s, Set(e), Remove, UPDATES).1 == Stored
    ensures Updated(s, Set(e), Remove, UPDATES).0.upstream == map[Encrypted := e]
  {
    SeedUpdates.PlainLoad(s, LOADS);
    var t := Loaded(s, LOADS).0;
    SeedUpdates.WorkingWrite(t, Encrypted, W.Create(e), WRITES);
    SeedUpdates.WroteTrue(t, Encrypted, W.Create(e), WRITES);
  }

  /** A claim on a vacant, unclaimed instance stores its envelope; it unlocks unless the volume is foreign. */
  lemma ClaimTakesEffect(mode: Mode, w: World, key: Key, seed: Seed)
    requires mode.UsesOwnerSeed() && w.store.upstream == map[] && w.m.state == Unclaimed
    ensures var c := Exec(mode, w, Claim(key, seed, true, LOADS, UPDATES, ANSWERS));
            && c.store.upstream == map[Encrypted := Wrapped(key, seed)]
            && (if Admits(w.volume, seed)
                then c.m.state == Unlocked && c.volume == Some(seed)
                else c.m.state == Error && c.volume == w.volume)
  {
    VacantRefreshed(mode, w);
    CreatedPlainly(mode, Refreshed(mode, w, true, LOADS).0, Claim(key, seed, true, LOADS, UPDATES, ANSWERS));
  }

  lemma VacantRefreshed(mode: Mode, w: World)
    requires mode.UsesOwnerSeed() && w.store.upstream == map[] && w.m.state == Unclaimed
    ensures var (r, seen) := Refreshed(mode, w, true, LOADS);
            seen.Some? && r.m.state == Unclaimed && r.store.upstream == map[] && r.volume == w.volume
  {
    SeedUpdates.PlainLoad(Evicted(Evicted(w.store, Encrypted), Sealed), LOADS);
  }

  lemma CreatedPlainly(mode: Mode, r: World, h: Handler)
    requires r.store.upstream == map[] && h.Claim? && h.update == UPDATES && h.init == ANSWERS
    ensures var c := EnvelopeCreated(mode, r, h);
            && c.store.upstream == map[Encrypted := Wrapped(h.key, h.seed)]
            && (if Admits(r.volume, h.seed)
                then c.m.state == Unlocked && c.volume == Some(h.seed)
                else c.m.state == Error && c.volume == r.volume)
  {
    PlainUpdateCreates(r.store, Wrapped(h.key, h.seed));
  }

  lemma BegunPlainly(mode: Mode, w: World, now: int)
    requires Content(w.store, Encrypted).Some? && !Step(mode, w.m, BeginSecretOperation(now)).1.Refused?
    ensures var (r, material) := Begun(mode, w, now, REVALIDATES);
            && material == Some(Held(w.store)) && r.store.upstream == w.store.upstream
            && r.volume == w.volume && r.m.state == w.m.state
  {
    SeedUpdates.PlainLoad(w.store, LOADS);
  }

  /** With a working store, replacing the envelope succeeds. */
  lemma PlainUpdateReplaces(s: Seeds, e: Envelope)
    requires Content(s, Encrypted).Some?
    ensures Updated(s, Set(e), Keep, UPDATES).1 == Stored
    ensures Updated(s, Set(e), Keep, UPDATES).0.upstream == s.upstream[Encrypted := e]
  {
    SeedUpdates.PlainLoad(s, LOADS);
    var t := Loaded(s, LOADS).0;
    SeedUpdates.WorkingWrite(t, Encrypted, W.Replace(e), WRITES);
    SeedUpdates.WroteTrue(t, Encrypted, W.Replace(e), WRITES);
  }

  /** The new password opens what the old one opened, and the old one no longer does; a wrong one changes nothing. */
  lemma PasswordChangeTakesEffect(mode: Mode, w: World, oldKey: Key, key: Key, now: int)
    requires Content(w.store, Encrypted).Some? && !Step(mode, w.m, BeginSecretOperation(now)).1.Refused?
    ensures var c := Exec(mode, w, ChangePassword(oldKey, key, now, true, REVALIDATES, UPDATES));
            var before, after := Content(w.store, Encrypted).value, Content(c.store, Encrypted);
            && after.Some? && c.m.state == w.m.state && Content(c.store, Sealed) == Content(w.store, Sealed)
            && (if before.key == oldKey
                then Opened(after.value, key) == Some(before.seed) && (oldKey != key ==> Opened(after.value, oldKey) == None)
                else after.value == before)
  {
    BegunPlainly(mode, w, now);
    var r := Begun(mode, w, now, REVALIDATES).0;
    PlainUpdateReplaces(r.store, Wrapped(key, Content(w.store, Encrypted).value.seed));
  }

  /** The recovery with a mnemonic for this seed, from a locked instance. */
  function Recovers(seed: Seed, key: Key, now: int): Handler {
    Recover(seed, key, now, true, REVALIDATES, ANSWERS, UPDATES)
  }

  lemma RecoveryTakesEffect(mode: Mode, w: World, seed: Seed, key: Key, now: int)
    requires Content(w.store, Encrypted).Some? && !Step(mode, w.m, BeginSecretOperation(now)).1.Refused?
    requires w.m.state == Locked && Admits(w.volume, seed)
    ensures var c := Recovered(mode, w, Recovers(seed, key, now));
            Content(c.store, Encrypted) == Some(Wrapped(key, seed)) && c.m.state == Unlocked && c.volume == Some(seed)
  {
    BegunPlainly(mode, w, now);
    var r := Begun(mode, w, now, REVALIDATES).0;
    VerifiedPlainly(mode, r, seed);
    ReplacedPlainly(mode, Verified(mode, r, seed, false, ANSWERS).0, Recovers(seed, key, now));
  }

  lemma VerifiedPlainly(mode: Mode, r: World, seed: Seed)
    requires r.m.state == Locked && Admits(r.volume, seed)
    ensures var (v, ok) := Verified(mode, r, seed, false, ANSWERS);
            ok && v.store == r.store && v.volume == Some(seed)
  {
  }

  lemma ReplacedPlainly(mode: Mode, v: World, h: Handler)
    requires Content(v.store, Encrypted).Some? && h.Recover? && h.update == UPDATES && h.init.finalized
    ensures var c := EnvelopeReplaced(mode, v, h);
            && Content(c.store, Encrypted) == Some(Wrapped(h.key, h.seed))
            && c.m.state == Unlocked && c.volume == v.volume
  {
    PlainUpdateReplaces(v.store, Wrapped(h.key, h.seed));
  }

  // ---------------------------------------------------------------- exactness

  /**
   Exactly when conservation holds: for all runs after a claim if and only if the
   volume was the claimed seed's or the claim formatted it.  Otherwise a restart and a
   recovery with any other seed that init admits replace the envelope.
   */
  lemma SeedIsConservedIff(mode: Mode, w: World, claim: Handler)
    requires mode.UsesOwnerSeed() && claim.Claim?
    requires Exec(mode, w, claim).store.upstream != w.store.upstream
    ensures (forall hs :: NoTeardown(hs) ==>
               Conserved(ExecAll(mode, Exec(mode, w, claim), hs).store, iset{claim.seed})) <==>
            FormatsItsVolume(mode, w, claim)
  {
    if FormatsItsVolume(mode, w, claim) {
      forall hs | NoTeardown(hs) ensures Conserved(ExecAll(mode, Exec(mode, w, claim), hs).store, iset{claim.seed}) {
        SeedIsConserved(mode, w, claim, hs);
      }
    } else {
      ClaimWritesOnlyOnAbsence(mode, w, claim);
      FormatsItsVolumeIff(mode, w, claim);
      var claimed := Exec(mode, w, claim);
      var other := if claimed.volume.Some? then claimed.volume.value else Seed(claim.seed.id + 1);
      OtherSeedTakesOver(mode, claimed, other);
    }
  }

  lemma FirstAttemptIsAdmitted(mode: Mode, now: int)
    ensures !Step(mode, Initial(mode), BeginSecretOperation(now)).1.Refused?
  {
    assert Fresh([], now) == [];
  }

  lemma RestartThenRecover(mode: Mode, claimed: World, seed: Seed)
    requires mode.UsesOwnerSeed() && Admits(claimed.volume, seed) && Content(claimed.store, Encrypted).Some?
    ensures var r := Exec(mode, claimed, Restart);
            Content(Exec(mode, r, Recovers(seed, Key(0), 0)).store, Encrypted) == Some(Wrapped(Key(0), seed))
  {
    FirstAttemptIsAdmitted(mode, 0);
    RecoveryTakesEffect(mode, Exec(mode, claimed, Restart), seed, Key(0), 0);
  }

  /** Whatever seed init admits can take the stored envelope over. */
  lemma OtherSeedTakesOver(mode: Mode, claimed: World, seed: Seed)
    requires mode.UsesOwnerSeed() && Admits(claimed.volume, seed) && Content(claimed.store, Encrypted).Some?
    ensures exists hs :: NoTeardown(hs) && Content(ExecAll(mode, claimed, hs).store, Encrypted) == Some(Wrapped(Key(0), seed))
  {
    var hs := [Restart, Recovers(seed, Key(0), 0)];
    RestartThenRecover(mode, claimed, seed);
    TwoSteps(mode, claimed, hs);
    assert NoTeardown(hs);
  }

  /** A claim whose request to init is lost: stored, but the volume is still blank. */
  const UNDELIVERED := InitNet(false, true, false, false, false, false)

  lemma UndeliveredClaim(mode: Mode, w: World, key: Key, seed: Seed)
    requires mode.UsesOwnerSeed() && w.store.upstream == map[] && w.m.state == Unclaimed && w.volume == None
    ensures var c := Exec(mode, w, Claim(key, seed, true, LOADS, UPDATES, UNDELIVERED));
            c.store.upstream == map[Encrypted := Wrapped(key, seed)] && c.m.state == Error && c.volume == None
  {
    VacantRefreshed(mode, w);
    var r := Refreshed(mode, w, true, LOADS).0;
    PlainUpdateCreates(r.store, Wrapped(key, seed));
    assert Exec(mode, w, Claim(key, seed, true, LOADS, UPDATES, UNDELIVERED))
        == EnvelopeCreated(mode, r, Claim(key, seed, true, LOADS, UPDATES, UNDELIVERED));
  }

  /** The run on a blank volume that loses the seed: an undelivered claim, a restart, a recovery with another seed. */
  lemma BlankVolumeRun(mode: Mode, w: World, key: Key, seed: Seed, other: Seed)
    requires mode.UsesOwnerSeed() && w.store.upstream == map[] && w.m.state == Unclaimed && w.volume == None
    ensures var c := Exec(mode, w, Claim(key, seed, true, LOADS, UPDATES, UNDELIVERED));
            Content(c.store, Encrypted) == Some(Wrapped(key, seed)) &&
            var hs := [Restart, Recovers(other, Key(0), 0)];
            Content(ExecAll(mode, c, hs).store, Encrypted) == Some(Wrapped(Key(0), other))
  {
    UndeliveredClaim(mode, w, key, seed);
    var c := Exec(mode, w, Claim(key, seed, true, LOADS, UPDATES, UNDELIVERED));
    RestartThenRecover(mode, c, other);
    TwoSteps(mode, c, [Restart, Recovers(other, Key(0), 0)]);
  }

  lemma TwoSteps(mode: Mode, w: World, hs: seq<Handler>)
    requires |hs| == 2
    ensures ExecAll(mode, w, hs) == Exec(mode, Exec(mode, w, hs[0]), hs[1])
  {
    var rest := hs[1..];
    assert rest[1..] == [];
    assert ExecAll(mode, Exec(mode, Exec(mode, w, hs[0]), hs[1]), []) == Exec(mode, Exec(mode, w, hs[0]), hs[1]);
  }

  /** A complete teardown ends the reign: nothing is left to read. */
  lemma TeardownEndsTheReign(mode: Mode, w: World, encrypted: WriteNet, sealed: WriteNet)
    requires TornDown(w.store, encrypted, sealed).1
    ensures Vacant(Exec(mode, w, Teardown(encrypted, sealed)).store)
  {
    SeedUpdates.CompleteTeardownErases(w.store, encrypted, sealed);
  }
}
