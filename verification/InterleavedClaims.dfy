/**
 A claim looks twice: its refresh decides that it may go on, and the load of its
 update decides between creating and replacing.  Other handlers may run in between.
 */
module InterleavedClaims {
  import opened Wrappers
  import opened OwnershipSpec
  import opened SeedStore
  import opened SeedConservation
  import opened SeedConservationProofs
  import SeedUpdates
  import W = WorkloadRequests

  ghost const ANY := iset seed: Seed | true

  /** The request the claim's update chooses for the encrypted resource; None if nothing could be loaded. */
  function ClaimRequest(s: Seeds, e: Envelope, n: UpdateNet): Option<W.Request<Envelope>> {
    var previous := Loaded(s, n.load).1;
    if previous.None? then None else RequestFor(Set(e), previous.value.encrypted)
  }

  ghost predicate NothingWritten(mode: Mode, r: World, hs: seq<Handler>) {
    forall k :: 0 <= k <= |hs| ==> ExecAll(mode, r, hs[..k]).store.upstream == map[]
  }

  /** Nothing there, or an envelope that only a teardown takes away again. */
  ghost predicate VacantOrTaken(s: Seeds) { Vacant(s) || (Conserved(s, ANY) && OwnCache(s, ANY)) }

  // ---------------------------------------------------------------- handlers on a vacant store

  lemma VacantLoad(s: Seeds, n: PairNet)
    requires Vacant(s)
    ensures Vacant(Loaded(s, n).0)
    ensures Loaded(s, n).1.Some? ==> Loaded(s, n).1.value == Material(None, None)
  {
    VacantRead(s, Encrypted, n.encrypted);
    VacantRead(Read(s, Encrypted, n.encrypted).0, Sealed, n.sealed);
  }

  lemma VacantRefresh(mode: Mode, w: World, force: bool, n: PairNet)
    requires Vacant(w.store)
    ensures Vacant(Refreshed(mode, w, force, n).0.store)
  {
    var s := if force then Evicted(Evicted(w.store, Encrypted), Sealed) else w.store;
    assert Vacant(s);
    VacantLoad(s, n);
  }

  lemma VacantRevalidate(mode: Mode, w: World, n: RevalidateNet)
    requires Vacant(w.store)
    ensures Vacant(Revalidated(mode, w, n).0.store)
    ensures var r := Revalidated(mode, w, n).1; r.Some? ==> r.value == Material(None, None)
  {
    VacantLoad(w.store, n.first);
    var loaded := w.(store := Loaded(w.store, n.first).0);
    VacantRefresh(mode, loaded, true, n.refresh);
    VacantLoad(Refreshed(mode, loaded, true, n.refresh).0.store, n.second);
  }

  lemma VacantBegun(mode: Mode, w: World, now: int, n: RevalidateNet)
    requires Vacant(w.store)
    ensures Vacant(Begun(mode, w, now, n).0.store)
    ensures var r := Begun(mode, w, now, n).1; r.Some? ==> r.value == Material(None, None)
  {
    VacantRevalidate(mode, Guard(mode, w, BeginSecretOperation(now)), n);
  }

  lemma VacantWrite(t: Seeds, e: Envelope, n: WriteNet)
    requires Vacant(t)
    ensures VacantOrTaken(Wrote(t, Encrypted, W.Create(e), n).0)
  {
    var r := W.Create(e);
    if Wrote(t, Encrypted, r, n).1 { SeedUpdates.WroteTrue(t, Encrypted, r, n); }
    else { SeedUpdates.WroteFalse(t, Encrypted, r, n); }
    JustCreated(Wrote(t, Encrypted, r, n).0, e);
  }

  lemma VacantRewrap(s: Seeds, e: Envelope, n: UpdateNet)
    requires Vacant(s)
    ensures VacantOrTaken(Updated(s, Set(e), Keep, n).0)
  {
    VacantLoad(s, n.load);
    VacantWrite(Loaded(s, n.load).0, e, n.encrypted);
  }

  lemma VacantClaim(mode: Mode, w: World, h: Handler)
    requires Vacant(w.store) && h.Claim?
    ensures VacantOrTaken(BootstrapClaimed(mode, w, h).store)
  {
    VacantRefresh(mode, w, true, h.load);
    VacantCreate(mode, Refreshed(mode, w, true, h.load).0, h);
  }

  lemma VacantCreate(mode: Mode, r: World, h: Handler)
    requires Vacant(r.store) && h.Claim?
    ensures VacantOrTaken(EnvelopeCreated(mode, r, h).store)
  {
    ClaimCreates(r.store, Wrapped(h.key, h.seed), h.update);
    JustCreated(EnvelopeCreated(mode, r, h).store, Wrapped(h.key, h.seed));
  }

  lemma JustCreated(s: Seeds, e: Envelope)
    requires s.upstream == map[] || s.upstream == map[Encrypted := e]
    requires forall p :: p in s.cache ==> !s.cache[p].Body?
    ensures VacantOrTaken(s)
  {
  }

  lemma VacantRecover(mode: Mode, w: World, h: Handler)
    requires Vacant(w.store) && h.Recover?
    ensures VacantOrTaken(Recovered(mode, w, h).store)
  {
    VacantBegun(mode, w, h.now, h.revalidate);
    var (r, material) := Begun(mode, w, h.now, h.revalidate);
    if material.Some? {
      var restore := r.m.state == Unclaimed && material.value.encrypted.None?;
      VerifierRefusesForeignSeeds(mode, r, h.seed, restore, h.init);
      VacantReplace(mode, Verified(mode, r, h.seed, restore, h.init).0, h);
    }
  }

  lemma VacantReplace(mode: Mode, v: World, h: Handler)
    requires Vacant(v.store) && h.Recover?
    ensures VacantOrTaken(EnvelopeReplaced(mode, v, h).store)
  {
    VacantRewrap(v.store, Wrapped(h.key, h.seed), h.update);
  }

  lemma VacantUnlock(mode: Mode, w: World, h: Handler)
    requires Vacant(w.store) && h.Unlock?
    ensures Vacant(UnlockAttempted(mode, w, h).store)
  {
    if h.refresh.Some? { VacantRefresh(mode, w, true, h.refresh.value); }
    VacantRevalidate(mode, UnlockRefreshed(mode, w, h.refresh), h.revalidate);
  }

  lemma VacantStep(mode: Mode, w: World, h: Handler)
    requires Vacant(w.store) && !h.Teardown?
    ensures VacantOrTaken(Exec(mode, w, h).store)
  {
    match h
    case Refresh(force, load) => VacantRefresh(mode, w, force, load);
    case Claim(_, _, _, _, _, _) => VacantClaim(mode, w, h);
    case ChangePassword(_, _, _, _, _, _) => VacantBegun(mode, w, h.now, h.revalidate);
    case Recover(_, _, _, _, _, _, _) => VacantRecover(mode, w, h);
    case DisableAutoUnlock(_, _, _, _, _) => VacantBegun(mode, w, h.now, h.revalidate);
    case Unlock(_, _, _, _, _) => VacantUnlock(mode, w, h);
    case Restart =>
    case Other(_) =>
  }

  // ---------------------------------------------------------------- between refresh and load

  /** Over a run without a teardown: vacant to the end, or written at some point and never empty from then on. */
  lemma {:induction false} VacantUntilWritten(mode: Mode, r: World, hs: seq<Handler>)
    requires mode.UsesOwnerSeed() && Vacant(r.store) && NoTeardown(hs)
    ensures var s := ExecAll(mode, r, hs).store;
            if NothingWritten(mode, r, hs) then Vacant(s) else Conserved(s, ANY) && OwnCache(s, ANY)
    decreases hs
  {
    if hs == [] {
      assert forall k :: 0 <= k <= |hs| ==> hs[..k] == [];
    } else {
      var next := Exec(mode, r, hs[0]);
      VacantStep(mode, r, hs[0]);
      FirstThenRest(mode, r, hs);
      if Vacant(next.store) {
        VacantUntilWritten(mode, next, hs[1..]);
      } else {
        RunKeeps(mode, next, hs[1..], ANY);
        assert hs[1..][..0] == [];
      }
    }
  }

  lemma FirstThenRest(mode: Mode, r: World, hs: seq<Handler>)
    requires hs != [] && r.store.upstream == map[]
    ensures NothingWritten(mode, r, hs) <==> NothingWritten(mode, Exec(mode, r, hs[0]), hs[1..])
  {
    var next, rest := Exec(mode, r, hs[0]), hs[1..];
    forall k | 0 <= k <= |rest| ensures ExecAll(mode, next, rest[..k]) == ExecAll(mode, r, hs[..k + 1]) {
      assert hs[..k + 1][0] == hs[0] && hs[..k + 1][1..] == rest[..k];
    }
    if NothingWritten(mode, next, rest) {
      forall k | 0 <= k <= |hs| ensures ExecAll(mode, r, hs[..k]).store.upstream == map[] {
        if k > 0 { assert ExecAll(mode, next, rest[..k - 1]).store.upstream == map[]; } else { assert hs[..0] == []; }
      }
    }
    if NothingWritten(mode, r, hs) {
      forall k | 0 <= k <= |rest| ensures ExecAll(mode, next, rest[..k]).store.upstream == map[] {
        assert ExecAll(mode, r, hs[..k + 1]).store.upstream == map[];
      }
    }
  }

  /**
   What a claim's write is, when other handlers run between its refresh and its load.
   A replacement means that something was written in between.  If nothing was, it is
   a creation; a creation that comes too late is refused.  With a coherent cache it is
   a creation if and only if nothing was written.
   */
  lemma ClaimCreatesIffNothingWritten(mode: Mode, w: World, h: Handler, hs: seq<Handler>)
    requires mode.UsesOwnerSeed() && h.Claim? && NoTeardown(hs)
    requires var (r, seen) := Refreshed(mode, w, true, h.load); seen.Some? && r.m.state == Unclaimed
    ensures var r := Refreshed(mode, w, true, h.load).0;
            var s := ExecAll(mode, r, hs).store;
            var request := ClaimRequest(s, Wrapped(h.key, h.seed), h.update);
            request.Some? ==>
              && (request.value.Replace? ==> !NothingWritten(mode, r, hs))
              && (request.value.Create? && !NothingWritten(mode, r, hs) ==> !W.Allowed(Content(s, Encrypted), request.value))
              && (Coherent(s) ==> (request.value.Create? <==> NothingWritten(mode, r, hs)))
  {
    ClaimableMeansVacant(mode, w, h.load);
    var r := Refreshed(mode, w, true, h.load).0;
    VacantUntilWritten(mode, r, hs);
    var s := ExecAll(mode, r, hs).store;
    if Vacant(s) { VacantLoad(s, h.update.load); }
    if Coherent(s) { SeedUpdates.LoadTrue(s, h.update.load); }
  }

  /** Two claims that both passed their refresh: the later update replaces the envelope of a claim that succeeded. */
  lemma LaterClaimReplaces(mode: Mode, w: World, first: Key, seed: Seed, second: Key, other: Seed)
    requires mode.UsesOwnerSeed() && w.store.upstream == map[] && w.m.state == Unclaimed && w.volume == None
    ensures var r := Refreshed(mode, w, true, LOADS).0;
            var done := Exec(mode, r, Claim(first, seed, true, LOADS, UPDATES, ANSWERS));
            var late := EnvelopeCreated(mode, done, Claim(second, other, true, LOADS, UPDATES, ANSWERS));
            && done.m.state == Unlocked && Content(done.store, Encrypted) == Some(Wrapped(first, seed))
            && Content(late.store, Encrypted) == Some(Wrapped(second, other))
  {
    VacantRefreshed(mode, w);
    var r := Refreshed(mode, w, true, LOADS).0;
    ClaimTakesEffect(mode, r, first, seed);
    var done := Exec(mode, r, Claim(first, seed, true, LOADS, UPDATES, ANSWERS));
    LateUpdateReplaces(done.store, Wrapped(second, other));
  }

  lemma LateUpdateReplaces(s: Seeds, e: Envelope)
    requires Content(s, Encrypted).Some? && Content(s, Sealed) == None
    ensures Content(Updated(s, Set(e), Remove, UPDATES).0, Encrypted) == Some(e)
  {
    SeedUpdates.PlainLoad(s, LOADS);
    var t := Loaded(s, LOADS).0;
    SeedUpdates.WorkingWrite(t, Encrypted, W.Replace(e), WRITES);
    SeedUpdates.WroteTrue(t, Encrypted, W.Replace(e), WRITES);
  }
}
