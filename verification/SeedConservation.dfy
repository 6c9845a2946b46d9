/**
 The ownership handlers, one at a time, over the seed store, the ownership
 machine and the encrypted volume.  Seeds and wrap keys matter only up to
 equality; an envelope opens to its seed under its own key and under no other.
 Claim, unlock and recover send the init process one and the same request: it
 formats a blank volume with the seed, accepts the seed the volume was formatted
 with, and refuses every other.
 */
module SeedConservation {
  import opened Wrappers
  import opened OwnershipSpec
  import opened SeedStore
  import Startup

  datatype Seed = Seed(id: nat)
  datatype Key = Key(id: nat)
  datatype Envelope = Wrapped(key: Key, seed: Seed)

  function Opened(e: Envelope, k: Key): Option<Seed> { if e.key == k then Some(e.seed) else None }

  type Seeds = Store<Envelope>

  datatype World = World(store: Seeds, m: Machine, volume: Option<Seed>)

  /** What the init process does with one request. */
  datatype InitNet = InitNet(
    ready: bool, cleared: bool, delivered: bool, replied: bool, becomesReady: bool, finalized: bool)

  datatype RevalidateNet = RevalidateNet(first: PairNet, refresh: PairNet, second: PairNet)

  /** `passed` stands for every check and computation that touches neither store, machine nor volume. */
  datatype Handler =
    | Refresh(force: bool, load: PairNet)
    | Claim(key: Key, seed: Seed, passed: bool, load: PairNet, update: UpdateNet, init: InitNet)
    | ChangePassword(oldKey: Key, key: Key, now: int, passed: bool, revalidate: RevalidateNet, update: UpdateNet)
    | Recover(seed: Seed, key: Key, now: int, passed: bool, revalidate: RevalidateNet, init: InitNet, update: UpdateNet)
    | DisableAutoUnlock(key: Key, now: int, passed: bool, revalidate: RevalidateNet, update: UpdateNet)
    | Unlock(key: Key, refresh: Option<PairNet>, revalidate: RevalidateNet, init: InitNet, after: Machine)
    | Teardown(encrypted: WriteNet, sealed: WriteNet)
    | Restart
    | Other(after: Machine)  // whatever else touches only the guard

  // ---------------------------------------------------------------- shared steps

  function Guard(mode: Mode, w: World, c: Call): World { w.(m := Step(mode, w.m, c).0) }

  /** refresh_ownership_state */
  function Refreshed(mode: Mode, w: World, force: bool, n: PairNet): (World, Option<Observation>) {
    if !mode.UsesOwnerSeed() then (w, Some(Observation(false, false))) else
    var s := if force then Evicted(Evicted(w.store, Encrypted), Sealed) else w.store;
    var (t, material) := Loaded(s, n);
    if material.None? then (w.(store := t), None) else
    var seen := Observation(material.value.encrypted.Some?, material.value.sealed.Some?);
    (w.(store := t, m := Startup.Observed(w.m, seen)), Some(seen))
  }

  /** load_owner_seed_material_with_revalidation */
  function Revalidated(mode: Mode, w: World, n: RevalidateNet): (World, Option<Material<Envelope>>) {
    var (s, material) := Loaded(w.store, n.first);
    var loaded := w.(store := s);
    if material.None? || material.value.encrypted.Some? then (loaded, material) else
    var (r, seen) := Refreshed(mode, loaded, true, n.refresh);
    if seen.None? then (r, None) else
    var (t, again) := Loaded(r.store, n.second);
    (r.(store := t), again)
  }

  predicate Admits(volume: Option<Seed>, seed: Seed) { volume == None || volume == Some(seed) }

  /** request_owner_seed_unlock: the volume afterwards, and whether init's OK came back. */
  function Requested(volume: Option<Seed>, seed: Seed, i: InitNet): (Option<Seed>, bool) {
    if i.delivered && Admits(volume, seed) then (Some(seed), i.replied) else (volume, false)
  }

  /** unlock_owner_seed_material: nothing is sent to an init that is already ready. */
  function HandedOver(volume: Option<Seed>, seed: Seed, i: InitNet): (Option<Seed>, bool) {
    if i.ready then (volume, true) else Requested(volume, seed, i)
  }

  /** verify_owner_seed_for_recovery, and the latch its caller sets on an ambiguous reply. */
  function Verified(mode: Mode, w: World, seed: Seed, restoreUnclaimed: bool, i: InitNet): (World, bool) {
    if i.ready || Step(mode, w.m, BeginRecoveryVerification).1.Refused? then (w, false) else
    var r := Guard(mode, w, BeginRecoveryVerification);
    var back := Guard(mode, r, if restoreUnclaimed then SetUnclaimedPreservingAttempts else SetLocked);
    var stuck := Guard(mode, r, SetError("recovery_verification_ambiguous_restart_required"));
    if !i.cleared || !i.delivered then (back, false)
    else VerifiedByInit(r, back, stuck, Requested(w.volume, seed, i), i)
  }

  /** How a delivered request can end; a late ready is left to the watch. */
  function VerifiedByInit(r: World, back: World, stuck: World, answer: (Option<Seed>, bool), i: InitNet): (World, bool) {
    if !i.replied then (stuck.(volume := answer.0), false)
    else if !answer.1 then (back.(volume := answer.0), false)
    else (r.(volume := answer.0), i.becomesReady)
  }

  // ---------------------------------------------------------------- handlers

  /** bootstrap_claim */
  function BootstrapClaimed(mode: Mode, w: World, h: Handler): World
    requires h.Claim?
  {
    if !mode.RequiresManualUnlock() then w else
    var (r, seen) := if w.m.state == Unclaimed then Refreshed(mode, w, true, h.load) else (w, None);
    if r.m.state != Unclaimed || seen.None? || !h.passed then r else EnvelopeCreated(mode, r, h)
  }

  /** The claim once nothing is stored: create the envelope, then hand the seed over. */
  function EnvelopeCreated(mode: Mode, r: World, h: Handler): World
    requires h.Claim?
  {
    var (t, verdict) := Updated(r.store, Set(Wrapped(h.key, h.seed)), Remove, h.update);
    if !verdict.Stored? then r.(store := t) else
    var (volume, ok) := HandedOver(r.volume, h.seed, h.init);
    var locked := Guard(mode, World(t, r.m, volume), SetLocked);
    Guard(mode, locked, if ok then SetUnlocked else SetOwnershipError(Timeout))
  }

  /** Rate limit, then the stored pair; None where the handler stops. */
  function Begun(mode: Mode, w: World, now: int, n: RevalidateNet): (World, Option<Material<Envelope>>) {
    var charged := Guard(mode, w, BeginSecretOperation(now));
    if Step(mode, w.m, BeginSecretOperation(now)).1.Refused? then (charged, None)
    else Revalidated(mode, charged, n)
  }

  /** The seed in the stored envelope, if this key opens it. */
  function Unwrapped(material: Option<Material<Envelope>>, k: Key): Option<Seed> {
    if material.None? || material.value.encrypted.None? then None else Opened(material.value.encrypted.value, k)
  }

  function PasswordChanged(mode: Mode, w: World, h: Handler): World
    requires h.ChangePassword?
  {
    var (r, material) := Begun(mode, w, h.now, h.revalidate);
    var seed := Unwrapped(material, h.oldKey);
    if seed.None? || !h.passed then r
    else r.(store := Updated(r.store, Set(Wrapped(h.key, seed.value)), Keep, h.update).0)
  }

  function AutoUnlockDisabled(mode: Mode, w: World, h: Handler): World
    requires h.DisableAutoUnlock?
  {
    var (r, material) := Begun(mode, w, h.now, h.revalidate);
    if Unwrapped(material, h.key).None? || !h.passed then r
    else r.(store := Updated(r.store, Keep, Remove, h.update).0)
  }

  function Recovered(mode: Mode, w: World, h: Handler): World
    requires h.Recover?
  {
    var (r, material) := Begun(mode, w, h.now, h.revalidate);
    if material.None? || !h.passed then r else
    var restore := r.m.state == Unclaimed && material.value.encrypted.None?;
    var (v, verified) := Verified(mode, r, h.seed, restore, h.init);
    if !verified then v else EnvelopeReplaced(mode, v, h)
  }

  /** The recovery once init has accepted the seed. */
  function EnvelopeReplaced(mode: Mode, v: World, h: Handler): World
    requires h.Recover?
  {
    var (t, verdict) := Updated(v.store, Set(Wrapped(h.key, h.seed)), Keep, h.update);
    if !verdict.Stored? then Guard(mode, v.(store := t), SetError("recovery_persistence_requires_restart"))
    else Guard(mode, v.(store := t), if h.init.finalized then SetUnlocked else SetOwnershipError(Timeout))
  }

  /** unlock, up to what its reservation does to the machine (module UnlockProtocol). */
  function UnlockAttempted(mode: Mode, w: World, h: Handler): World
    requires h.Unlock?
  {
    var (t, material) := Revalidated(mode, UnlockRefreshed(mode, w, h.refresh), h.revalidate);
    UnlockFinished(t, Unwrapped(material, h.key), h)
  }

  /** An unclaimed or re-probeable machine is refreshed first. */
  function UnlockRefreshed(mode: Mode, w: World, refresh: Option<PairNet>): World {
    if refresh.Some? then Refreshed(mode, w, true, refresh.value).0 else w
  }

  function UnlockFinished(t: World, seed: Option<Seed>, h: Handler): World
    requires h.Unlock?
  {
    if seed.None? then t.(m := h.after)
    else t.(m := h.after, volume := HandedOver(t.volume, seed.value, h.init).0)
  }

  function Exec(mode: Mode, w: World, h: Handler): World {
    match h
    case Refresh(force, load) => Refreshed(mode, w, force, load).0
    case Claim(_, _, _, _, _, _) => BootstrapClaimed(mode, w, h)
    case ChangePassword(_, _, _, _, _, _) => PasswordChanged(mode, w, h)
    case Recover(_, _, _, _, _, _, _) => Recovered(mode, w, h)
    case DisableAutoUnlock(_, _, _, _, _) => AutoUnlockDisabled(mode, w, h)
    case Unlock(_, _, _, _, _) => UnlockAttempted(mode, w, h)
    case Teardown(encrypted, sealed) => w.(store := TornDown(w.store, encrypted, sealed).0)
    case Restart => World(w.store.(cache := map[]), Initial(mode), w.volume)
    case Other(after) => w.(m := after)
  }

  function ExecAll(mode: Mode, w: World, hs: seq<Handler>): World
    decreases hs
  {
    if hs == [] then w else ExecAll(mode, Exec(mode, w, hs[0]), hs[1..])
  }

  ghost predicate NoTeardown(hs: seq<Handler>) {
    forall i :: 0 <= i < |hs| ==> !hs[i].Teardown?
  }
}
