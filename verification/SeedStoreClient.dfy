/**
 The owner-seed store as the program changes it: the upstream resources and the
 cache are updated in place.  Every method is proved against its function in
 module SeedStore; modules SeedUpdates and SeedConservation say what those achieve.
 */
module SeedStoreClients {
  import opened Wrappers
  import opened WorkloadRequests
  import opened SeedStore
  import SeedUpdates

  class SeedStoreClient<V(==)> {
    var upstream: map<Path, V>
    var cache: map<Path, Entry<V>>

    constructor (upstream: map<Path, V>)
      ensures Now() == Store(upstream, map[])
    {
      this.upstream := upstream;
      cache := map[];
    }

    ghost function Now(): Store<V>
      reads this
    {
      Store(upstream, cache)
    }

    /** fetch_kbs_resource, on a cache with at most one live entry per resource. */
    method FetchKbsResource(p: Path, n: ReadNet) returns (entry: Entry<V>)
      modifies this
      ensures (Now(), entry) == Fetched(old(Now()), p, n)
    {
      if n.expired { cache := cache - {p}; }
      if p in cache { return cache[p]; }
      entry := Got(if p in upstream then Some(upstream[p]) else None, n.trouble);
      if n.kept { cache := cache[p := entry]; }
    }

    method LoadOwnerSeedMaterial(n: PairNet) returns (material: Option<Material<V>>)
      modifies this
      ensures (Now(), material) == Loaded(old(Now()), n)
    {
      var entry := FetchKbsResource(Encrypted, n.encrypted);
      var encrypted := Classified(if Encrypted in upstream then Some(upstream[Encrypted]) else None, entry, n.encrypted.probed);
      if encrypted.None? { return None; }
      entry := FetchKbsResource(Sealed, n.sealed);
      var sealed := Classified(if Sealed in upstream then Some(upstream[Sealed]) else None, entry, n.sealed.probed);
      if sealed.None? { return None; }
      return Some(Material(encrypted.value, sealed.value));
    }

    /** The exchange with the endpoint, and its effect there. */
    method Send(p: Path, r: Request<V>, n: WriteNet) returns (outcome: Outcome)
      modifies `upstream
      ensures var e := Exchanged(Content(old(Now()), p), r, n.fates, []);
              outcome == e.outcome && Now() == Written(old(Now()), p, e.content)
    {
      var e, _ := SendWorkloadResourceRequest(if p in upstream then Some(upstream[p]) else None, r, n.fates);
      upstream := if e.content.Some? then upstream[p := e.content.value] else upstream - {p};
      outcome := e.outcome;
    }

    method PutKbsWorkloadResource(p: Path, value: V, create: bool, n: WriteNet) returns (ok: bool)
      modifies this
      ensures (Now(), ok) == Wrote(old(Now()), p, if create then Create(value) else Replace(value), n)
    {
      if !n.prepared { return false; }
      var outcome := Send(p, if create then Create(value) else Replace(value), n);
      if !outcome.Applied? { return false; }
      cache := cache - {p};
      return true;
    }

    /** None on an error, otherwise whether this call erased the resource. */
    method DeleteKbsWorkloadResource(p: Path, n: WriteNet) returns (erased: Option<bool>)
      modifies this
      ensures (Now(), erased.Some?) == Wrote(old(Now()), p, Delete, n)
    {
      if !n.prepared { return None; }
      var outcome := Send(p, Delete, n);
      if outcome.Refused? { return None; }
      cache := cache - {p};
      return Some(outcome.Applied?);
    }

    /** None on an error, otherwise whether anything was written. */
    method ApplyKbsOwnerSeedUpdate(p: Path, u: Update<V>, previous: Option<V>, n: WriteNet) returns (changed: Option<bool>)
      modifies this
      ensures (Now(), changed.Some?) == Changed(old(Now()), p, u, previous, n)
      ensures changed.Some? ==> changed.value == RequestFor(u, previous).Some?
    {
      match u
      case Keep => return Some(false);
      case Remove =>
        if previous.None? { return Some(false); }
        var erased := DeleteKbsWorkloadResource(p, n);
        return if erased.Some? then Some(true) else None;
      case Set(value) =>
        var ok := PutKbsWorkloadResource(p, value, previous.None?, n);
        return if ok then Some(true) else None;
    }

    method RestoreKbsOwnerSeedResource(p: Path, previous: Option<V>, n: WriteNet) returns (ok: bool)
      modifies this
      ensures (Now(), ok) == Wrote(old(Now()), p, RestoreRequest(previous), n)
    {
      if previous.Some? {
        ok := PutKbsWorkloadResource(p, previous.value, false, n);
      } else {
        var erased := DeleteKbsWorkloadResource(p, n);
        ok := erased.Some?;
      }
    }

    method UpdateOwnerSeedMaterial(encrypted: Update<V>, sealed: Update<V>, n: UpdateNet) returns (verdict: Verdict)
      modifies this
      ensures (Now(), verdict) == Updated(old(Now()), encrypted, sealed, n)
    {
      var previous := LoadOwnerSeedMaterial(n.load);
      if previous.None? { return NotLoaded; }
      var encryptedChanged := ApplyKbsOwnerSeedUpdate(Encrypted, encrypted, previous.value.encrypted, n.encrypted);
      if encryptedChanged.None? { return NotStored; }
      var sealedChanged := ApplyKbsOwnerSeedUpdate(Sealed, sealed, previous.value.sealed, n.sealed);
      if sealedChanged.None? {
        if encryptedChanged.value {
          var restored := RestoreKbsOwnerSeedResource(Encrypted, previous.value.encrypted, n.rollback);
          if !restored { return RollbackFailed; }
        }
        return NotStored;
      }
      return Stored;
    }

    /** The paths that could not be deleted; none means teardown_complete. */
    method Teardown(encrypted: WriteNet, sealed: WriteNet) returns (errors: seq<Path>)
      modifies this
      ensures (Now(), errors == []) == TornDown(old(Now()), encrypted, sealed)
    {
      errors := [];
      var erased := DeleteKbsWorkloadResource(Encrypted, encrypted);
      if erased.None? { errors := errors + [Encrypted]; }
      erased := DeleteKbsWorkloadResource(Sealed, sealed);
      if erased.None? { errors := errors + [Sealed]; }
    }
  }
  /** A new client that stores a pair and then tears it down. */
  method StoreAndErase<V(==)>(
    upstream: map<Path, V>, encrypted: Update<V>, sealed: Update<V>, n: UpdateNet, first: WriteNet, second: WriteNet)
    returns (verdict: Verdict, held: map<Path, V>, errors: seq<Path>, left: map<Path, V>)
    ensures var before := Store(upstream, map[]);
            verdict.Stored? ==> Held(Store(held, map[])) == PairUpdate(Held(before), encrypted, sealed)
    ensures errors == [] ==> left == map[]
  {
    var client := new SeedStoreClient(upstream);
    verdict := client.UpdateOwnerSeedMaterial(encrypted, sealed, n);
    held := client.upstream;
    if verdict.Stored? { SeedUpdates.UpdateIsPairUpdate(Store(upstream, map[]), encrypted, sealed, n); }
    ghost var between := client.Now();
    errors := client.Teardown(first, second);
    left := client.upstream;
    if errors == [] { SeedUpdates.CompleteTeardownErases(between, first, second); }
  }
}
