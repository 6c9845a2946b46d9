/**
 The per-path resource cache: what lookup, store and evict do to the map.  The
 class is the cache as the program mutates it; the functions are its contract and
 the vocabulary of the interleaving model (module CacheCoherence).
 */
module ResourceCaches {
  import opened Wrappers
  import opened ByteStrings

  type Path = string

  /** The JSON error payload, reduced to the one field that readers look at. */
  datatype ErrorPayload = ErrorPayload(upstreamStatus: Option<nat>)

  datatype Entry = Entry(
    body: Bytes,
    contentType: string,
    status: nat,
    expiresAt: int,
    error: Option<ErrorPayload>,
    errorUntil: int)
  {
    predicate IsValid(now: int) { now < expiresAt && body != [] }
    predicate HasValidError(now: int) { error.Some? && now < errorUntil }
  }

  type Cache = map<Path, Entry>

  datatype Hit =
    | Miss
    | HitBody(body: Bytes, contentType: string, status: nat)
    | HitError(error: ErrorPayload)

  function Looked(cache: Cache, key: Path, now: int): (r: (Cache, Hit))
    // A lookup never changes what any other lookup at this instant would answer.
    ensures r.0.Keys <= cache.Keys && forall k :: k in r.0 ==> r.0[k] == cache[k]
    ensures forall k :: k in cache && k !in r.0 ==> !cache[k].IsValid(now) && !cache[k].HasValidError(now)
  {
    if key !in cache then (cache, Miss)
    else if cache[key].IsValid(now) then
      (cache, HitBody(cache[key].body, cache[key].contentType, cache[key].status))
    else if cache[key].HasValidError(now) then (cache, HitError(cache[key].error.value))
    else (cache - {key}, Miss)
  }

  function StoredSuccess(cache: Cache, key: Path, body: Bytes, contentType: string, now: int, ttl: int): Cache {
    if ttl <= 0 then cache - {key}
    else cache[key := Entry(body, contentType, 200, now + ttl, None, now)]
  }

  function StoredError(cache: Cache, key: Path, error: ErrorPayload, now: int, ttl: int): Cache {
    if ttl <= 0 then cache - {key}
    else cache[key := Entry([], "", 0, now, Some(error), now + ttl)]
  }

  class ResourceCache {
    var entries: Cache

    constructor ()
      ensures entries == map[]
    {
      entries := map[];
    }

    method CachedResourceEntry(key: Path, now: int) returns (hit: Hit)
      modifies this
      ensures (entries, hit) == Looked(old(entries), key, now)
    {
      if key in entries {
        var entry := entries[key];
        if entry.IsValid(now) { return HitBody(entry.body, entry.contentType, entry.status); }
        if entry.HasValidError(now) { return HitError(entry.error.value); }
        entries := entries - {key};
      }
      return Miss;
    }

    method StoreResourceSuccess(key: Path, body: Bytes, contentType: string, now: int, ttl: int)
      modifies this
      ensures entries == StoredSuccess(old(entries), key, body, contentType, now, ttl)
    {
      if ttl <= 0 {
        entries := entries - {key};
        return;
      }
      entries := entries[key := Entry(body, contentType, 200, now + ttl, None, now)];
    }

    method StoreResourceError(key: Path, error: ErrorPayload, now: int, ttl: int)
      modifies this
      ensures entries == StoredError(old(entries), key, error, now, ttl)
    {
      if ttl <= 0 {
        entries := entries - {key};
        return;
      }
      entries := entries[key := Entry([], "", 0, now, Some(error), now + ttl)];
    }

    method Evict(key: Path)
      modifies this
      ensures entries == old(entries) - {key}
    {
      entries := entries - {key};
    }
  }
}
