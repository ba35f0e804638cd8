/**
 * `videoInfoCache`: the server's in-memory map from a video id to the fetched
 * video info and the time it was stored, with a five-minute lifetime.
 * Time is a parameter (milliseconds, as `Date.now()` gives it).
 */
module InfoCache {
  import opened Wrappers

  /** `CACHE_DURATION`: five minutes in milliseconds. */
  const CacheDuration: int := 5 * 60 * 1000

  /** One cache entry: `{ info, timestamp }`. */
  datatype Entry<Info> = Entry(info: Info, timestamp: int)

  /** The freshness test of a lookup: strictly younger than the lifetime. */
  predicate IsFresh<Info>(e: Entry<Info>, now: int)
  {
    now - e.timestamp < CacheDuration
  }

  /** The deletion test of the sweep: strictly older than the lifetime. */
  predicate IsExpired<Info>(e: Entry<Info>, now: int)
  {
    now - e.timestamp > CacheDuration
  }

  /** What a lookup at time `now` yields: the stored info exactly when the entry is fresh. */
  function CachedInfo<Info>(m: map<string, Entry<Info>>, id: string, now: int): (r: Option<Info>)
    ensures r.Some? <==> id in m && now - m[id].timestamp < CacheDuration
    ensures r.Some? ==> r.value == m[id].info
  {
    if id in m && IsFresh(m[id], now) then Some(m[id].info) else None
  }

  /** The map a sweep at time `now` leaves: every entry that is not expired, unchanged. */
  function Swept<Info>(m: map<string, Entry<Info>>, now: int): (r: map<string, Entry<Info>>)
    ensures r.Keys <= m.Keys
    ensures forall k :: k in m ==> (k in r <==> now - m[k].timestamp <= CacheDuration)
    ensures forall k :: k in r ==> r[k] == m[k]
  {
    map k | k in m && !IsExpired(m[k], now) :: m[k]
  }

  /** A sweep never removes an entry a lookup at the same time would still use. */
  lemma SweepKeepsHits<Info>(m: map<string, Entry<Info>>, id: string, now: int)
    ensures CachedInfo(Swept(m, now), id, now) == CachedInfo(m, id, now)
  {
  }

  /** An entry exactly `CACHE_DURATION` old survives the sweep but is no longer a hit. */
  lemma BoundaryAge<Info>(m: map<string, Entry<Info>>, id: string, now: int)
    requires id in m && now - m[id].timestamp == CacheDuration
    ensures id in Swept(m, now)
    ensures CachedInfo(m, id, now) == None
  {
  }

  /** Info stored at time `t` is served for lookups in `[t, t + CACHE_DURATION)`, and not after. */
  lemma StoredInfoLifetime<Info>(m: map<string, Entry<Info>>, id: string, info: Info, t: int, now: int)
    requires t <= now
    ensures CachedInfo(m[id := Entry(info, t)], id, now) == if now < t + CacheDuration then Some(info) else None
  {
  }

  /** The cache object: one mutable map, as in the server. */
  class VideoInfoCache<Info> {
    var entries: map<string, Entry<Info>>

    constructor ()
      ensures entries == map[]
    {
      entries := map[];
    }

    /** `videoInfoCache.get(id)` together with the freshness test of the handler. */
    method Lookup(id: string, now: int) returns (r: Option<Info>)
      ensures r == CachedInfo(entries, id, now)
    {
      if id in entries && now - entries[id].timestamp < CacheDuration {
        r := Some(entries[id].info);
      } else {
        r := None;
      }
    }

    /** `videoInfoCache.set(id, { info, timestamp: now })`. */
    method Store(id: string, info: Info, now: int)
      modifies this
      ensures entries == old(entries)[id := Entry(info, now)]
    {
      entries := entries[id := Entry(info, now)];
    }

    /** One run of the periodic cleanup: delete every entry older than the lifetime. */
    method Sweep(now: int)
      modifies this
      ensures entries == Swept(old(entries), now)
    {
      var pending := entries.Keys;
      while pending != {}
        invariant pending <= old(entries).Keys
        invariant entries.Keys <= old(entries).Keys
        invariant forall k :: k in entries ==> entries[k] == old(entries)[k]
        invariant forall k :: k in pending ==> k in entries
        invariant forall k :: k in old(entries) && k !in pending ==>
                    (k in entries <==> !IsExpired(old(entries)[k], now))
        decreases pending
      {
        var key :| key in pending;
        if now - entries[key].timestamp > CacheDuration {
          entries := entries - {key};
        }
        pending := pending - {key};
      }
    }
  }
}
