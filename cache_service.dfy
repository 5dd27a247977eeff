/**
 * CacheService: an in-memory map from key to `{value, expiry}` whose entries
 * stop being served once the clock passes their expiry. The clock
 * (`new Date().getTime()`, in milliseconds) is the parameter `now`.
 */
module Cache {
  import opened Wrappers

  /** 15 minutes, in milliseconds. */
  const DefaultExpirationTime: int := 15 * 60 * 1000

  datatype Entry<V> = Entry(value: V, expiry: int)

  /** `customExpiry || this.expirationTime`: a missing or zero custom expiry
      falls back to the cache's own; any other number, negative ones included, is used. */
  function EffectiveTtl(customExpiry: Option<int>, expirationTime: int): (ttl: int)
    ensures customExpiry.Some? && customExpiry.value != 0 ==> ttl == customExpiry.value
    ensures customExpiry.None? || customExpiry.value == 0 ==> ttl == expirationTime
  {
    if customExpiry.Some? && customExpiry.value != 0 then customExpiry.value else expirationTime
  }

  /** What `get(key)` answers at time `now` when the cache holds `m`. An entry
      is served up to and including the instant of its expiry, never after. */
  function Lookup<K, V>(m: map<K, Entry<V>>, key: K, now: int): (r: Option<V>)
    ensures r.Some? <==> key in m && now <= m[key].expiry
    ensures r.Some? ==> r.value == m[key].value
  {
    if key !in m then None
    else if now > m[key].expiry then None
    else Some(m[key].value)
  }

  /** The entries `cleanExpired` keeps at time `now`. */
  function Unexpired<K, V>(m: map<K, Entry<V>>, now: int): (r: map<K, Entry<V>>)
    ensures forall k :: k in r ==> k in m && now <= m[k].expiry && r[k] == m[k]
    ensures forall k :: k in m && now <= m[k].expiry ==> k in r
  {
    map k | k in m && now <= m[k].expiry :: m[k]
  }

  class CacheService<K(==), V> {
    var cache: map<K, Entry<V>>
    const expirationTime: int

    constructor (expirationTime: int := DefaultExpirationTime)
      ensures cache == map[] && this.expirationTime == expirationTime
    {
      cache := map[];
      this.expirationTime := expirationTime;
    }

    /** `get`: an expired entry found on the way is deleted; nothing else changes. */
    method Get(key: K, now: int) returns (r: Option<V>)
      modifies this
      ensures r == Lookup(old(cache), key, now)
      ensures cache == if key in old(cache) && now > old(cache)[key].expiry
                       then old(cache) - {key} else old(cache)
    {
      if key !in cache {
        return None;
      }
      var cachedItem := cache[key];
      if now > cachedItem.expiry {
        Delete(key);
        return None;
      }
      return Some(cachedItem.value);
    }

    /** `set`: stores the value until `now` plus the effective time to live,
        replacing any older entry for the key and no other. */
    method Set(key: K, value: V, now: int, customExpiry: Option<int> := None)
      modifies this
      ensures cache == old(cache)[key := Entry(value, now + EffectiveTtl(customExpiry, expirationTime))]
    {
      var expiry := now + EffectiveTtl(customExpiry, expirationTime);
      cache := cache[key := Entry(value, expiry)];
    }

    method Delete(key: K)
      modifies this
      ensures cache == old(cache) - {key}
    {
      cache := cache - {key};
    }

    method Clear()
      modifies this
      ensures cache == map[]
    {
      cache := map[];
    }

    /** `cleanExpired`: walks the entries and deletes each one whose expiry has passed. */
    method CleanExpired(now: int)
      modifies this
      ensures cache == Unexpired(old(cache), now)
    {
      var entries := cache;
      var todo := cache.Keys;
      while todo != {}
        invariant todo <= entries.Keys
        invariant forall k :: k in todo ==> k in cache
        invariant forall k :: k in cache ==> k in entries && cache[k] == entries[k]
        invariant forall k :: k in entries && k !in todo ==> (k in cache <==> now <= entries[k].expiry)
        decreases todo
      {
        var key :| key in todo;
        if now > entries[key].expiry {
          Delete(key);
        }
        todo := todo - {key};
      }
      assert cache.Keys == Unexpired(entries, now).Keys;
    }
  }

  /** On any cache, a value read back at the instant it was stored, with a
      time to live that is not negative, is the value stored. */
  method SetThenGet<K(==), V>(c: CacheService<K, V>, key: K, value: V, now: int, customExpiry: Option<int>)
    returns (r: Option<V>)
    requires EffectiveTtl(customExpiry, c.expirationTime) >= 0
    modifies c
    ensures r == Some(value)
  {
    c.Set(key, value, now, customExpiry);
    r := c.Get(key, now);
  }

  /** Once the time to live has run out, the stored value is gone. */
  lemma StoredValueExpires<K, V>(m: map<K, Entry<V>>, key: K, value: V, now: int, ttl: int, later: int)
    requires later > now + ttl
    ensures Lookup(m[key := Entry(value, now + ttl)], key, later) == None
  {
  }

  /** A custom time to live on one key leaves every other key's answer as it was. */
  lemma SetLeavesOtherKeys<K, V>(m: map<K, Entry<V>>, key: K, other: K, value: V, expiry: int, now: int)
    requires other != key
    ensures Lookup(m[key := Entry(value, expiry)], other, now) == Lookup(m, other, now)
  {
  }

  /** Sweeping changes no answer `get` gives at the same instant. */
  lemma SweepPreservesLookups<K, V>(m: map<K, Entry<V>>, key: K, now: int)
    ensures Lookup(Unexpired(m, now), key, now) == Lookup(m, key, now)
  {
  }

  /** Sweeping twice at the same instant is sweeping once; a later sweep
      subsumes an earlier one. */
  lemma SweepIdempotent<K, V>(m: map<K, Entry<V>>, earlier: int, now: int)
    requires earlier <= now
    ensures Unexpired(Unexpired(m, now), now) == Unexpired(m, now)
    ensures Unexpired(Unexpired(m, earlier), now) == Unexpired(m, now)
  {
  }
}
