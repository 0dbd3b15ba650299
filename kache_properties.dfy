/**
 Properties of the cache's operations, stated on the functions that specify the
 methods of `Kache.Kache`: what a `Get` sees after a `Set`, how `Delete`, `Pop`
 and the sweep pass change the store, and that lazy and eager eviction agree.
 */
module KacheProperties {
  import opened Wrappers
  import opened Kache

  /** The two items of the expiry test: one that expired a minute ago is expired,
      one that expires in a minute is not; an item without expiry never is. */
  lemma ExpiredExamples<V>(v: V, now: int)
    ensures IsExpired(Item(v, Some(now - Minute)), now)
    ensures !IsExpired(Item(v, Some(now + Minute)), now)
    ensures forall t :: !IsExpired(Item(v, None), t)
  {
  }

  /** Live turns into expired only by the passing of time, and never back. */
  lemma ExpiryIsPermanent<V>(it: Item<V>, t1: int, t2: int)
    requires IsExpired(it, t1) && t1 <= t2
    ensures IsExpired(it, t2)
  {
  }

  /** `Set` then `Get` before the TTL elapses (or with a zero TTL) is a hit on the
      value just set, and that `Get` leaves the store as `Set` made it. */
  lemma SetThenGet<K, V>(m: map<K, Item<V>>, key: K, value: V, ttl: int, now: int, later: int)
    requires ttl == 0 || later < now + ttl
    ensures Lookup(Put(m, key, value, ttl, now), key, later) == Some(value)
    ensures EvictIfExpired(Put(m, key, value, ttl, now), key, later) == Put(m, key, value, ttl, now)
  {
  }

  /** Once a non-zero TTL has elapsed, `Get` misses and drops the entry, leaving
      the store as if the key had never been set. */
  lemma SetThenGetAfterExpiry<K, V>(m: map<K, Item<V>>, key: K, value: V, ttl: int, now: int, later: int)
    requires ttl != 0 && now + ttl <= later
    ensures Lookup(Put(m, key, value, ttl, now), key, later) == None
    ensures EvictIfExpired(Put(m, key, value, ttl, now), key, later) == Remove(m, key)
  {
  }

  /** A zero TTL means the entry is a hit at every later instant. */
  lemma ZeroTtlNeverExpires<K, V>(m: map<K, Item<V>>, key: K, value: V, now: int)
    ensures forall later :: Lookup(Put(m, key, value, 0, now), key, later) == Some(value)
  {
  }

  /** A second `Set` on the same key replaces the first wholesale: nothing of the
      earlier value or expiry survives. */
  lemma SetReplacesWholesale<K, V>(m: map<K, Item<V>>, key: K,
                                   v1: V, ttl1: int, now1: int, v2: V, ttl2: int, now2: int)
    ensures Put(Put(m, key, v1, ttl1, now1), key, v2, ttl2, now2) == Put(m, key, v2, ttl2, now2)
  {
  }

  /** Repeating a `Get` at the same instant changes nothing more and sees the
      same answer. */
  lemma GetIsIdempotent<K, V>(m: map<K, Item<V>>, key: K, now: int)
    ensures EvictIfExpired(EvictIfExpired(m, key, now), key, now) == EvictIfExpired(m, key, now)
    ensures Lookup(EvictIfExpired(m, key, now), key, now) == Lookup(m, key, now)
  {
  }

  /** `Delete` is a no-op on an absent key, and deleting twice is deleting once. */
  lemma DeleteIdempotent<K, V>(m: map<K, Item<V>>, key: K)
    ensures key !in m ==> Remove(m, key) == m
    ensures Remove(Remove(m, key), key) == Remove(m, key)
  {
  }

  /** After a `Pop` (or a `Delete`) every later `Get` of that key misses and
      changes nothing. */
  lemma PopThenGet<K, V>(m: map<K, Item<V>>, key: K, later: int)
    ensures Lookup(Remove(m, key), key, later) == None
    ensures EvictIfExpired(Remove(m, key), key, later) == Remove(m, key)
  {
  }

  /** The Pop test: on a fresh cache, `Set("key1", 42, 1 minute)` then `Pop` hits
      42, a following `Get` misses, and a `Pop` of a key never set misses. */
  lemma PopScenario(now: int, t1: int, t2: int, t3: int)
    requires now <= t1 <= t2 <= t3 < now + Minute
    ensures var s1 := Put(map[], "key1", 42, Minute, now);
            && Lookup(s1, "key1", t1) == Some(42)
            && var s2 := Remove(s1, "key1");
               && Lookup(s2, "key1", t2) == None
               && EvictIfExpired(s2, "key1", t2) == map[]
               && Lookup(s2, "nonexistent", t3) == None
  {
  }

  /** A sweep is invisible to `Get` at the same instant: it only drops entries
      that `Get` would report as misses anyway. */
  lemma SweepUnobservable<K, V>(m: map<K, Item<V>>, key: K, now: int)
    ensures Lookup(Swept(m, now), key, now) == Lookup(m, key, now)
  {
  }

  /** Lazy eviction by `Get` and eager eviction by the sweep agree: a sweep after
      a `Get` leaves the same store as the sweep alone. */
  lemma LazyAndEagerEvictionAgree<K, V>(m: map<K, Item<V>>, key: K, now: int)
    ensures Swept(EvictIfExpired(m, key, now), now) == Swept(m, now)
  {
  }

  /** A later sweep subsumes an earlier one; in particular sweeping twice at the
      same instant is sweeping once. */
  lemma LaterSweepSubsumes<K, V>(m: map<K, Item<V>>, t1: int, t2: int)
    requires t1 <= t2
    ensures Swept(Swept(m, t1), t2) == Swept(m, t2)
  {
  }

  /** A sweep never grows the store. */
  lemma SweepShrinks<K, V>(m: map<K, Item<V>>, now: int)
    ensures |Swept(m, now)| <= |m|
  {
    var kept := Swept(m, now).Keys;
    assert m.Keys == kept + (m.Keys - kept);
  }

  /** When every entry has expired, a sweep empties the store. */
  lemma SweepReclaimsAll<K, V>(m: map<K, Item<V>>, now: int)
    requires forall k :: k in m ==> IsExpired(m[k], now)
    ensures |Swept(m, now)| == 0
  {
  }

  /** The automatic-cleanup scenario: two entries with a 50 ms TTL are both gone
      after a sweep six seconds later. */
  lemma CleanupScenario<K>(k1: K, k2: K, now: int)
    ensures var ms := 1000 * 1000;
            var s := Put(Put(map[], k1, 1, 50 * ms, now), k2, 2, 50 * ms, now);
            |Swept(s, now + 6000 * ms)| == 0
  {
  }
}
