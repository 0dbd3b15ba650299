/**
 A model of `kache`, an in-process key-value cache whose entries expire after a
 time-to-live. Time is an explicit parameter `now` (nanoseconds, like Go's
 `time.Duration`); each operation is one atomic step on the store, which is the
 view the cache's single lock gives its callers.
 */
module Kache {
  import opened Wrappers

  /** One nanosecond-based minute, the TTL the tests use. */
  const Minute: int := 60 * 1000 * 1000 * 1000

  /** A cached value with its expiry instant; `None` means it never expires. */
  datatype Item<V> = Item(value: V, expiry: Option<int>)

  /** An item is expired once its expiry instant has been reached. The source
      tests `expiry.After(now)`, the inverse of its own doc comment and tests;
      this is the documented rule (see KacheAsWritten for the source's test). */
  predicate IsExpired<V>(it: Item<V>, now: int)
  {
    it.expiry.Some? && it.expiry.value <= now
  }

  /** The item `Set(key, value, ttl)` stores when called at `now`: a zero TTL never
      expires (as documented), any other TTL expires from `now + ttl` on (a negative
      TTL is already expired). */
  function NewItem<V>(value: V, ttl: int, now: int): (it: Item<V>)
    ensures it.value == value
    ensures forall t :: IsExpired(it, t) <==> ttl != 0 && now + ttl <= t
  {
    Item(value, if ttl == 0 then None else Some(now + ttl))
  }

  /** The store after `Set`: `key` holds the new item, every other key is untouched. */
  function Put<K, V>(m: map<K, Item<V>>, key: K, value: V, ttl: int, now: int): (r: map<K, Item<V>>)
    ensures r.Keys == m.Keys + {key}
    ensures r[key] == NewItem(value, ttl, now)
    ensures forall k :: k in r && k != key ==> r[k] == m[k]
  {
    m[key := NewItem(value, ttl, now)]
  }

  /** What `Get` and `Pop` report: a hit exactly when the key is present and not
      expired, and then the stored value. */
  function Lookup<K, V>(m: map<K, Item<V>>, key: K, now: int): (r: Option<V>)
    ensures r.Some? <==> key in m && !IsExpired(m[key], now)
    ensures r.Some? ==> r.value == m[key].value
    ensures r.Some? ==> m[key].expiry.None? || now < m[key].expiry.value
  {
    if key in m && !IsExpired(m[key], now) then Some(m[key].value) else None
  }

  /** The store after `Get`: the looked-up entry is dropped when it is expired,
      and nothing else changes. */
  function EvictIfExpired<K, V>(m: map<K, Item<V>>, key: K, now: int): (r: map<K, Item<V>>)
    ensures r.Keys == if key in m && IsExpired(m[key], now) then m.Keys - {key} else m.Keys
    ensures forall k :: k in r ==> r[k] == m[k]
  {
    if key in m && IsExpired(m[key], now) then m - {key} else m
  }

  /** The store after `Delete` or `Pop`: `key` is gone, nothing else changes. */
  function Remove<K, V>(m: map<K, Item<V>>, key: K): (r: map<K, Item<V>>)
    ensures r.Keys == m.Keys - {key}
    ensures forall k :: k in r ==> r[k] == m[k]
  {
    m - {key}
  }

  /** The store after one sweep pass: exactly the live entries, unchanged. */
  function Swept<K, V>(m: map<K, Item<V>>, now: int): (r: map<K, Item<V>>)
    ensures r.Keys <= m.Keys
    ensures forall k :: k in m ==> (k in r <==> !IsExpired(m[k], now))
    ensures forall k :: k in r ==> r[k] == m[k]
  {
    map k | k in m && !IsExpired(m[k], now) :: m[k]
  }

  /** The cache object: a map from key to item, updated in place. */
  class Kache<K(==), V> {
    var data: map<K, Item<V>>

    /** `New`: an empty store (the background sweep it starts is `Sweep`). */
    constructor ()
      ensures data == map[]
    {
      data := map[];
    }

    /** Looks `key` up at `now`; an expired entry found this way is evicted. */
    method Get(key: K, now: int) returns (r: Option<V>)
      modifies this
      ensures r == Lookup(old(data), key, now)
      ensures data == EvictIfExpired(old(data), key, now)
    {
      if key !in data {
        return None;
      }
      var it := data[key];
      if IsExpired(it, now) {
        data := data - {key};
        return None;
      }
      return Some(it.value);
    }

    /** Inserts or wholesale replaces the entry for `key`. */
    method Set(key: K, value: V, ttl: int, now: int)
      modifies this
      ensures data == Put(old(data), key, value, ttl, now)
    {
      data := data[key := NewItem(value, ttl, now)];
    }

    /** Removes `key` whether or not it is present. */
    method Delete(key: K)
      modifies this
      ensures data == Remove(old(data), key)
    {
      data := data - {key};
    }

    /** Removes `key` and reports its value if the removed entry was live. */
    method Pop(key: K, now: int) returns (r: Option<V>)
      modifies this
      ensures r == Lookup(old(data), key, now)
      ensures data == Remove(old(data), key)
    {
      if key !in data {
        return None;
      }
      var it := data[key];
      data := data - {key};
      if IsExpired(it, now) {
        return None;
      }
      return Some(it.value);
    }

    /** One pass of the background reaper: visits every key once and deletes
        each entry that is expired at `now`. */
    method Sweep(now: int)
      modifies this
      ensures data == Swept(old(data), now)
    {
      ghost var before := data;
      var pending := data.Keys;
      while pending != {}
        invariant pending <= before.Keys
        invariant data.Keys <= before.Keys
        invariant forall k :: k in data ==> data[k] == before[k]
        invariant forall k :: k in before ==> (k in data <==> k in pending || !IsExpired(before[k], now))
        decreases pending
      {
        var k :| k in pending;
        if IsExpired(data[k], now) {
          data := data - {k};
        }
        pending := pending - {k};
      }
    }
  }
}
