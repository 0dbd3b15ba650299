/**
 The two places where the source's code departs from its own documentation and
 tests, modelled as written so that the departure can be exhibited. The rest of
 the model (module Kache) uses the documented behaviour.
 */
module KacheAsWritten {
  import opened Wrappers
  import opened Kache

  /** The expiry test as the source writes it, `expiry.After(now)`: true when the
      expiry instant is strictly later than `now`. */
  predicate IsExpiredAsWritten<V>(it: Item<V>, now: int)
  {
    it.expiry.Some? && it.expiry.value > now
  }

  /** The item the source's `Set` stores: the expiry is `now + ttl` for every TTL,
      zero included. Under the documented rule it is expired from `now + ttl` on,
      a zero TTL included; under the source's test it is "expired" exactly before. */
  function NewItemAsWritten<V>(value: V, ttl: int, now: int): (it: Item<V>)
    ensures it.value == value
    ensures forall t :: IsExpired(it, t) <==> now + ttl <= t
    ensures forall t :: IsExpiredAsWritten(it, t) <==> t < now + ttl
  {
    Item(value, Some(now + ttl))
  }

  /** The inverted test calls a fresh one-minute entry expired and one that
      expired a minute ago live, the opposite of the expiry test's expectations. */
  lemma InvertedExpiryExample<V>(v: V, now: int)
    ensures IsExpiredAsWritten(NewItemAsWritten(v, Minute, now), now)
    ensures !IsExpiredAsWritten(Item(v, Some(now - Minute)), now)
  {
  }

  /** What the source's `Get` and `Pop` report: a hit exactly when the key is
      present and the source's test calls it not expired. */
  function LookupAsWritten<K, V>(m: map<K, Item<V>>, key: K, now: int): (r: Option<V>)
    ensures r.Some? <==> key in m && !IsExpiredAsWritten(m[key], now)
    ensures r.Some? ==> r.value == m[key].value
  {
    if key in m && !IsExpiredAsWritten(m[key], now) then Some(m[key].value) else None
  }

  /** As written, a `Get` right after `Set(key, value, 1 minute)` misses, where the
      basic-operations test expects a hit; the corrected model hits. */
  lemma InvertedExpiryLosesFreshEntry<K, V>(m: map<K, Item<V>>, key: K, value: V, now: int)
    ensures LookupAsWritten(m[key := NewItemAsWritten(value, Minute, now)], key, now) == None
    ensures Lookup(Put(m, key, value, Minute, now), key, now) == Some(value)
  {
  }

  /** The corrected test agrees with the documented meaning at every instant:
      expired exactly when the expiry instant has been reached. */
  lemma CorrectedExpiryHoldsFromExpiryOn<V>(it: Item<V>, now: int)
    requires it.expiry.Some?
    ensures IsExpired(it, now) <==> now >= it.expiry.value
    ensures IsExpired(it, now) <==> !IsExpiredAsWritten(it, now)
  {
  }

  /** Under the documented expiry rule, the entry the source stores for a zero TTL
      is already expired at the instant of the `Set`, although a zero TTL is
      documented and tested to mean "never expires". (The inverted test hides
      this in the source: it calls such an entry live at every later instant.) */
  lemma ZeroTtlExpiresAsWritten<V>(value: V, now: int)
    ensures IsExpired(NewItemAsWritten(value, 0, now), now)
    ensures forall t :: t >= now ==> !IsExpiredAsWritten(NewItemAsWritten(value, 0, now), t)
  {
  }

  /** The corrected `Set` item differs from the as-written one only for a zero
      TTL, and there it never expires. */
  lemma CorrectedZeroTtl<V>(value: V, ttl: int, now: int)
    ensures ttl != 0 ==> NewItem(value, ttl, now) == NewItemAsWritten(value, ttl, now)
    ensures ttl == 0 ==> forall t :: !IsExpired(NewItem(value, ttl, now), t)
  {
  }
}
