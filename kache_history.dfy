/**
 Histories of calls on one cache. Since every operation holds the cache's lock
 for its whole critical section, any run of concurrent callers and sweep passes
 is equivalent to some sequence of atomic calls; this module replays such a
 sequence on the store and proves what holds of every such run.
 */
module KacheHistory {
  import opened Wrappers
  import opened Kache

  /** One atomic call, carrying the instant it reads the clock at. */
  datatype Call<K, V> =
    | SetCall(key: K, value: V, ttl: int, now: int)
    | GetCall(key: K, now: int)
    | DeleteCall(key: K)
    | PopCall(key: K, now: int)
    | SweepCall(now: int)

  /** The store after one call. */
  function Apply<K, V>(m: map<K, Item<V>>, c: Call<K, V>): map<K, Item<V>>
  {
    match c
    case SetCall(k, v, ttl, now) => Put(m, k, v, ttl, now)
    case GetCall(k, now) => EvictIfExpired(m, k, now)
    case DeleteCall(k) => Remove(m, k)
    case PopCall(k, _) => Remove(m, k)
    case SweepCall(now) => Swept(m, now)
  }

  /** The store after a sequence of calls, first to last. */
  function Run<K, V>(m: map<K, Item<V>>, cs: seq<Call<K, V>>): map<K, Item<V>>
    decreases |cs|
  {
    if cs == [] then m else Run(Apply(m, cs[0]), cs[1..])
  }

  /** No call in `cs` is a `Set` of `key`. */
  predicate NeverSets<K(==), V>(cs: seq<Call<K, V>>, key: K)
  {
    forall i :: 0 <= i < |cs| ==> !(cs[i].SetCall? && cs[i].key == key)
  }

  /** Call `c` leaves the entry `it` of `key` in place: it does not set, delete or
      pop `key`, and it reads the clock only at instants where `it` is live. */
  predicate Spares<K(==), V>(c: Call<K, V>, key: K, it: Item<V>)
  {
    match c
    case SetCall(k, _, _, _) => k != key
    case GetCall(k, now) => k != key || !IsExpired(it, now)
    case DeleteCall(k) => k != key
    case PopCall(k, _) => k != key
    case SweepCall(now) => !IsExpired(it, now)
  }

  /** Without a `Set` of `key`, a run can only keep or drop the entry `key` had:
      no call creates or alters an entry it does not set. */
  lemma {:induction false} NoEntryWithoutSet<K, V>(m: map<K, Item<V>>, cs: seq<Call<K, V>>, key: K)
    requires NeverSets(cs, key)
    ensures key in Run(m, cs) ==> key in m && Run(m, cs)[key] == m[key]
    decreases |cs|
  {
    if cs != [] {
      assert NeverSets(cs[1..], key) by {
        forall i | 0 <= i < |cs[1..]| ensures !(cs[1..][i].SetCall? && cs[1..][i].key == key) {
          assert cs[1..][i] == cs[i + 1];
        }
      }
      NoEntryWithoutSet(Apply(m, cs[0]), cs[1..], key);
    }
  }

  /** A key that misses at `t0` misses at every later instant of any run that
      does not `Set` it: the only way from absent or expired back to live is a
      fresh `Set`. */
  lemma NoResurrection<K, V>(m: map<K, Item<V>>, cs: seq<Call<K, V>>, key: K, t0: int, t1: int)
    requires Lookup(m, key, t0) == None && t0 <= t1
    requires NeverSets(cs, key)
    ensures Lookup(Run(m, cs), key, t1) == None
  {
    NoEntryWithoutSet(m, cs, key);
  }

  /** An entry survives, unchanged, any run of calls that spare it: operations on
      other keys and sweeps or reads before its expiry never disturb it. */
  lemma {:induction false} SparedEntrySurvives<K, V>(m: map<K, Item<V>>, cs: seq<Call<K, V>>, key: K)
    requires key in m
    requires forall i :: 0 <= i < |cs| ==> Spares(cs[i], key, m[key])
    ensures key in Run(m, cs) && Run(m, cs)[key] == m[key]
    decreases |cs|
  {
    if cs != [] {
      var m' := Apply(m, cs[0]);
      assert Spares(cs[0], key, m[key]);
      assert key in m' && m'[key] == m[key];
      forall i | 0 <= i < |cs[1..]| ensures Spares(cs[1..][i], key, m'[key]) {
        assert cs[1..][i] == cs[i + 1];
      }
      SparedEntrySurvives(m', cs[1..], key);
    }
  }

  /** A value set with a TTL is still a hit at any instant before its expiry,
      after any run of calls in between that spare it. */
  lemma SetSurvivesSparingRun<K, V>(m: map<K, Item<V>>, key: K, value: V, ttl: int, now: int,
                                    cs: seq<Call<K, V>>, later: int)
    requires forall i :: 0 <= i < |cs| ==> Spares(cs[i], key, NewItem(value, ttl, now))
    requires ttl == 0 || later < now + ttl
    ensures Lookup(Run(m, [SetCall(key, value, ttl, now)] + cs), key, later) == Some(value)
  {
    var s := Put(m, key, value, ttl, now);
    var all := [SetCall(key, value, ttl, now)] + cs;
    assert all[1..] == cs;
    assert Run(m, all) == Run(s, cs);
    SparedEntrySurvives(s, cs, key);
  }
}
