# kache: a verified model of an expiring key-value cache

`kache` is an in-process Go cache. It maps keys to values, each value carrying
an optional expiry instant. Four operations act on it:

- `Set` inserts an entry or replaces it wholesale.
- `Get` is a lookup, but it also evicts an entry it finds expired.
- `Delete` removes a key unconditionally.
- `Pop` removes a key and reports whether the removed entry was live.

A background goroutine started by `New` sweeps the store every five seconds. Each
pass deletes every expired entry.

The model works as follows:

- The clock is an explicit argument `now`, an integer count of nanoseconds, the
  unit of Go's `time.Duration`.
- Each call is one atomic step, which is what the cache's single lock is for.
- `kache.dfy` has two parts:
  - The data model and one *specification function* per operation. Each
    function works on the store as a `map` value: `Put`, `Lookup`,
    `EvictIfExpired`, `Remove` and `Swept`.
  - The class `Kache`, whose `data: map<K, Item<V>>` field the methods update in
    place. Every method's postcondition ties the new `data`, and the result, to
    the specification function applied to `old(data)`. The sweep is a loop that
    visits each key once and deletes the expired ones, as the goroutine does.
- `kache_properties.dfy` proves what the tests and doc comments promise about
  those functions. Examples: Set-then-Get round trips, a zero TTL never expiring,
  Delete being idempotent, Pop leaving the key absent. It also shows that a sweep
  keeps exactly the live entries and that eviction by `Get` and by the sweep
  agree.
- `kache_history.dfy` replays sequences of atomic calls. It proves two facts by
  induction:
  - No call except a `Set` of a key creates or changes that key's entry.
  - An entry survives every call that does not touch its key before it expires.
- `kache_as_written.dfy` models two places where the code contradicts its own doc
  comments and tests, exactly as written (see Findings).

Where the code contradicts its doc comments and tests, the model follows the doc
comments and tests:

- `isExpired` returns `expiry.After(now)`. Its doc comment and its test say the
  opposite: an item is expired once its expiry has been reached. The model's
  `IsExpired` holds when an expiry is set and is at most `now`. The tests do not
  pin the boundary instant. The model counts the expiry instant itself as
  expired; neither the Go code nor its tests decide that boundary.
- `Set` stores `now + ttl` even for a zero TTL. The doc comment and the test say a
  zero TTL never expires, so `NewItem` stores no expiry for a zero TTL. A
  negative TTL gives an entry that is already expired.
- On an expired hit, `Get` and `Pop` return the stale value together with
  `false`. The test expects the zero value. The model returns `Option<V>`, so a
  miss, expired or absent, carries no value at all.

## Model

| member | source | states |
|---|---|---|
| `Kache.IsExpired` | kache.go:42-46 | expired iff an expiry is set and it is at most `now`; an item without expiry is never expired |
| `Kache.NewItem` | kache.go:96-105 | the stored item keeps the value; it is expired at `t` exactly when the TTL is non-zero and `now + ttl <= t`, so a zero TTL never expires |
| `Kache.Put` | kache.go:98-105 | after `Set`, the key holds the new item; every other key keeps its entry, and no key appears or disappears except the set one |
| `Kache.Lookup` | kache.go:82-93 | Get/Pop report a hit iff the key is present and not expired; a hit carries the stored value, whose expiry is unset or strictly after `now` |
| `Kache.EvictIfExpired` | kache.go:84-93 | after `Get`, the key is removed iff it was present and expired; every remaining entry is unchanged |
| `Kache.Remove` | kache.go:108-112 | after `Delete`/`Pop`, the key is absent, every other key is present iff it was, and all remaining entries are unchanged |
| `Kache.Swept` | kache.go:64-70 | a sweep keeps exactly the entries live at `now`, each unchanged, and adds none |
| `Kache.Kache.constructor` | kache.go:56-59 | `New` starts with an empty store |
| `Kache.Kache.Get` | kache.go:79-94 | returns `Lookup` of the old store; the new store is `EvictIfExpired` of the old one |
| `Kache.Kache.Set` | kache.go:98-105 | the new store is `Put` of the old one |
| `Kache.Kache.Delete` | kache.go:108-112 | the new store is `Remove` of the old one, an absent key included |
| `Kache.Kache.Pop` | kache.go:115-131 | returns `Lookup` of the old store, so a hit iff the key was present and live; the new store is `Remove` of the old one |
| `Kache.Kache.Sweep` | kache.go:64-70 | one pass of the loop over all keys leaves `Swept` of the old store |
| `KacheProperties.ExpiredExamples` | kache_test.go:227-244 | an item that expired a minute ago is expired; one expiring in a minute is not; one without expiry never is |
| `KacheProperties.ExpiryIsPermanent` | kache.go:42-46 | an item expired at `t1` is expired at every `t2 >= t1` |
| `KacheProperties.SetThenGet` | kache_test.go:13-22 | `Get` after `Set` before the TTL elapses, or with a zero TTL, returns the value set and leaves the store unchanged |
| `KacheProperties.SetThenGetAfterExpiry` | kache_test.go:77-93 | once a non-zero TTL has elapsed, `Get` misses and the store is as if the key had been deleted |
| `KacheProperties.ZeroTtlNeverExpires` | kache_test.go:112-125 | after `Set` with a zero TTL, `Get` hits with the value at every later instant |
| `KacheProperties.SetReplacesWholesale` | kache.go:101-104 | a second `Set` of a key erases every trace of the first |
| `KacheProperties.GetIsIdempotent` | kache.go:82-93 | a second `Get` at the same instant sees the same answer and changes nothing more |
| `KacheProperties.DeleteIdempotent` | kache_test.go:31-44 | `Delete` of an absent key is a no-op; deleting twice equals deleting once |
| `KacheProperties.PopThenGet` | kache_test.go:59-63 | after `Pop`, every later `Get` of that key misses and changes nothing |
| `KacheProperties.PopScenario` | kache_test.go:46-69 | on a fresh cache, `Set("key1", 42, 1 minute)` then `Pop` hits 42, a following `Get` misses and leaves the store empty, and a `Pop` of a key never set misses |
| `KacheProperties.SweepUnobservable` | kache.go:64-70 | a sweep does not change what `Get` reports at the same instant |
| `KacheProperties.LazyAndEagerEvictionAgree` | kache.go:88-89 | sweeping after a `Get` gives the same store as sweeping alone |
| `KacheProperties.LaterSweepSubsumes` | kache.go:62-70 | a later sweep after an earlier one equals the later sweep alone; sweeping twice equals sweeping once |
| `KacheProperties.SweepShrinks` | kache.go:65-69 | a sweep never increases the number of entries |
| `KacheProperties.SweepReclaimsAll` | kache.go:64-70 | when every entry is expired, a sweep leaves the store empty |
| `KacheProperties.CleanupScenario` | kache_test.go:96-110 | two entries with a 50 ms TTL are gone after a sweep six seconds later |
| `KacheHistory.NoEntryWithoutSet` | kache.go:79-131 | over any sequence of calls with no `Set` of a key, that key's entry can only stay unchanged or vanish |
| `KacheHistory.NoResurrection` | kache.go:42-46 | a key that misses at `t0` still misses at any `t1 >= t0` after any sequence of calls that does not set it |
| `KacheHistory.SparedEntrySurvives` | kache.go:62-131 | an entry survives unchanged through calls that do not set, delete or pop its key and read the clock only while it is live |
| `KacheHistory.SetSurvivesSparingRun` | kache.go:98-131 | a value set with a TTL is still a hit before its expiry after any such run of calls |
| `KacheAsWritten.IsExpiredAsWritten` | kache.go:44-46 | the source's test `expiry.After(now)`: true while the expiry is still strictly in the future |
| `KacheAsWritten.NewItemAsWritten` | kache.go:101-104 | the item the source's `Set` stores keeps the value; under the documented rule it is expired exactly from `now + ttl` on, so a zero TTL expires at once; under the source's test it counts as expired exactly before `now + ttl` |
| `KacheAsWritten.LookupAsWritten` | kache.go:82-93 | the source's `Get`/`Pop` report a hit iff the key is present and the source's test calls it not expired, carrying the stored value |
| `KacheAsWritten.InvertedExpiryExample` | kache.go:44-46 | the source's test calls a fresh one-minute item expired and an item that expired a minute ago live |
| `KacheAsWritten.InvertedExpiryLosesFreshEntry` | kache.go:88-91 | as written, `Get` right after a one-minute `Set` misses, while the corrected `Lookup` hits with the value set |
| `KacheAsWritten.CorrectedExpiryHoldsFromExpiryOn` | kache.go:42-43 | the corrected test holds exactly from the expiry instant on, the complement of the source's test |
| `KacheAsWritten.ZeroTtlExpiresAsWritten` | kache.go:103 | under the documented expiry rule, the item the source stores for a zero TTL is expired at the instant it is set |
| `KacheAsWritten.CorrectedZeroTtl` | kache.go:96-97 | the corrected item equals the source's for every non-zero TTL and never expires for a zero TTL |

## Findings

| source | as written | input that shows it | evidently intended | confidence | as-written member | corrected member |
|---|---|---|---|---|---|---|
| kache.go:45 | an item is expired when its expiry is strictly after now | `Set(k, v, 1 minute)` then `Get(k)` at once: reported as a miss | expired once the expiry has been reached, as the doc comment at kache.go:42-43 and kache_test.go:227-244 say | high; not executed | `KacheAsWritten.InvertedExpiryLosesFreshEntry` | `KacheProperties.SetThenGet` |
| kache.go:103 | the expiry is set to now + ttl even when ttl is 0 | `Set(k, v, 0)` then `Get(k)` at any instant from then on, with the corrected expiry test: reported as a miss | a zero TTL never expires, as the doc comment at kache.go:96-97 and kache_test.go:112-125 say | high; not executed | `KacheAsWritten.ZeroTtlExpiresAsWritten` | `KacheProperties.ZeroTtlNeverExpires` |

The second defect is hidden in the source by the first. As written, an item
with expiry `now` is called live at every later instant, so the zero-TTL test
happens to agree with the documentation.

## Left out

- The background goroutine and its `time.Tick(5 * time.Second)` schedule (kache.go:62-63) are left out. Only one sweep pass is modelled, as `Kache.Sweep`; when it runs is scheduling, not logic.
- The `sync.RWMutex` is left out. Each operation is taken as atomic, which is what the lock is meant to give. `Get` deletes while holding only the read lock (kache.go:80-89), which is a data race; a sequential model cannot express it.
- `Kache.Kache.Sweep`: one pass is modelled at a single instant `now`. The source reads the clock again for every entry it visits (kache.go:66 calls `isExpired`, which reads `time.Now()`), so a real pass removes a set of keys that lies between what `Swept` removes at the first and at the last instant of the pass; an entry whose expiry falls during the pass may or may not be removed.
- Reads of the wall clock (`time.Now()`) are replaced by the `now` argument. Clock skew and monotonic-clock behaviour are not modelled.
- Expiry instants are unbounded integers in nanoseconds, not `time.Time` values. `now + ttl` never overflows in the model.
- The `Kacher` interface (kache.go:28-33) is left out. Its two-argument `Set` does not match `Kache.Set`, so `Kache` does not implement it, and there is nothing to verify.
- The concurrency test (kache_test.go:144-179) exercises goroutines and locking, which are left out. The call histories in `KacheHistory` cover the sequential view of such runs.
- The mixed-type test (kache_test.go:181-224) exercises Go generics; the model's type parameters `K` and `V` cover it.
- On a miss, `Get` and `Pop` return no value at all. The source returns Go's zero value for an absent key and the stale stored value for an expired one.
