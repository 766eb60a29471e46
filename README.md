# Memory cache storage adapter, modelled in Dafny

This project models the storage engine of the laminas in-process memory cache adapter
(`src/Memory.php`): a non-persistent key/value cache held in one nested map,
namespace → (key → entry), with lazy time-to-live expiry, tags, prefix and namespace
clearing, and an optional memory-budget admission check for new writes. It also models
the entry record (`CacheItem`), the `Metadata` value object and the `maxItems` option of
`MemoryOptions`.

Files and modules:

- `wrappers.dfy` — `Wrappers`: `Option`, `Result`, and `Error` (OutOfSpaceException
  with the configured limit, InvalidArgumentException with its message).
- `cache_item.dfy` — `CacheItemRecord`: the entry datatype `CacheItem<V>` (value,
  created, lastModified, expires, tags) and the entry invariant `Consistent`.
- `metadata.dfy` — `MetadataRecord`: `Metadata(mtime, ctime)`.
- `memory_options.dfy` — `MemoryOptionsConfig`: class `MemoryOptions` with its
  `maxItems` field, the validated setter and the getter.
- `memory_spec.dfy` — `MemorySpec`: every operation of the engine as a pure function
  from the store before the call to a `Step(result, store after)`. The inputs the PHP
  code reads from outside are parameters: `now` (the clock reading, one per operation),
  `Config(namespace, ttl, memoryLimit)` (the active options) and `usage` (the
  `memory_get_usage` figure). Also the pure helpers: expiry computation, admission
  check, available space, and `array_diff` with the tag match of `clearByTags`.
- `memory.dfy` — `MemoryAdapter`: class `Memory<V>` whose field `data` every method
  updates in place, each method proved to return and leave exactly what its `MemorySpec`
  function says; the three `foreach` loops that work on a copy of a namespace map as
  loop methods; and two client scenarios that mirror the unit tests.
- `memory_properties.dfy` — `MemoryProperties`: the promised properties, proved as
  lemmas about the `MemorySpec` functions (and so, through the method contracts, about
  the object).

Notes on the source, where the model follows the code:

- `CacheItem`'s constructor begins with a `key` parameter (src/Memory/CacheItem.php:20),
  but every construction in src/Memory.php (lines 337, 380, 397) passes the value first
  and no key. The record here has the field order those call sites intend and no key.
- The ttl is compared with 1 before it is rounded (src/Memory.php:493-497): 0.6 never
  expires even though it would round to 1.
- `round($ttl, PHP_ROUND_HALF_UP)` (src/Memory.php:497) passes the rounding mode as the
  precision argument, whose value it shares (1): the ttl is rounded to one decimal and the
  `(int)` cast truncates it, so 1.5 s lasts one second. See "## Findings"; the
  operations use the evidently intended whole-second half-up rounding (`ExpiresAt`), and
  `ExpiresAtAsWritten` records the code as written.
- Only `remove` prunes a namespace that became empty (src/Memory.php:413-416); an
  expiry drop, `clearExpired`, `clearByPrefix` and `clearByTags` can leave an empty
  namespace map behind (lemma `ExpiryLeavesEmptyNamespace`).
- `maxItems` is stored and validated but never read by the engine: there is no
  item-count eviction and no batch pre-filtering in the code, so none is modelled.
- `setTags` does not check expiry (src/Memory.php:229); `getTags` does.
- `getIterator` physically unsets the expired keys it meets, because it asks
  `internalHasItem` about each key (src/Memory.php:127); its effect on the store is that
  of `clearExpired`.
- `replace` writes an entry without tags; `touch` carries the tags over.
- `add` checks the memory budget before it checks whether the key is live.
- `clearByTags` with an empty tag list in conjunction mode removes every entry that has
  at least one tag (the difference of an empty list is empty), and in disjunction mode
  removes nothing.

## Model

| member | source | states |
|---|---|---|
| `MemorySpec.ExpiresAt` | src/Memory.php:491-510 | the intended expiry: ttl < 1 gives PHP_INT_MAX; otherwise the expiry lies after now and the distance from now is ttl rounded half up to whole seconds (within half a second of ttl, ties upward) |
| `MemorySpec.ExpiresAtAsWritten` | src/Memory.php:493-497 | the expiry as the code computes it: ttl < 1 gives PHP_INT_MAX; otherwise the distance from now is ttl rounded to one decimal and truncated (at most ttl + 0.05, more than ttl − 1.05) |
| `MemorySpec.TotalSpace` | src/Memory.php:97-100 | the total space is the bound of the admission check (admitted iff total ≤ 0 or usage < total) and of getAvailableSpace (total − usage when positive, else 0) |
| `MemorySpec.HasAvailableSpace` | src/Memory.php:448-459 | writes are admitted exactly when the limit is ≤ 0 or the usage is below it |
| `MemorySpec.AvailableSpace` | src/Memory.php:107-112 | the limit minus the usage, clamped at zero |
| `MemorySpec.ArrayDiff` | src/Memory.php:265 | array_diff keeps exactly the query tags absent from the entry's tags, never more elements than the query |
| `MemoryAdapter.KeepLive` | src/Memory.php:159-166 | the loop leaves exactly the entries whose expiry is after now, unchanged |
| `MemoryAdapter.DropPrefixed` | src/Memory.php:208-215 | the loop leaves exactly the keys that do not start with the prefix |
| `MemoryAdapter.DropTagged` | src/Memory.php:261-272 | the loop leaves exactly the entries the tag query does not match; an entry without tags is always kept |
| `MemoryAdapter.Memory.constructor` | src/Memory.php:54 | a new adapter holds no namespaces |
| `MemoryAdapter.Memory.FetchLive` | src/Memory.php:461-475 | returns the entry iff present and now < expires; an expired entry is unset from its namespace |
| `MemoryAdapter.Memory.Persist` | src/Memory.php:480-486 | stores the entry under the key in the namespace, creating it if needed; returns true |
| `MemoryAdapter.Memory.GetItem` | src/Memory.php:282-292 | returns the value exactly when a live entry exists; store as `MemorySpec.GetItem` |
| `MemoryAdapter.Memory.HasItem` | src/Memory.php:297-300 | true exactly for a live entry; store as `MemorySpec.HasItem` |
| `MemoryAdapter.Memory.GetMetadata` | src/Memory.php:305-316 | null for absent or expired; otherwise mtime = lastModified and ctime = created |
| `MemoryAdapter.Memory.GetTags` | src/Memory.php:241-249 | the tags of a live entry, false otherwise, with the expiry drop |
| `MemoryAdapter.Memory.GetIterator` | src/Memory.php:119-134 | the loop returns the live keys of the active namespace and purges its expired keys |
| `MemoryAdapter.Memory.SetItem` | src/Memory.php:323-338 | OutOfSpace exactly when 0 < limit ≤ usage; otherwise a fresh entry is stored |
| `MemoryAdapter.Memory.AddItem` | src/Memory.php:343-361 | OutOfSpace exactly when 0 < limit ≤ usage; false leaves the store unchanged |
| `MemoryAdapter.Memory.ReplaceItem` | src/Memory.php:366-381 | replaces exactly when a live entry exists, with no memory check |
| `MemoryAdapter.Memory.TouchItem` | src/Memory.php:386-398 | refreshes exactly when a live entry exists |
| `MemoryAdapter.Memory.RemoveItem` | src/Memory.php:403-419 | removes exactly when a live entry exists, pruning an emptied namespace |
| `MemoryAdapter.Memory.SetTags` | src/Memory.php:225-236 | succeeds exactly when the entry is present (expired or not) and writes its tags |
| `MemoryAdapter.Memory.Flush` | src/Memory.php:141-145 | returns true and leaves no namespace |
| `MemoryAdapter.Memory.ClearExpired` | src/Memory.php:152-169 | returns true; the loop on a copy of the active namespace removes exactly its expired entries and the copy is written back (see `ClearExpiredExact`) |
| `MemoryAdapter.Memory.ClearByNamespace` | src/Memory.php:174-187 | InvalidArgument exactly for the empty namespace, with the store unchanged |
| `MemoryAdapter.Memory.ClearByPrefix` | src/Memory.php:192-218 | InvalidArgument exactly for the empty prefix, with the store unchanged; otherwise the loop on a copy removes the keys with that prefix |
| `MemoryAdapter.Memory.ClearByTags` | src/Memory.php:254-275 | returns true; the loop on a copy of the active namespace removes exactly the tagged entries the query matches and the copy is written back (see `ClearByTagsExact`) |
| `MemoryAdapter.MetadataScenario` | test/unit/MemoryTest.php:40-63 | on a fresh object: set at t gives ctime = mtime = t; touch two days later gives ctime = t, mtime = t + 2 days |
| `MemoryAdapter.OutOfSpaceScenario` | test/unit/MemoryTest.php:32-38 | a limit 8 bytes below the usage makes addItem throw OutOfSpace carrying that limit |
| `MemoryProperties.LookupAndExpiry` | src/Memory.php:461-475 | a lookup misses iff the namespace or key is missing or now ≥ expires; an expired key alone leaves its namespace, nothing else changes |
| `MemoryProperties.ExpiryExamples` | src/Memory.php:493-497 | in both definitions 0 and 0.6 never expire and 1, 1.4 and 1.96 give 1, 1, 2 seconds; 1.5, 1.7 and 2.5 give 2, 2, 3 seconds as intended but 1, 1, 2 as written |
| `MemoryProperties.ExpiryRoundingDiscrepancy` | src/Memory.php:497 | with ttl 1.5 the code's expiry is now + 1, the intended one now + 2, so the written entry already misses a lookup at now + 1 while the intended one is live |
| `MemoryProperties.ExpiryAsWrittenNoLater` | src/Memory.php:497 | for ttl ≥ 1 the code's expiry lies between now + ⌊ttl⌋ and the intended expiry, and is one second short exactly when the fractional part of ttl lies in [0.5, 0.95) |
| `MemoryProperties.SetThenRead` | src/Memory.php:323-337 | after a set, get, has, getMetadata (ctime = mtime = now), getTags (empty) and the iterator all see the entry until it expires, without changing the store |
| `MemoryProperties.SetThenGetWithoutLimits` | src/Memory.php:493-495 | with limit ≤ 0 and ttl < 1, set then get returns the value and has is true at any later timestamp |
| `MemoryProperties.ExpiredAfterTtl` | src/Memory.php:469-472 | once now ≥ creation + round(ttl), get, has, getMetadata, getTags and the iterator treat the key as absent, and get unsets it |
| `MemoryProperties.NamespaceIsolation` | src/Memory.php:323-337 | a set in one namespace leaves every other namespace's map as it was, so get, has and getMetadata there answer as before; a key absent there stays unfound |
| `MemoryProperties.AddSemantics` | src/Memory.php:343-361 | OutOfSpace comes first even for a live key; a live key gives false and no change; otherwise add stores and returns exactly what set does |
| `MemoryProperties.PutAfterDrop` | src/Memory.php:354-359 | dropping an expired entry and then writing the key stores the same as writing over it |
| `MemoryProperties.AddIsExclusive` | src/Memory.php:354-357 | a second add before the first entry expires returns false and get still yields the first value |
| `MemoryProperties.MemoryAdmission` | src/Memory.php:327-332 | set and add fail with OutOfSpace(limit) exactly when 0 < limit ≤ usage, leaving the store unchanged; limit ≤ 0 always admits |
| `MemoryProperties.AvailableSpaceAgreesWithAdmission` | src/Memory.php:97-112 | with a positive total space a write is admitted iff available space is positive, and available ≤ total |
| `MemoryProperties.ReplaceSemantics` | src/Memory.php:366-381 | false for absent or expired; otherwise created kept, new value, lastModified = now, expiry from the current ttl, no tags, nothing else changed |
| `MemoryProperties.TouchSemantics` | src/Memory.php:386-398 | false for absent or expired; otherwise value, created and tags kept, lastModified = now, expiry from the current ttl, nothing else changed |
| `MemoryProperties.ReplaceKeepsCreation` | src/Memory.php:380 | set at t0 then replace at t1: metadata ctime t0, mtime t1, and get returns the new value |
| `MemoryProperties.MetadataAfterSetAndTouch` | test/unit/MemoryTest.php:40-63 | set at t gives ctime = mtime = t; touch at t + 2 days keeps ctime = t and sets mtime = t + 2 days |
| `MemoryProperties.RemoveSemantics` | src/Memory.php:403-419 | true iff live; the key is deleted, the namespace too when it was the last key, other namespaces untouched |
| `MemoryProperties.ExpiryLeavesEmptyNamespace` | src/Memory.php:160-166 | an expiry drop and clearExpired can leave an empty namespace map |
| `MemoryProperties.SetTagsIgnoresExpiry` | src/Memory.php:229-234 | setTags succeeds on a present but expired entry, while getTags reports it missing |
| `MemoryProperties.SetTagsChangesOnlyTags` | src/Memory.php:225-236 | true iff the entry is present; only that entry's tags change |
| `MemoryProperties.DiffOfDisjoint` | src/Memory.php:265 | array_diff of a query sharing no tag with the entry is the whole query |
| `MemoryProperties.DiffOfShared` | src/Memory.php:265 | array_diff of a query sharing a tag with the entry is shorter than the query |
| `MemoryProperties.DisjunctionMatchesAnyTag` | src/Memory.php:264-266 | disjunction matches iff the entry has tags and at least one queried tag |
| `MemoryProperties.ConjunctionMatchesAllTags` | src/Memory.php:264-266 | conjunction matches iff the entry has tags and every queried tag |
| `MemoryProperties.ClearByTagsExact` | src/Memory.php:254-275 | clearByTags removes from the active namespace exactly the entries the query matches; an untagged entry is always kept; no other namespace changes |
| `MemoryProperties.TagQueryExample` | src/Memory.php:263-270 | A tagged x,y and B tagged x: conjunction of x,y removes only A, disjunction removes both |
| `MemoryProperties.EmptySelectorsRejected` | src/Memory.php:181-201 | clearByNamespace("") and clearByPrefix("") raise InvalidArgument and change nothing |
| `MemoryProperties.ClearByNamespaceExact` | src/Memory.php:185 | a non-empty namespace is dropped and every other namespace kept |
| `MemoryProperties.ClearByPrefixExact` | src/Memory.php:203-215 | exactly the active-namespace keys starting with the prefix go; other namespaces untouched |
| `MemoryProperties.ClearExpiredExact` | src/Memory.php:152-169 | returns true; exactly the active-namespace entries with now ≥ expires go; other namespaces untouched |
| `MemoryProperties.FlushEmpties` | src/Memory.php:141-145 | flush returns true and leaves no namespace, so every later get misses |
| `MemoryProperties.IteratorIsLiveKeys` | src/Memory.php:124-130 | the iterator yields exactly the keys a lookup finds live, and leaves the store clearExpired would |
| `MemoryProperties.WritesKeepWellFormed` | src/Memory/CacheItem.php:14-16 | with a clock that does not run backwards, set, add, replace and touch each keep created ≤ lastModified < expires for every entry, and each keeps the clock ahead of every stored modification |
| `MemoryProperties.RemovalsKeepWellFormed` | src/Memory.php:141-275 | reads, remove, setTags and every clear keep created ≤ lastModified < expires for every entry |
| `MemoryProperties.RemovalsKeepNotBefore` | src/Memory.php:141-275 | reads, remove, setTags and every clear keep the clock ahead of every stored modification |
| `MemoryProperties.InvariantAcrossOperations` | src/Memory/CacheItem.php:14-16 | from an empty store, set at t1, setTags, replace at t2 and clearExpired at t3 (t1 ≤ t2 ≤ t3) leave every entry created ≤ lastModified < expires |
| `MemoryOptionsConfig.MemoryOptions.constructor` | src/MemoryOptions.php:11-14 | maxItems starts at UNLIMITED_ITEMS = 0 |
| `MemoryOptionsConfig.MemoryOptions.SetMaxItems` | src/MemoryOptions.php:19-33 | a negative count raises InvalidArgument and leaves maxItems unchanged; otherwise stores it and returns the same object |
| `MemoryOptionsConfig.MemoryOptions.GetMaxItems` | src/MemoryOptions.php:38-41 | returns the stored count, a non-negative number |
| `MemoryOptionsConfig.SetThenGetMaxItems` | test/unit/MemoryOptionsTest.php:20-25 | a new options object reports 0, and after setMaxItems(n) reports n |

## Left out

- The clock (`Psr\Clock\ClockInterface`, the default `Clock` with its time zone): each operation takes one integer reading `now`; the PHP code may read the clock again inside a loop or in the expiry helper, which the model treats as the same instant.
- `memory_get_usage` and the float arithmetic of `hasAvailableSpace`/`getAvailableSpace`: the usage is an integer input and the arithmetic is exact on integers.
- `MemorySpec.ExpiresAt`: PHP's float `round` pre-rounding and the 64-bit overflow of `now + ttl` for huge ttl values are not modelled; ttl is an exact real number. The same holds for `MemorySpec.ExpiresAtAsWritten`.
- `MemorySpec.SetItem`, `MemorySpec.AddItem`, `MemorySpec.ReplaceItem`, `MemorySpec.TouchItem` and the methods of `MemoryAdapter.Memory` that follow them store the intended expiry (`ExpiresAt`), not the one-decimal-then-truncate value of the code as written (`ExpiresAtAsWritten`); the two differ by one second exactly when the fractional part of the ttl lies in [0.5, 0.95), see "## Findings".
- `MemorySpec.AddItem`: `internalAddItem` reads `memory_get_usage` twice, once in its own admission check and once more in the check of `internalSetItem` (src/Memory.php:347, 359 → 327); the model passes one usage figure to both, so a usage that crosses the limit between the two reads (the second check throwing OutOfSpace after the first passed) is not captured.
- The "interval cannot be created" exception of `calculateExpireTimestampBasedOnTtl`: an integer number of seconds always converts, so the branch is unreachable.
- `setOptions`/`getOptions` and the generic `AdapterOptions` (namespace, ttl, memory limit): not part of this model; those three values form the `Config` input.
- `KeyListIterator`: not part of this model; `getIterator` yields the set of live keys, so the insertion order of PHP arrays is not captured.
- PHP's conversion of numeric-string array keys to integers: keys are strings throughout.
- The capabilities descriptor (src/Memory.php:426-444): a constant record with no behaviour.
- Object identity of `CacheItem`: entries are values; the only in-place write to an entry object (the tags in `setTags`) is modelled as replacing the entry with a copy whose tags differ, which is equivalent because no other reference to the object escapes.
- `MemoryFactory` and `AdapterPluginManagerDelegatorFactory`: container wiring, not part of this model.
- The key-normalisation and event plumbing of the abstract adapter base class that calls the `internal*` methods: not part of this model.

## Findings

| source | as written | input that shows it | evidently intended | confidence | as-written member | corrected member |
|---|---|---|---|---|---|---|
| src/Memory.php:497 | `(int) round($ttl, PHP_ROUND_HALF_UP)` passes the mode constant (1) as the precision, so the ttl is rounded to one decimal and then truncated | ttl 1.5 at now: expiry now + 1 instead of now + 2 (also 1.7 → now + 1, 2.5 → now + 2) | round half up to whole seconds: now + ⌊ttl + 0.5⌋ | high (PHP's documented signature of `round`); not executed | `MemorySpec.ExpiresAtAsWritten`, `MemoryProperties.ExpiryRoundingDiscrepancy` | `MemorySpec.ExpiresAt` |
