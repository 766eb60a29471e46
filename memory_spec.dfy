/** The storage engine of src/Memory.php as pure functions over its one field, the nested
    map namespace -> (key -> entry). Every operation takes the store before the call and
    gives back a Step: what the PHP method returns (or throws) and the store after it.
    The clock, the active options and the process memory usage are parameters: `now` is
    the single clock reading of the operation, `usage` the memory_get_usage figure. */
module MemorySpec {
  import opened Wrappers
  import opened CacheItemRecord
  import opened MetadataRecord

  /** PHP_INT_MAX on a 64-bit build: the `expires` of an entry that never expires. */
  const PHP_INT_MAX: nat := 0x7FFF_FFFF_FFFF_FFFF

  type Items<V> = map<string, CacheItem<V>>
  type Store<V> = map<string, Items<V>>

  /** The part of the adapter options the engine reads: the active namespace, the ttl in
      seconds (an int or a float in PHP) and the memory limit in bytes. */
  datatype Config = Config(namespace: string, ttl: real, memoryLimit: int)

  /** The outcome of one operation: its result and the store it leaves. */
  datatype Step<R, V> = Step(result: R, store: Store<V>)

  // ---------------------------------------------------------------------------
  // Pure helpers

  /** calculateExpireTimestampBasedOnTtl as intended: a ttl below one second never
      expires; any other ttl is rounded half up to whole seconds and added to the clock
      reading. The operations below use this definition; see ExpiresAtAsWritten for what
      the code computes. */
  function ExpiresAt(ttl: real, now: nat): (expires: nat)
    ensures ttl < 1.0 ==> expires == PHP_INT_MAX
    ensures 1.0 <= ttl ==> now < expires
    ensures 1.0 <= ttl ==> (expires - now) as real - 0.5 <= ttl < (expires - now) as real + 0.5
  {
    if ttl < 1.0 then PHP_INT_MAX else now + (ttl + 0.5).Floor
  }

  /** calculateExpireTimestampBasedOnTtl as written: `round($ttl, PHP_ROUND_HALF_UP)`
      passes the rounding mode where PHP expects the precision (the constant is 1), so
      the ttl is rounded half up to one decimal place and the `(int)` cast then
      truncates it to whole seconds. */
  function ExpiresAtAsWritten(ttl: real, now: nat): (expires: nat)
    ensures ttl < 1.0 ==> expires == PHP_INT_MAX
    ensures 1.0 <= ttl ==> now < expires
    ensures 1.0 <= ttl ==> (expires - now) as real <= ttl + 0.05 < (expires - now) as real + 1.05
  {
    if ttl < 1.0 then PHP_INT_MAX else now + (ttl * 10.0 + 0.5).Floor / 10
  }

  /** hasAvailableSpace: a limit of zero or less disables the check; otherwise there is
      space while the limit minus the usage stays positive. */
  function HasAvailableSpace(memoryLimit: int, usage: nat): (ok: bool)
    ensures ok <==> memoryLimit <= 0 || usage < memoryLimit
  {
    if memoryLimit <= 0 then true else memoryLimit - usage > 0
  }

  /** getTotalSpace: the configured memory limit, the bound that both the admission check
      and getAvailableSpace measure the usage against. */
  function TotalSpace(cfg: Config): (total: int)
    ensures forall usage: nat :: HasAvailableSpace(cfg.memoryLimit, usage) <==> total <= 0 || usage < total
    ensures forall usage: nat :: AvailableSpace(cfg.memoryLimit, usage) == if usage < total then total - usage else 0
  {
    cfg.memoryLimit
  }

  /** getAvailableSpace: the limit minus the usage, never below zero. */
  function AvailableSpace(memoryLimit: int, usage: nat): (avail: nat)
    ensures memoryLimit - usage <= avail
    ensures avail == 0 || avail == memoryLimit - usage
  {
    if memoryLimit - usage > 0 then memoryLimit - usage else 0
  }

  // ---------------------------------------------------------------------------
  // Lookup and write primitives

  /** An entry is live while the clock is strictly before its expiry instant. */
  predicate IsLive<V>(item: CacheItem<V>, now: nat)
  {
    now < item.expires
  }

  /** The result of getCacheItem: the entry, when it is present and live. */
  function Lookup<V>(s: Store<V>, ns: string, key: string, now: nat): Option<CacheItem<V>>
  {
    if ns in s && key in s[ns] && IsLive(s[ns][key], now) then Some(s[ns][key]) else None
  }

  /** The side effect of getCacheItem: an expired entry is unset (its namespace stays,
      even when it becomes empty). */
  function DropIfExpired<V>(s: Store<V>, ns: string, key: string, now: nat): Store<V>
  {
    if ns in s && key in s[ns] && !IsLive(s[ns][key], now) then s[ns := s[ns] - {key}] else s
  }

  /** persistCacheItem: store the entry under the key, creating the namespace if needed. */
  function Put<V>(s: Store<V>, ns: string, key: string, item: CacheItem<V>): Store<V>
  {
    s[ns := (if ns in s then s[ns] else map[])[key := item]]
  }

  /** The live keys of a namespace map. */
  function LiveKeys<V>(items: Items<V>, now: nat): set<string>
  {
    set k | k in items && IsLive(items[k], now)
  }

  /** A namespace map without its expired entries. */
  function LiveEntries<V>(items: Items<V>, now: nat): Items<V>
  {
    map k | k in items && IsLive(items[k], now) :: items[k]
  }

  /** A namespace map without the keys that start with `prefix`. */
  function WithoutPrefix<V>(items: Items<V>, prefix: string): Items<V>
  {
    map k | k in items && !(prefix <= k) :: items[k]
  }

  /** A namespace map without the entries the tag query matches. */
  function WithoutTagged<V>(items: Items<V>, tags: seq<string>, disjunction: bool): Items<V>
  {
    map k | k in items && !TagsMatch(tags, items[k].tags, disjunction) :: items[k]
  }

  // ---------------------------------------------------------------------------
  // Tag matching (array_diff and the test in clearByTags)

  /** array_diff(query, exclude): the elements of `query`, in order and with their
      duplicates, that do not occur in `exclude`. */
  function ArrayDiff(query: seq<string>, exclude: seq<string>): (diff: seq<string>)
    ensures |diff| <= |query|
    ensures forall t :: t in diff <==> t in query && t !in exclude
  {
    if query == [] then []
    else (if query[0] in exclude then [] else [query[0]]) + ArrayDiff(query[1..], exclude)
  }

  /** Whether clearByTags removes an entry carrying `itemTags`: never when the entry has
      no tags; in disjunction mode when the difference lost at least one query tag; in
      conjunction mode when the difference is empty. */
  predicate TagsMatch(query: seq<string>, itemTags: seq<string>, disjunction: bool)
  {
    itemTags != [] &&
    (if disjunction then |ArrayDiff(query, itemTags)| < |query| else ArrayDiff(query, itemTags) == [])
  }

  // ---------------------------------------------------------------------------
  // Reading

  /** internalGetItem: the value of a live entry (success), nothing otherwise. */
  function GetItem<V>(s: Store<V>, cfg: Config, now: nat, key: string): Step<Option<V>, V>
  {
    var found := Lookup(s, cfg.namespace, key, now);
    Step(if found.Some? then Some(found.value.value) else None,
         DropIfExpired(s, cfg.namespace, key, now))
  }

  /** internalHasItem. */
  function HasItem<V>(s: Store<V>, cfg: Config, now: nat, key: string): Step<bool, V>
  {
    Step(Lookup(s, cfg.namespace, key, now).Some?, DropIfExpired(s, cfg.namespace, key, now))
  }

  /** The Metadata object built from an entry: mtime from lastModified, ctime from created. */
  function MetadataOf<V>(item: CacheItem<V>): Metadata
  {
    Metadata(mtime := item.lastModified, ctime := item.created)
  }

  /** internalGetMetadata. */
  function GetMetadata<V>(s: Store<V>, cfg: Config, now: nat, key: string): Step<Option<Metadata>, V>
  {
    var found := Lookup(s, cfg.namespace, key, now);
    Step(if found.Some? then Some(MetadataOf(found.value)) else None,
         DropIfExpired(s, cfg.namespace, key, now))
  }

  /** getTags: the tags of a live entry; false (None) otherwise. */
  function GetTags<V>(s: Store<V>, cfg: Config, now: nat, key: string): Step<Option<seq<string>>, V>
  {
    var found := Lookup(s, cfg.namespace, key, now);
    Step(if found.Some? then Some(found.value.tags) else None,
         DropIfExpired(s, cfg.namespace, key, now))
  }

  /** getIterator: the live keys of the active namespace. Asking internalHasItem about
      every key purges the expired ones, exactly as clearExpired does. */
  function Iterate<V>(s: Store<V>, cfg: Config, now: nat): Step<set<string>, V>
  {
    var ns := cfg.namespace;
    if ns in s then Step(LiveKeys(s[ns], now), s[ns := LiveEntries(s[ns], now)])
    else Step({}, s)
  }

  // ---------------------------------------------------------------------------
  // Writing

  /** internalSetItem: OutOfSpace when the memory check fails; otherwise a fresh entry
      (created = lastModified = now, no tags) overwrites whatever was stored. */
  function SetItem<V>(s: Store<V>, cfg: Config, now: nat, usage: nat, key: string, value: V): Step<Result<bool>, V>
  {
    if !HasAvailableSpace(cfg.memoryLimit, usage) then Step(Failure(OutOfSpace(cfg.memoryLimit)), s)
    else Step(Success(true), Put(s, cfg.namespace, key, CacheItem(value, now, now, ExpiresAt(cfg.ttl, now), [])))
  }

  /** internalAddItem: the memory check first, then the lookup (which may drop an expired
      entry); a live entry makes it return false, otherwise it sets the item. */
  function AddItem<V>(s: Store<V>, cfg: Config, now: nat, usage: nat, key: string, value: V): Step<Result<bool>, V>
  {
    if !HasAvailableSpace(cfg.memoryLimit, usage) then Step(Failure(OutOfSpace(cfg.memoryLimit)), s)
    else if Lookup(s, cfg.namespace, key, now).Some? then Step(Success(false), s)
    else Step(Success(true), SetItem(DropIfExpired(s, cfg.namespace, key, now), cfg, now, usage, key, value).store)
  }

  /** internalReplaceItem: only a live entry is replaced, with no memory check; the new
      entry keeps `created`, has the new value, lastModified = now, a fresh expiry and
      no tags. */
  function ReplaceItem<V>(s: Store<V>, cfg: Config, now: nat, key: string, value: V): Step<bool, V>
  {
    var found := Lookup(s, cfg.namespace, key, now);
    if found.None? then Step(false, DropIfExpired(s, cfg.namespace, key, now))
    else
      var item := CacheItem(value, found.value.created, now, ExpiresAt(cfg.ttl, now), []);
      Step(true, Put(s, cfg.namespace, key, item))
  }

  /** internalTouchItem: like replace, but the value and the tags are carried over. */
  function TouchItem<V>(s: Store<V>, cfg: Config, now: nat, key: string): Step<bool, V>
  {
    var found := Lookup(s, cfg.namespace, key, now);
    if found.None? then Step(false, DropIfExpired(s, cfg.namespace, key, now))
    else
      var was := found.value;
      var item := CacheItem(was.value, was.created, now, ExpiresAt(cfg.ttl, now), was.tags);
      Step(true, Put(s, cfg.namespace, key, item))
  }

  /** internalRemoveItem: only a live entry is removed; a namespace left empty by the
      removal is removed too. */
  function RemoveItem<V>(s: Store<V>, cfg: Config, now: nat, key: string): Step<bool, V>
  {
    var ns := cfg.namespace;
    if Lookup(s, ns, key, now).None? then Step(false, DropIfExpired(s, ns, key, now))
    else
      var rest := s[ns] - {key};
      Step(true, if rest == map[] then s - {ns} else s[ns := rest])
  }

  /** setTags: replaces the tags of a PRESENT entry, live or not (no expiry check). */
  function SetTags<V>(s: Store<V>, cfg: Config, key: string, tags: seq<string>): Step<bool, V>
  {
    var ns := cfg.namespace;
    if ns in s && key in s[ns] then Step(true, s[ns := s[ns][key := s[ns][key].(tags := tags)]])
    else Step(false, s)
  }

  // ---------------------------------------------------------------------------
  // Clearing

  /** flush: every namespace goes. */
  function Flush<V>(s: Store<V>): Step<bool, V>
  {
    Step(true, map[])
  }

  /** clearExpired: the active namespace loses its expired entries. */
  function ClearExpired<V>(s: Store<V>, cfg: Config, now: nat): Step<bool, V>
  {
    var ns := cfg.namespace;
    if ns in s then Step(true, s[ns := LiveEntries(s[ns], now)]) else Step(true, s)
  }

  /** clearByNamespace: an empty namespace is rejected; any other is dropped. */
  function ClearByNamespace<V>(s: Store<V>, namespace: string): Step<Result<bool>, V>
  {
    if namespace == "" then Step(Failure(InvalidArgument("No namespace given")), s)
    else Step(Success(true), s - {namespace})
  }

  /** clearByPrefix: an empty prefix is rejected; otherwise the active namespace loses
      every key starting with the prefix. */
  function ClearByPrefix<V>(s: Store<V>, cfg: Config, prefix: string): Step<Result<bool>, V>
  {
    var ns := cfg.namespace;
    if prefix == "" then Step(Failure(InvalidArgument("No prefix given")), s)
    else if ns in s then Step(Success(true), s[ns := WithoutPrefix(s[ns], prefix)])
    else Step(Success(true), s)
  }

  /** clearByTags: the active namespace loses every entry the query matches. */
  function ClearByTags<V>(s: Store<V>, cfg: Config, tags: seq<string>, disjunction: bool): Step<bool, V>
  {
    var ns := cfg.namespace;
    if ns in s then Step(true, s[ns := WithoutTagged(s[ns], tags, disjunction)]) else Step(true, s)
  }
}
