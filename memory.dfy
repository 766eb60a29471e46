/** The memory adapter itself (src/Memory.php): an object whose one field, the nested map
    namespace -> (key -> entry), every operation updates in place. Each method is proved
    to return, and to leave in `data`, what the MemorySpec function of the same name
    describes; the properties of those functions are in MemoryProperties. */
module MemoryAdapter {
  import opened Wrappers
  import opened CacheItemRecord
  import opened MetadataRecord
  import opened MemorySpec

  // ---------------------------------------------------------------------------
  // The foreach loops of clearExpired, clearByPrefix and clearByTags: each walks a copy
  // of the namespace map, unsets entries in the copy, and the caller writes the copy back.

  /** The loop of clearExpired: unset every entry whose expiry instant has been reached. */
  method KeepLive<V>(items: Items<V>, now: nat) returns (kept: Items<V>)
    ensures kept == LiveEntries(items, now)
    ensures forall k :: k in kept <==> k in items && now < items[k].expires
  {
    kept := items;
    var todo := items.Keys;
    while todo != {}
      invariant todo <= items.Keys
      invariant kept == map k | k in items && (k in todo || IsLive(items[k], now)) :: items[k]
      decreases todo
    {
      var k :| k in todo;
      if now >= kept[k].expires {
        kept := kept - {k};
      }
      todo := todo - {k};
    }
  }

  /** The loop of clearByPrefix: unset every key that starts with the prefix. */
  method DropPrefixed<V>(items: Items<V>, prefix: string) returns (kept: Items<V>)
    ensures kept == WithoutPrefix(items, prefix)
    ensures forall k :: k in kept <==> k in items && !(prefix <= k)
  {
    kept := items;
    var todo := items.Keys;
    while todo != {}
      invariant todo <= items.Keys
      invariant kept == map k | k in items && (k in todo || !(prefix <= k)) :: items[k]
      decreases todo
    {
      var k :| k in todo;
      if prefix <= k {
        kept := kept - {k};
      }
      todo := todo - {k};
    }
  }

  /** The loop of clearByTags: unset every entry with tags that the query matches. */
  method DropTagged<V>(items: Items<V>, tags: seq<string>, disjunction: bool) returns (kept: Items<V>)
    ensures kept == WithoutTagged(items, tags, disjunction)
    ensures forall k :: k in items && items[k].tags == [] ==> k in kept
  {
    kept := items;
    var todo := items.Keys;
    var tagCount := |tags|;
    while todo != {}
      invariant todo <= items.Keys
      invariant kept == map k | k in items && (k in todo || !TagsMatch(tags, items[k].tags, disjunction)) :: items[k]
      decreases todo
    {
      var k :| k in todo;
      var item := kept[k];
      if item.tags != [] {
        var diff := ArrayDiff(tags, item.tags);
        if (disjunction && |diff| < tagCount) || (!disjunction && diff == []) {
          kept := kept - {k};
        }
      }
      todo := todo - {k};
    }
  }

  class Memory<V> {
    /** namespace -> (key -> entry) */
    var data: Store<V>

    constructor ()
      ensures data == map[]
    {
      data := map[];
    }

    // -------------------------------------------------------------------------
    // internal

    /** getCacheItem: the entry when present and live; an expired entry is unset. */
    method FetchLive(ns: string, key: string, now: nat) returns (item: Option<CacheItem<V>>)
      modifies this
      ensures item == Lookup(old(data), ns, key, now)
      ensures data == DropIfExpired(old(data), ns, key, now)
    {
      if ns !in data || key !in data[ns] {
        return None;
      }
      var found := data[ns][key];
      if now >= found.expires {
        data := data[ns := data[ns] - {key}];
        return None;
      }
      return Some(found);
    }

    /** persistCacheItem. */
    method Persist(ns: string, key: string, item: CacheItem<V>) returns (ok: bool)
      modifies this
      ensures ok
      ensures data == Put(old(data), ns, key, item)
    {
      var items := if ns in data then data[ns] else map[];
      data := data[ns := items[key := item]];
      return true;
    }

    // -------------------------------------------------------------------------
    // reading

    /** internalGetItem: the stored value exactly when a live entry exists. */
    method GetItem(cfg: Config, now: nat, key: string) returns (value: Option<V>)
      modifies this
      ensures Step(value, data) == MemorySpec.GetItem(old(data), cfg, now, key)
      ensures value.Some? <==> old(Lookup(data, cfg.namespace, key, now)).Some?
    {
      var item := FetchLive(cfg.namespace, key, now);
      if item.None? {
        return None;
      }
      return Some(item.value.value);
    }

    /** internalHasItem. */
    method HasItem(cfg: Config, now: nat, key: string) returns (found: bool)
      modifies this
      ensures Step(found, data) == MemorySpec.HasItem(old(data), cfg, now, key)
    {
      var item := FetchLive(cfg.namespace, key, now);
      return item.Some?;
    }

    /** internalGetMetadata: mtime and ctime of a live entry. */
    method GetMetadata(cfg: Config, now: nat, key: string) returns (meta: Option<Metadata>)
      modifies this
      ensures Step(meta, data) == MemorySpec.GetMetadata(old(data), cfg, now, key)
      ensures meta.None? <==> old(Lookup(data, cfg.namespace, key, now)).None?
      ensures meta.Some? ==> meta.value.mtime == old(data)[cfg.namespace][key].lastModified
                             && meta.value.ctime == old(data)[cfg.namespace][key].created
    {
      var item := FetchLive(cfg.namespace, key, now);
      if item.None? {
        return None;
      }
      return Some(Metadata(mtime := item.value.lastModified, ctime := item.value.created));
    }

    /** getTags. */
    method GetTags(cfg: Config, now: nat, key: string) returns (tags: Option<seq<string>>)
      modifies this
      ensures Step(tags, data) == MemorySpec.GetTags(old(data), cfg, now, key)
    {
      var item := FetchLive(cfg.namespace, key, now);
      if item.None? {
        return None;
      }
      return Some(item.value.tags);
    }

    /** getIterator: asks internalHasItem about every key of the active namespace and
        collects the live ones; the expired ones are unset along the way. */
    method GetIterator(cfg: Config, now: nat) returns (keys: set<string>)
      modifies this
      ensures Step(keys, data) == Iterate(old(data), cfg, now)
    {
      var ns := cfg.namespace;
      keys := {};
      if ns !in data {
        return;
      }
      ghost var items := data[ns];
      var todo := data[ns].Keys;
      assert items == map k | k in items && (k in todo || IsLive(items[k], now)) :: items[k];
      while todo != {}
        invariant todo <= items.Keys
        invariant ns in data && data == old(data)[ns := data[ns]]
        invariant data[ns] == map k | k in items && (k in todo || IsLive(items[k], now)) :: items[k]
        invariant keys == set k | k in items && k !in todo && IsLive(items[k], now)
        decreases todo
      {
        var k :| k in todo;
        ghost var before := data[ns];
        var found := HasItem(cfg, now, k);
        if found {
          keys := keys + {k};
        } else {
          assert data[ns] == before - {k};
        }
        todo := todo - {k};
        assert data[ns] == map k | k in items && (k in todo || IsLive(items[k], now)) :: items[k];
      }
      assert keys == LiveKeys(items, now);
      assert data[ns] == LiveEntries(items, now);
    }

    // -------------------------------------------------------------------------
    // writing

    /** internalSetItem. */
    method SetItem(cfg: Config, now: nat, usage: nat, key: string, value: V) returns (r: Result<bool>)
      modifies this
      ensures Step(r, data) == MemorySpec.SetItem(old(data), cfg, now, usage, key, value)
      ensures r.Failure? <==> cfg.memoryLimit > 0 && usage >= cfg.memoryLimit
    {
      if !HasAvailableSpace(cfg.memoryLimit, usage) {
        return Failure(OutOfSpace(cfg.memoryLimit));
      }
      var expires := ExpiresAt(cfg.ttl, now);
      var ok := Persist(cfg.namespace, key, CacheItem(value, now, now, expires, []));
      return Success(ok);
    }

    /** internalAddItem: the memory check comes before the existence check. */
    method AddItem(cfg: Config, now: nat, usage: nat, key: string, value: V) returns (r: Result<bool>)
      modifies this
      ensures Step(r, data) == MemorySpec.AddItem(old(data), cfg, now, usage, key, value)
      ensures r.Failure? <==> cfg.memoryLimit > 0 && usage >= cfg.memoryLimit
      ensures r == Success(false) ==> data == old(data)
    {
      if !HasAvailableSpace(cfg.memoryLimit, usage) {
        return Failure(OutOfSpace(cfg.memoryLimit));
      }
      var item := FetchLive(cfg.namespace, key, now);
      if item.Some? {
        return Success(false);
      }
      var stored := SetItem(cfg, now, usage, key, value);
      return Success(true);
    }

    /** internalReplaceItem: no memory check. */
    method ReplaceItem(cfg: Config, now: nat, key: string, value: V) returns (replaced: bool)
      modifies this
      ensures Step(replaced, data) == MemorySpec.ReplaceItem(old(data), cfg, now, key, value)
      ensures replaced <==> old(Lookup(data, cfg.namespace, key, now)).Some?
    {
      var item := FetchLive(cfg.namespace, key, now);
      if item.None? {
        return false;
      }
      var expires := ExpiresAt(cfg.ttl, now);
      replaced := Persist(cfg.namespace, key, CacheItem(value, item.value.created, now, expires, []));
    }

    /** internalTouchItem. */
    method TouchItem(cfg: Config, now: nat, key: string) returns (touched: bool)
      modifies this
      ensures Step(touched, data) == MemorySpec.TouchItem(old(data), cfg, now, key)
      ensures touched <==> old(Lookup(data, cfg.namespace, key, now)).Some?
    {
      var item := FetchLive(cfg.namespace, key, now);
      if item.None? {
        return false;
      }
      var expires := ExpiresAt(cfg.ttl, now);
      var was := item.value;
      touched := Persist(cfg.namespace, key, CacheItem(was.value, was.created, now, expires, was.tags));
    }

    /** internalRemoveItem: prunes the namespace when its last key goes. */
    method RemoveItem(cfg: Config, now: nat, key: string) returns (removed: bool)
      modifies this
      ensures Step(removed, data) == MemorySpec.RemoveItem(old(data), cfg, now, key)
      ensures removed <==> old(Lookup(data, cfg.namespace, key, now)).Some?
    {
      var item := FetchLive(cfg.namespace, key, now);
      if item.None? {
        return false;
      }
      var ns := cfg.namespace;
      data := data[ns := data[ns] - {key}];
      if data[ns] == map[] {
        data := data - {ns};
      }
      return true;
    }

    /** setTags: writes the tags of the stored entry in place, without an expiry check. */
    method SetTags(cfg: Config, key: string, tags: seq<string>) returns (ok: bool)
      modifies this
      ensures Step(ok, data) == MemorySpec.SetTags(old(data), cfg, key, tags)
      ensures ok <==> cfg.namespace in old(data) && key in old(data)[cfg.namespace]
    {
      var ns := cfg.namespace;
      if ns !in data || key !in data[ns] {
        return false;
      }
      data := data[ns := data[ns][key := data[ns][key].(tags := tags)]];
      return true;
    }

    // -------------------------------------------------------------------------
    // clearing

    /** flush. */
    method Flush() returns (ok: bool)
      modifies this
      ensures Step(ok, data) == MemorySpec.Flush(old(data))
      ensures ok && data == map[]
    {
      data := map[];
      return true;
    }

    /** clearExpired. */
    method ClearExpired(cfg: Config, now: nat) returns (ok: bool)
      modifies this
      ensures Step(ok, data) == MemorySpec.ClearExpired(old(data), cfg, now)
    {
      var ns := cfg.namespace;
      if ns !in data {
        return true;
      }
      var items := KeepLive(data[ns], now);
      data := data[ns := items];
      return true;
    }

    /** clearByNamespace. */
    method ClearByNamespace(namespace: string) returns (r: Result<bool>)
      modifies this
      ensures Step(r, data) == MemorySpec.ClearByNamespace(old(data), namespace)
      ensures r.Failure? <==> namespace == ""
      ensures r.Failure? ==> data == old(data)
    {
      if namespace == "" {
        return Failure(InvalidArgument("No namespace given"));
      }
      data := data - {namespace};
      return Success(true);
    }

    /** clearByPrefix. */
    method ClearByPrefix(cfg: Config, prefix: string) returns (r: Result<bool>)
      modifies this
      ensures Step(r, data) == MemorySpec.ClearByPrefix(old(data), cfg, prefix)
      ensures r.Failure? <==> prefix == ""
      ensures r.Failure? ==> data == old(data)
    {
      if prefix == "" {
        return Failure(InvalidArgument("No prefix given"));
      }
      var ns := cfg.namespace;
      if ns !in data {
        return Success(true);
      }
      var items := DropPrefixed(data[ns], prefix);
      data := data[ns := items];
      return Success(true);
    }

    /** clearByTags. */
    method ClearByTags(cfg: Config, tags: seq<string>, disjunction: bool) returns (ok: bool)
      modifies this
      ensures Step(ok, data) == MemorySpec.ClearByTags(old(data), cfg, tags, disjunction)
    {
      var ns := cfg.namespace;
      if ns !in data {
        return true;
      }
      var items := DropTagged(data[ns], tags, disjunction);
      data := data[ns := items];
      return true;
    }
  }

  // ---------------------------------------------------------------------------
  // The unit-test scenarios, run against a fresh adapter object

  /** With the clock frozen at t: setItem, then getMetadata reads ctime == mtime == t;
      touchItem two days later, then getMetadata reads ctime == t and mtime == t plus two
      days. The options are the defaults: no ttl and no memory limit. */
  method MetadataScenario(t: nat, usage: nat) returns (first: Option<Metadata>, second: Option<Metadata>)
    requires t + 2 * 86400 < PHP_INT_MAX
    ensures first == Some(Metadata(mtime := t, ctime := t))
    ensures second == Some(Metadata(mtime := t + 2 * 86400, ctime := t))
  {
    var storage := new Memory<string>();
    var cfg := Config("", 0.0, 0);
    var stored := storage.SetItem(cfg, t, usage, "foo", "bar");
    first := storage.GetMetadata(cfg, t, "foo");
    var later := t + 2 * 86400;
    var touched := storage.TouchItem(cfg, later, "foo");
    second := storage.GetMetadata(cfg, later, "foo");
  }

  /** A memory limit set just below the current usage makes addItem throw OutOfSpace. */
  method OutOfSpaceScenario(usage: nat) returns (r: Result<bool>)
    requires 8 < usage
    ensures r == Failure(OutOfSpace(usage - 8))
  {
    var storage := new Memory<string>();
    r := storage.AddItem(Config("", 0.0, usage - 8), 0, usage, "test", "test");
  }
}
