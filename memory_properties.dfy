/** What the storage engine of src/Memory.php promises, proved about MemorySpec. The
    methods of MemoryAdapter.Memory are proved to follow those functions, so every fact
    here holds of the object as well. */
module MemoryProperties {
  import opened Wrappers
  import opened CacheItemRecord
  import opened MetadataRecord
  import opened MemorySpec

  // ---------------------------------------------------------------------------
  // Expiry-aware lookup

  /** A lookup misses exactly when the namespace or the key is missing or the clock has
      reached the expiry instant; in the expired case that one key leaves its namespace
      (which stays, even if now empty) and nothing else changes. */
  lemma LookupAndExpiry<V>(s: Store<V>, ns: string, key: string, now: nat)
    ensures Lookup(s, ns, key, now).None? <==>
              ns !in s || key !in s[ns] || now >= s[ns][key].expires
    ensures Lookup(s, ns, key, now).Some? ==>
              Lookup(s, ns, key, now).value == s[ns][key] && DropIfExpired(s, ns, key, now) == s
    ensures ns in s && key in s[ns] && now >= s[ns][key].expires ==>
              var s' := DropIfExpired(s, ns, key, now);
              ns in s' && s'[ns] == s[ns] - {key} && s' - {ns} == s - {ns}
    ensures ns !in s || key !in s[ns] ==> DropIfExpired(s, ns, key, now) == s
  {
  }

  // ---------------------------------------------------------------------------
  // Expiry computation

  /** In both definitions ttl < 1 never expires, and the test against 1 happens before
      any rounding: 0.6 never expires although it would round to 1. From 1 on, the
      intended definition rounds half up to whole seconds, while the code as written
      keeps one decimal and truncates: 1.5, 2.5 and 1.7 lose a second, whole ttls and
      1.4 or 1.96 agree. */
  lemma ExpiryExamples(now: nat)
    ensures ExpiresAt(0.0, now) == ExpiresAtAsWritten(0.0, now) == PHP_INT_MAX
    ensures ExpiresAt(0.6, now) == ExpiresAtAsWritten(0.6, now) == PHP_INT_MAX
    ensures ExpiresAt(1.0, now) == ExpiresAtAsWritten(1.0, now) == now + 1
    ensures ExpiresAt(1.4, now) == ExpiresAtAsWritten(1.4, now) == now + 1
    ensures ExpiresAt(1.96, now) == ExpiresAtAsWritten(1.96, now) == now + 2
    ensures ExpiresAt(1.5, now) == now + 2 && ExpiresAtAsWritten(1.5, now) == now + 1
    ensures ExpiresAt(1.7, now) == now + 2 && ExpiresAtAsWritten(1.7, now) == now + 1
    ensures ExpiresAt(2.5, now) == now + 3 && ExpiresAtAsWritten(2.5, now) == now + 2
  {
  }

  /** The rounding finding: with ttl 1.5 the code stores an expiry one second earlier than
      half-up rounding to whole seconds gives, so an entry set with that ttl is already
      gone one second after the set, although the intended entry is still live. */
  lemma ExpiryRoundingDiscrepancy<V>(s: Store<V>, now: nat, key: string, value: V)
    ensures ExpiresAtAsWritten(1.5, now) == now + 1 < now + 2 == ExpiresAt(1.5, now)
    ensures var written := Put(s, "ns", key, CacheItem(value, now, now, ExpiresAtAsWritten(1.5, now), []));
      var intended := Put(s, "ns", key, CacheItem(value, now, now, ExpiresAt(1.5, now), []));
      Lookup(written, "ns", key, now + 1).None? && Lookup(intended, "ns", key, now + 1) == Some(intended["ns"][key])
  {
  }

  /** The code as written never keeps an entry longer than intended and never less than
      the whole part of the ttl; it is one second short exactly when the fractional part
      of the ttl lies in [0.5, 0.95), so the two agree on every whole number of seconds. */
  lemma ExpiryAsWrittenNoLater(ttl: real, now: nat)
    requires 1.0 <= ttl
    ensures now + ttl.Floor <= ExpiresAtAsWritten(ttl, now) <= ExpiresAt(ttl, now)
    ensures ttl == ttl.Floor as real ==> ExpiresAtAsWritten(ttl, now) == ExpiresAt(ttl, now)
    ensures ExpiresAtAsWritten(ttl, now) < ExpiresAt(ttl, now) <==> 0.5 <= ttl - ttl.Floor as real < 0.95
  {
  }

  // ---------------------------------------------------------------------------
  // Round trip and expiration

  /** After a successful set at `now`, every read at a later instant before the computed
      expiry sees the value, creation and modification time `now`, and no tags. */
  lemma SetThenRead<V>(s: Store<V>, cfg: Config, now: nat, usage: nat, key: string, value: V, later: nat)
    requires HasAvailableSpace(cfg.memoryLimit, usage)
    requires later < ExpiresAt(cfg.ttl, now)
    ensures SetItem(s, cfg, now, usage, key, value).result == Success(true)
    ensures var s' := SetItem(s, cfg, now, usage, key, value).store;
      && GetItem(s', cfg, later, key) == Step(Some(value), s')
      && HasItem(s', cfg, later, key) == Step(true, s')
      && GetMetadata(s', cfg, later, key) == Step(Some(Metadata(mtime := now, ctime := now)), s')
      && GetTags(s', cfg, later, key) == Step(Some([]), s')
      && key in Iterate(s', cfg, later).result
  {
  }

  /** The round trip with the memory check disabled and no ttl: the value is there at
      any later instant a PHP timestamp can take. */
  lemma SetThenGetWithoutLimits<V>(s: Store<V>, cfg: Config, now: nat, usage: nat, key: string, value: V, later: nat)
    requires cfg.memoryLimit <= 0 && cfg.ttl < 1.0
    requires later < PHP_INT_MAX
    ensures SetItem(s, cfg, now, usage, key, value).result == Success(true)
    ensures var s' := SetItem(s, cfg, now, usage, key, value).store;
      GetItem(s', cfg, later, key).result == Some(value) && HasItem(s', cfg, later, key).result
  {
  }

  /** With a ttl of at least one second, once the clock reaches the creation time plus
      the rounded ttl, every read treats the key as absent, and the first of them
      unsets it. */
  lemma ExpiredAfterTtl<V>(s: Store<V>, cfg: Config, now: nat, usage: nat, key: string, value: V, later: nat)
    requires HasAvailableSpace(cfg.memoryLimit, usage)
    requires 1.0 <= cfg.ttl
    requires now + (cfg.ttl + 0.5).Floor <= later
    ensures var s' := SetItem(s, cfg, now, usage, key, value).store;
      && GetItem(s', cfg, later, key).result == None
      && !HasItem(s', cfg, later, key).result
      && GetMetadata(s', cfg, later, key).result == None
      && GetTags(s', cfg, later, key).result == None
      && key !in Iterate(s', cfg, later).result
      && key !in GetItem(s', cfg, later, key).store[cfg.namespace]
  {
  }

  /** A set in one namespace leaves every other namespace as it was, so every read there
      answers as before; in particular the key is not found under a namespace that did
      not hold it. */
  lemma NamespaceIsolation<V>(s: Store<V>, cfg: Config, now: nat, usage: nat, key: string, value: V,
                              other: string, later: nat)
    requires other != cfg.namespace
    ensures var s' := SetItem(s, cfg, now, usage, key, value).store;
      && (other in s' <==> other in s)
      && (other in s ==> s'[other] == s[other])
    ensures var s' := SetItem(s, cfg, now, usage, key, value).store;
      var there := cfg.(namespace := other);
      && GetItem(s', there, later, key).result == GetItem(s, there, later, key).result
      && HasItem(s', there, later, key).result == HasItem(s, there, later, key).result
      && GetMetadata(s', there, later, key).result == GetMetadata(s, there, later, key).result
    ensures other !in s || key !in s[other] ==>
              GetItem(SetItem(s, cfg, now, usage, key, value).store, cfg.(namespace := other), later, key).result == None
  {
  }

  // ---------------------------------------------------------------------------
  // add

  /** add: OutOfSpace first, even for a live key; then false with the store untouched
      for a live key; otherwise the same store as set, and true. */
  lemma AddSemantics<V>(s: Store<V>, cfg: Config, now: nat, usage: nat, key: string, value: V)
    ensures !HasAvailableSpace(cfg.memoryLimit, usage) ==>
              AddItem(s, cfg, now, usage, key, value) == Step(Failure(OutOfSpace(cfg.memoryLimit)), s)
    ensures HasAvailableSpace(cfg.memoryLimit, usage) && Lookup(s, cfg.namespace, key, now).Some? ==>
              AddItem(s, cfg, now, usage, key, value) == Step(Success(false), s)
    ensures HasAvailableSpace(cfg.memoryLimit, usage) && Lookup(s, cfg.namespace, key, now).None? ==>
              AddItem(s, cfg, now, usage, key, value) == SetItem(s, cfg, now, usage, key, value)
  {
    var ns := cfg.namespace;
    if HasAvailableSpace(cfg.memoryLimit, usage) && Lookup(s, ns, key, now).None? {
      var item := CacheItem(value, now, now, ExpiresAt(cfg.ttl, now), []);
      PutAfterDrop(s, ns, key, now, item);
    }
  }

  /** Writing a key after its expired entry was dropped stores the same as writing over it. */
  lemma PutAfterDrop<V>(s: Store<V>, ns: string, key: string, now: nat, item: CacheItem<V>)
    ensures Put(DropIfExpired(s, ns, key, now), ns, key, item) == Put(s, ns, key, item)
  {
    if ns in s && key in s[ns] && !IsLive(s[ns][key], now) {
      assert (s[ns] - {key})[key := item] == s[ns][key := item];
    }
  }

  /** add is exclusive: a second add of the same key before the first one's entry expires
      returns false and the first value is still the one read. */
  lemma AddIsExclusive<V>(s: Store<V>, cfg: Config, t1: nat, u1: nat, t2: nat, u2: nat, t3: nat,
                          key: string, v1: V, v2: V)
    requires HasAvailableSpace(cfg.memoryLimit, u1) && HasAvailableSpace(cfg.memoryLimit, u2)
    requires Lookup(s, cfg.namespace, key, t1).None?
    requires t2 < ExpiresAt(cfg.ttl, t1) && t3 < ExpiresAt(cfg.ttl, t1)
    ensures var first := AddItem(s, cfg, t1, u1, key, v1);
      var second := AddItem(first.store, cfg, t2, u2, key, v2);
      && first.result == Success(true)
      && second == Step(Success(false), first.store)
      && GetItem(second.store, cfg, t3, key).result == Some(v1)
  {
  }

  // ---------------------------------------------------------------------------
  // Memory admission

  /** set and add raise OutOfSpace exactly when a positive limit is reached by the usage;
      with a limit of zero or less they are always admitted. replace and touch take no
      usage figure at all, so nothing about memory can make them fail. */
  lemma MemoryAdmission<V>(s: Store<V>, cfg: Config, now: nat, usage: nat, key: string, value: V)
    ensures SetItem(s, cfg, now, usage, key, value).result.Failure? <==> 0 < cfg.memoryLimit <= usage
    ensures AddItem(s, cfg, now, usage, key, value).result.Failure? <==> 0 < cfg.memoryLimit <= usage
    ensures SetItem(s, cfg, now, usage, key, value).result.Failure? ==>
              SetItem(s, cfg, now, usage, key, value) == Step(Failure(OutOfSpace(cfg.memoryLimit)), s)
    ensures cfg.memoryLimit <= 0 ==> SetItem(s, cfg, now, usage, key, value).result == Success(true)
  {
  }

  /** The admission check agrees with getAvailableSpace: with a positive limit a write is
      admitted exactly when some space is available, and the available space never
      exceeds getTotalSpace. */
  lemma AvailableSpaceAgreesWithAdmission(cfg: Config, usage: nat)
    ensures 0 < TotalSpace(cfg) ==>
              (HasAvailableSpace(cfg.memoryLimit, usage) <==> AvailableSpace(cfg.memoryLimit, usage) > 0)
    ensures 0 < TotalSpace(cfg) ==> AvailableSpace(cfg.memoryLimit, usage) <= TotalSpace(cfg)
    ensures TotalSpace(cfg) <= 0 ==> AvailableSpace(cfg.memoryLimit, usage) == 0
  {
  }

  // ---------------------------------------------------------------------------
  // replace and touch

  /** replace: false for an absent or expired key (which it drops); otherwise the entry
      keeps `created`, takes the new value, lastModified = now, the expiry of the current
      ttl, and loses its tags. */
  lemma ReplaceSemantics<V>(s: Store<V>, cfg: Config, now: nat, key: string, value: V)
    ensures var ns := cfg.namespace; var r := ReplaceItem(s, cfg, now, key, value);
      && (r.result <==> Lookup(s, ns, key, now).Some?)
      && (!r.result ==> r.store == DropIfExpired(s, ns, key, now))
      && (r.result ==>
            && ns in r.store && key in r.store[ns]
            && r.store[ns][key] == CacheItem(value, s[ns][key].created, now, ExpiresAt(cfg.ttl, now), [])
            && r.store - {ns} == s - {ns}
            && r.store[ns] - {key} == s[ns] - {key})
  {
  }

  /** touch: false for an absent or expired key; otherwise value, created and tags stay
      and lastModified and the expiry are refreshed. */
  lemma TouchSemantics<V>(s: Store<V>, cfg: Config, now: nat, key: string)
    ensures var ns := cfg.namespace; var r := TouchItem(s, cfg, now, key);
      && (r.result <==> Lookup(s, ns, key, now).Some?)
      && (!r.result ==> r.store == DropIfExpired(s, ns, key, now))
      && (r.result ==>
            && ns in r.store && key in r.store[ns]
            && var was := s[ns][key];
            && r.store[ns][key] == CacheItem(was.value, was.created, now, ExpiresAt(cfg.ttl, now), was.tags)
            && r.store - {ns} == s - {ns}
            && r.store[ns] - {key} == s[ns] - {key})
  {
  }

  /** replace keeps the creation time: set at t0, replace at t1 before the entry
      expires, and the metadata reads ctime t0, mtime t1, and the value is the new one. */
  lemma ReplaceKeepsCreation<V>(s: Store<V>, cfg: Config, t0: nat, usage: nat, key: string, v1: V, v2: V, t1: nat)
    requires HasAvailableSpace(cfg.memoryLimit, usage)
    requires t1 < ExpiresAt(cfg.ttl, t0) && t1 < ExpiresAt(cfg.ttl, t1)
    ensures var s1 := SetItem(s, cfg, t0, usage, key, v1).store;
      var s2 := ReplaceItem(s1, cfg, t1, key, v2);
      && s2.result
      && GetMetadata(s2.store, cfg, t1, key).result == Some(Metadata(mtime := t1, ctime := t0))
      && GetItem(s2.store, cfg, t1, key).result == Some(v2)
  {
  }

  /** The metadata scenario of the unit test: set at a frozen instant t gives
      ctime == mtime == t; touch two days later (with the default ttl of no expiry)
      keeps ctime == t and moves mtime to t plus two days. */
  lemma MetadataAfterSetAndTouch<V>(s: Store<V>, cfg: Config, t: nat, usage: nat, key: string, value: V)
    requires cfg.memoryLimit <= 0 && cfg.ttl < 1.0
    requires t + 2 * 86400 < PHP_INT_MAX
    ensures var s1 := SetItem(s, cfg, t, usage, key, value).store;
      var later := t + 2 * 86400;
      var s2 := TouchItem(s1, cfg, later, key);
      && GetMetadata(s1, cfg, t, key).result == Some(Metadata(mtime := t, ctime := t))
      && s2.result
      && GetMetadata(s2.store, cfg, later, key).result == Some(Metadata(mtime := later, ctime := t))
  {
  }

  // ---------------------------------------------------------------------------
  // remove

  /** remove: true exactly for a live key, which it deletes; a namespace left empty is
      deleted too; other namespaces are untouched. */
  lemma RemoveSemantics<V>(s: Store<V>, cfg: Config, now: nat, key: string)
    ensures var ns := cfg.namespace; var r := RemoveItem(s, cfg, now, key);
      && (r.result <==> Lookup(s, ns, key, now).Some?)
      && (!r.result ==> r.store == DropIfExpired(s, ns, key, now))
      && (r.result ==>
            && r.store - {ns} == s - {ns}
            && (s[ns].Keys == {key} ==> ns !in r.store)
            && (s[ns].Keys != {key} ==> ns in r.store && r.store[ns] == s[ns] - {key}))
  {
    var ns := cfg.namespace;
    if Lookup(s, ns, key, now).Some? && s[ns].Keys != {key} {
      assert s[ns].Keys - {key} != {};
      var k :| k in s[ns].Keys - {key};
      assert k in s[ns] - {key};
    }
  }

  /** Only remove prunes namespaces: an expiry drop (and likewise clearExpired,
      clearByPrefix and clearByTags) can leave an empty namespace map behind. */
  lemma ExpiryLeavesEmptyNamespace(ns: string, key: string, value: int)
    ensures var s: Store<int> := map[ns := map[key := CacheItem(value, 0, 0, 5, [])]];
      && DropIfExpired(s, ns, key, 5) == map[ns := map[]]
      && ClearExpired(s, Config(ns, 0.0, 0), 5).store == map[ns := map[]]
  {
  }

  // ---------------------------------------------------------------------------
  // Tags

  /** setTags skips the expiry check: it succeeds on an entry that is present but
      expired, while getTags on the same entry reports it missing. */
  lemma SetTagsIgnoresExpiry<V>(s: Store<V>, cfg: Config, now: nat, key: string, tags: seq<string>)
    requires cfg.namespace in s && key in s[cfg.namespace] && now >= s[cfg.namespace][key].expires
    ensures var r := SetTags(s, cfg, key, tags);
      && r.result
      && r.store[cfg.namespace][key].tags == tags
      && GetTags(r.store, cfg, now, key).result == None
  {
  }

  /** setTags changes nothing but the tags of the one entry. */
  lemma SetTagsChangesOnlyTags<V>(s: Store<V>, cfg: Config, key: string, tags: seq<string>)
    ensures var ns := cfg.namespace; var r := SetTags(s, cfg, key, tags);
      && (r.result <==> ns in s && key in s[ns])
      && (!r.result ==> r.store == s)
      && (r.result ==>
            && r.store - {ns} == s - {ns}
            && r.store[ns] - {key} == s[ns] - {key}
            && r.store[ns][key] == s[ns][key].(tags := tags))
  {
  }

  /** array_diff of a query that shares no tag with the entry is the whole query. */
  lemma {:induction false} DiffOfDisjoint(query: seq<string>, tags: seq<string>)
    requires forall t :: t in query ==> t !in tags
    ensures ArrayDiff(query, tags) == query
  {
    if query != [] {
      DiffOfDisjoint(query[1..], tags);
      assert query == [query[0]] + query[1..];
    }
  }

  /** array_diff of a query that shares a tag with the entry is shorter than the query. */
  lemma {:induction false} DiffOfShared(query: seq<string>, tags: seq<string>, shared: string)
    requires shared in query && shared in tags
    ensures |ArrayDiff(query, tags)| < |query|
  {
    if query[0] != shared {
      DiffOfShared(query[1..], tags, shared);
    }
  }

  /** Disjunction mode matches an entry exactly when it has tags and at least one of the
      queried tags. */
  lemma DisjunctionMatchesAnyTag(query: seq<string>, tags: seq<string>)
    ensures TagsMatch(query, tags, true) <==> tags != [] && exists t :: t in query && t in tags
  {
    if exists t :: t in query && t in tags {
      var t :| t in query && t in tags;
      DiffOfShared(query, tags, t);
    } else {
      DiffOfDisjoint(query, tags);
    }
  }

  /** Conjunction mode matches an entry exactly when it has tags and every queried tag;
      an empty query therefore matches every tagged entry. */
  lemma ConjunctionMatchesAllTags(query: seq<string>, tags: seq<string>)
    ensures TagsMatch(query, tags, false) <==> tags != [] && forall t :: t in query ==> t in tags
  {
    var diff := ArrayDiff(query, tags);
    if diff != [] {
      assert diff[0] in diff;
    }
  }

  /** clearByTags removes from the active namespace exactly the entries that have tags
      and match the query, never an entry without tags, and touches no other namespace. */
  lemma ClearByTagsExact<V>(s: Store<V>, cfg: Config, query: seq<string>, disjunction: bool)
    ensures var ns := cfg.namespace; var r := ClearByTags(s, cfg, query, disjunction);
      && r.result
      && r.store - {ns} == s - {ns}
      && (ns in s ==> ns in r.store)
      && (ns in s ==> forall k :: k in r.store[ns] <==>
            k in s[ns] && !TagsMatch(query, s[ns][k].tags, disjunction))
      && (ns in s ==> forall k :: k in s[ns] && s[ns][k].tags == [] ==> k in r.store[ns])
      && (ns in s ==> forall k :: k in r.store[ns] ==> r.store[ns][k] == s[ns][k])
  {
  }

  /** The example of two entries, A tagged x and y, B tagged x: the conjunction of x and y
      removes only A, their disjunction removes both. */
  lemma TagQueryExample(ns: string)
    ensures var a := CacheItem("a", 0, 0, PHP_INT_MAX, ["x", "y"]);
      var b := CacheItem("b", 0, 0, PHP_INT_MAX, ["x"]);
      var s: Store<string> := map[ns := map["A" := a, "B" := b]];
      var cfg := Config(ns, 0.0, 0);
      && ClearByTags(s, cfg, ["x", "y"], false).store == map[ns := map["B" := b]]
      && ClearByTags(s, cfg, ["x", "y"], true).store == map[ns := map[]]
  {
    var a := CacheItem("a", 0, 0, PHP_INT_MAX, ["x", "y"]);
    var b := CacheItem("b", 0, 0, PHP_INT_MAX, ["x"]);
    var items: Items<string> := map["A" := a, "B" := b];
    ConjunctionMatchesAllTags(["x", "y"], a.tags);
    ConjunctionMatchesAllTags(["x", "y"], b.tags);
    assert "y" in ["x", "y"] && "y" !in b.tags;
    DisjunctionMatchesAnyTag(["x", "y"], a.tags);
    DisjunctionMatchesAnyTag(["x", "y"], b.tags);
    assert "x" in ["x", "y"] && "x" in b.tags && "x" in a.tags;
    assert WithoutTagged(items, ["x", "y"], false) == map["B" := b];
    assert WithoutTagged(items, ["x", "y"], true) == map[];
  }

  // ---------------------------------------------------------------------------
  // Bulk clears

  /** An empty namespace or prefix is rejected with InvalidArgument and nothing changes. */
  lemma EmptySelectorsRejected<V>(s: Store<V>, cfg: Config)
    ensures ClearByNamespace(s, "").result.Failure? && ClearByNamespace(s, "").result.error.InvalidArgument?
    ensures ClearByNamespace(s, "").store == s
    ensures ClearByPrefix(s, cfg, "").result.Failure? && ClearByPrefix(s, cfg, "").result.error.InvalidArgument?
    ensures ClearByPrefix(s, cfg, "").store == s
  {
  }

  /** clearByNamespace drops exactly the named namespace. */
  lemma ClearByNamespaceExact<V>(s: Store<V>, namespace: string)
    requires namespace != ""
    ensures var r := ClearByNamespace(s, namespace);
      r.result == Success(true) && namespace !in r.store && r.store.Keys == s.Keys - {namespace}
      && forall ns :: ns in r.store ==> r.store[ns] == s[ns]
  {
  }

  /** clearByPrefix removes from the active namespace exactly the keys starting with the
      prefix and leaves every other namespace as it was. */
  lemma ClearByPrefixExact<V>(s: Store<V>, cfg: Config, prefix: string)
    requires prefix != ""
    ensures var ns := cfg.namespace; var r := ClearByPrefix(s, cfg, prefix);
      && r.result == Success(true)
      && r.store - {ns} == s - {ns}
      && (ns in s <==> ns in r.store)
      && (ns in s ==> forall k :: k in r.store[ns] <==> k in s[ns] && !(prefix <= k))
      && (ns in s ==> forall k :: k in r.store[ns] ==> r.store[ns][k] == s[ns][k])
  {
  }

  /** clearExpired always returns true and removes from the active namespace exactly the
      entries whose expiry instant has been reached. */
  lemma ClearExpiredExact<V>(s: Store<V>, cfg: Config, now: nat)
    ensures var ns := cfg.namespace; var r := ClearExpired(s, cfg, now);
      && r.result
      && r.store - {ns} == s - {ns}
      && (ns in s <==> ns in r.store)
      && (ns in s ==> forall k :: k in r.store[ns] <==> k in s[ns] && now < s[ns][k].expires)
      && (ns in s ==> forall k :: k in r.store[ns] ==> r.store[ns][k] == s[ns][k])
  {
  }

  /** flush leaves no namespace at all, and every later read misses. */
  lemma FlushEmpties<V>(s: Store<V>, cfg: Config, now: nat, key: string)
    ensures Flush(s) == Step(true, map[])
    ensures GetItem(Flush(s).store, cfg, now, key).result == None
  {
  }

  /** getIterator yields exactly the live keys of the active namespace and leaves the
      store as clearExpired would. */
  lemma IteratorIsLiveKeys<V>(s: Store<V>, cfg: Config, now: nat)
    ensures var r := Iterate(s, cfg, now);
      && (forall k :: k in r.result <==> Lookup(s, cfg.namespace, k, now).Some?)
      && r.store == ClearExpired(s, cfg, now).store
  {
  }

  // ---------------------------------------------------------------------------
  // The entry invariant

  /** Every stored entry keeps created <= lastModified < expires. */
  ghost predicate WellFormed<V>(s: Store<V>)
  {
    forall ns, k :: ns in s && k in s[ns] ==> Consistent(s[ns][k])
  }

  /** The clock has not gone back behind any stored modification. */
  ghost predicate NotBefore<V>(s: Store<V>, now: nat)
  {
    forall ns, k :: ns in s && k in s[ns] ==> s[ns][k].lastModified <= now
  }

  /** As long as the clock does not go backwards and stays below PHP_INT_MAX, every
      write keeps every entry created <= lastModified < expires: set writes created =
      lastModified = now, replace and touch keep an older created and move lastModified
      to now, and every expiry lies after the instant that computed it. The clock stays
      ahead of every stored modification. */
  lemma WritesKeepWellFormed<V>(s: Store<V>, cfg: Config, now: nat, usage: nat, key: string, value: V)
    requires WellFormed(s) && NotBefore(s, now) && now < PHP_INT_MAX
    ensures WellFormed(SetItem(s, cfg, now, usage, key, value).store)
    ensures NotBefore(SetItem(s, cfg, now, usage, key, value).store, now)
    ensures WellFormed(AddItem(s, cfg, now, usage, key, value).store)
    ensures NotBefore(AddItem(s, cfg, now, usage, key, value).store, now)
    ensures WellFormed(ReplaceItem(s, cfg, now, key, value).store)
    ensures NotBefore(ReplaceItem(s, cfg, now, key, value).store, now)
    ensures WellFormed(TouchItem(s, cfg, now, key).store)
    ensures NotBefore(TouchItem(s, cfg, now, key).store, now)
  {
  }

  /** The reads, remove, the tag update and the clears only remove entries or change
      their tags, so they keep the store well formed too. */
  lemma RemovalsKeepWellFormed<V>(s: Store<V>, cfg: Config, now: nat, key: string, tags: seq<string>,
                                  disjunction: bool, prefix: string, namespace: string)
    requires WellFormed(s)
    ensures WellFormed(GetItem(s, cfg, now, key).store)
    ensures WellFormed(RemoveItem(s, cfg, now, key).store)
    ensures WellFormed(SetTags(s, cfg, key, tags).store)
    ensures WellFormed(ClearExpired(s, cfg, now).store)
    ensures WellFormed(Iterate(s, cfg, now).store)
    ensures WellFormed(ClearByNamespace(s, namespace).store)
    ensures WellFormed(ClearByPrefix(s, cfg, prefix).store)
    ensures WellFormed(ClearByTags(s, cfg, tags, disjunction).store)
  {
  }

  /** Removals and the tag update never move a modification time, so the clock stays
      ahead of every stored modification across them as well. */
  lemma RemovalsKeepNotBefore<V>(s: Store<V>, cfg: Config, now: nat, key: string, tags: seq<string>,
                                 disjunction: bool, prefix: string, namespace: string)
    requires NotBefore(s, now)
    ensures NotBefore(GetItem(s, cfg, now, key).store, now)
    ensures NotBefore(RemoveItem(s, cfg, now, key).store, now)
    ensures NotBefore(SetTags(s, cfg, key, tags).store, now)
    ensures NotBefore(ClearExpired(s, cfg, now).store, now)
    ensures NotBefore(Iterate(s, cfg, now).store, now)
    ensures NotBefore(ClearByNamespace(s, namespace).store, now)
    ensures NotBefore(ClearByPrefix(s, cfg, prefix).store, now)
    ensures NotBefore(ClearByTags(s, cfg, tags, disjunction).store, now)
  {
  }

  /** The entry invariant chains across a run of operations whose clock readings do not
      decrease: starting from the empty store, a set at t1, a tag update, a replace at t2
      and a clearExpired at t3 leave every entry created <= lastModified < expires. */
  lemma InvariantAcrossOperations<V>(cfg: Config, usage: nat, key: string, v1: V, v2: V, tags: seq<string>,
                                     t1: nat, t2: nat, t3: nat)
    requires t1 <= t2 <= t3 < PHP_INT_MAX
    ensures var s1 := SetItem(map[], cfg, t1, usage, key, v1).store;
      var s2 := SetTags(s1, cfg, key, tags).store;
      var s3 := ReplaceItem(s2, cfg, t2, key, v2).store;
      && WellFormed(ClearExpired(s3, cfg, t3).store)
      && NotBefore(ClearExpired(s3, cfg, t3).store, t3)
  {
    var s0: Store<V> := map[];
    WritesKeepWellFormed(s0, cfg, t1, usage, key, v1);
    var s1 := SetItem(s0, cfg, t1, usage, key, v1).store;
    RemovalsKeepWellFormed(s1, cfg, t1, key, tags, false, "", "");
    RemovalsKeepNotBefore(s1, cfg, t1, key, tags, false, "", "");
    var s2 := SetTags(s1, cfg, key, tags).store;
    NotBeforeLater(s2, t1, t2);
    WritesKeepWellFormed(s2, cfg, t2, 0, key, v2);
    var s3 := ReplaceItem(s2, cfg, t2, key, v2).store;
    NotBeforeLater(s3, t2, t3);
    RemovalsKeepWellFormed(s3, cfg, t3, key, tags, false, "", "");
    RemovalsKeepNotBefore(s3, cfg, t3, key, tags, false, "", "");
  }

  /** A clock that moves forward stays ahead of every stored modification. */
  lemma NotBeforeLater<V>(s: Store<V>, t: nat, t': nat)
    requires NotBefore(s, t) && t <= t'
    ensures NotBefore(s, t')
  {
  }
}
