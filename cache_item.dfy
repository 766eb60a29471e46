/** The entry record stored for every key (src/Memory/CacheItem.php). */
module CacheItemRecord {

  /** One cache entry. `created` never changes once the entry exists; `lastModified`,
      `expires` and `tags` are the fields the PHP class leaves mutable.

      The PHP constructor starts with a `key` parameter, but every construction site in
      Memory.php passes the value first and no key at all; this record follows the field
      order those call sites intend (value, created, lastModified, expires, tags) and has
      no key: the key is the index of the entry in its namespace map. */
  datatype CacheItem<V> = CacheItem(
    value: V,
    created: nat,
    lastModified: nat,
    expires: nat,
    tags: seq<string>)

  /** The invariant an entry is meant to keep: it was created no later than its last
      modification, and that modification happened before it expires. */
  predicate Consistent<V>(item: CacheItem<V>)
  {
    item.created <= item.lastModified < item.expires
  }
}
