/** `CacheManager`: the in-process store of computed resource payloads.
    Its three collections are fields that the methods reassign; each method
    is proved to make the transition that `CacheState` defines. */
module Cache {
  import opened Wrappers
  import opened CacheState

  class CacheManager<T> {
    var cache: map<string, Entry<T>>
    var dirtyFlags: set<string>
    var dataVersions: map<string, nat>
    /** `JSON.stringify` and the MD5 digest behind `generateETag`. */
    const fp: Fingerprint<T>

    function State(): CacheState.State<T>
      reads this
    {
      CacheState.State(cache, dirtyFlags, dataVersions)
    }

    ghost predicate Valid()
      reads this
    {
      CacheState.Valid(State())
    }

    constructor (fp: Fingerprint<T>)
      ensures Valid() && this.fp == fp
      ensures State() == CacheState.Empty()
    {
      this.fp := fp;
      cache := map[];
      dirtyFlags := {};
      dataVersions := map[];
    }

    /** `generateETag(data)`, with this manager's serialiser and digest. */
    function GenerateETag(data: T): (tag: string)
      reads this
      ensures tag == "\"" + fp.md5Hex(fp.stringify(data)) + "\""
    {
      ETag(fp, data)
    }

    /** `get(uri, ifNoneMatch)`, with the clock reading `now`. */
    method Get(uri: string, ifNoneMatch: Option<string>, now: int) returns (r: Option<Entry<T>>)
      requires Valid()
      modifies this
      ensures Valid()
      ensures (State(), r) == CacheState.Get(old(State()), uri, ifNoneMatch, now)
    {
      if uri !in cache {
        return None;
      }
      var entry := cache[uri];
      if uri in dirtyFlags {
        return None;
      }
      var ttl := GetTTL(uri);
      if now - entry.timestamp > ttl {
        cache := cache - {uri};
        return None;
      }
      // A matching `ifNoneMatch` returns the entry just as a mismatch does.
      return Some(entry);
    }

    /** `incrementVersion(uri)`. */
    method IncrementVersion(uri: string) returns (next: nat)
      modifies this
      ensures next == CurrentVersion(old(State()), uri) + 1
      ensures dataVersions == old(dataVersions)[uri := next]
      ensures cache == old(cache) && dirtyFlags == old(dirtyFlags)
    {
      var current := if uri in dataVersions then dataVersions[uri] else 0;
      next := current + 1;
      dataVersions := dataVersions[uri := next];
    }

    /** `set(uri, data)`, with the clock reading `now`. */
    method Set(uri: string, data: T, now: int) returns (entry: Entry<T>)
      requires Valid()
      modifies this
      ensures Valid()
      ensures (State(), entry) == CacheState.Set(old(State()), fp, uri, data, now)
    {
      var etag := GenerateETag(data);
      var dataVersion := IncrementVersion(uri);
      var sizeBytes := |fp.stringify(data)|;
      entry := Entry(data, etag, now, dataVersion, now, sizeBytes);
      cache := cache[uri := entry];
      dirtyFlags := dirtyFlags - {uri};
    }

    /** `markDirty(uri)`. */
    method MarkDirty(uri: string)
      requires Valid()
      modifies this
      ensures Valid()
      ensures State() == CacheState.MarkDirty(old(State()), uri)
    {
      dirtyFlags := dirtyFlags + {uri};
    }

    /** `clear()`. */
    method Clear()
      requires Valid()
      modifies this
      ensures Valid()
      ensures State() == CacheState.Clear(old(State()))
    {
      cache := map[];
      dirtyFlags := {};
    }

    /** `getVersionManifest()`: one item per stored entry, whether or not it
        is dirty or past its TTL. */
    method GetVersionManifest() returns (manifest: map<string, ManifestItem>)
      ensures manifest.Keys == cache.Keys
      ensures forall uri :: uri in manifest ==>
        manifest[uri] == ManifestItem(cache[uri].etag, cache[uri].dataVersion, cache[uri].lastModified)
    {
      manifest := map[];
      var rest := cache.Keys;
      while rest != {}
        invariant rest <= cache.Keys
        invariant manifest.Keys == cache.Keys - rest
        invariant forall uri :: uri in manifest ==> manifest[uri] == ManifestItemOf(cache[uri])
        decreases rest
      {
        var uri :| uri in rest;
        manifest := manifest[uri := ManifestItemOf(cache[uri])];
        rest := rest - {uri};
      }
    }

    /** `getStats()`. */
    method GetStats() returns (stats: Stats)
      ensures stats.entries == |cache|
      ensures stats.totalSize == SumSizes(cache, cache.Keys)
      ensures stats.dirtyCount == |dirtyFlags|
    {
      var totalSize := 0;
      var rest := cache.Keys;
      while rest != {}
        invariant rest <= cache.Keys
        invariant totalSize + SumSizes(cache, rest) == SumSizes(cache, cache.Keys)
        decreases rest
      {
        var uri :| uri in rest;
        SumSizesRemove(cache, rest, uri);
        totalSize := totalSize + cache[uri].sizeBytes;
        rest := rest - {uri};
      }
      stats := Stats(|cache|, totalSize, |dirtyFlags|);
    }
  }
}
