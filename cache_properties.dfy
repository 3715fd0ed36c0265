/** What the cache manager's transitions guarantee: when `get` answers,
    what `set` stores, how TTLs are looked up, and that version counters
    never go back, not even across `clear`. */
module CacheProperties {
  import opened Wrappers
  import opened CacheState

  // ------------------------------------------------------------- ETags

  /** The quotes around the digest lose nothing: two ETags are equal exactly
      when the digests of the two serialisations are. */
  lemma ETagMatchesIffDigestsMatch<T>(fp: Fingerprint<T>, a: T, b: T)
    ensures ETag(fp, a) == ETag(fp, b) <==> fp.md5Hex(fp.stringify(a)) == fp.md5Hex(fp.stringify(b))
  {
    var da, db := fp.md5Hex(fp.stringify(a)), fp.md5Hex(fp.stringify(b));
    if ETag(fp, a) == ETag(fp, b) {
      assert da == ETag(fp, a)[1..|ETag(fp, a)| - 1];
      assert db == ETag(fp, b)[1..|ETag(fp, b)| - 1];
    }
  }

  // -------------------------------------------------------------- TTLs

  /** In a URI of the form `mcp://<host>/<name>`, the resource type used to
      look up the TTL is `<name>`. */
  lemma {:induction false} ResourceTypeOfMcpUri(host: string, name: string)
    requires '/' !in host && '/' !in name
    ensures ResourceType(McpUri(host, name)) == name
  {
    var u := McpUri(host, name);
    assert DoubleSlashAt(u, 4);
    assert forall j :: 0 <= j < 4 ==> !DoubleSlashAt(u, j);
    var i := FindDoubleSlash(u, 0);
    assert i == Some(4);
    var rest := u[6..];
    assert rest == host + "/" + name;
    assert rest[|host|] == '/';
    forall j | 0 <= j < |rest| && j != |host| ensures rest[j] != '/' {
      if j < |host| {
        assert rest[j] == host[j] && host[j] in host;
      } else {
        assert rest[j] == name[j - |host| - 1] && name[j - |host| - 1] in name;
      }
    }
    assert forall j :: !DoubleSlashAt(rest, j);
    assert FindDoubleSlash(rest, 0).None?;
    var r := AfterLastSlash(rest);
    assert forall k :: |rest| - |r| <= k < |rest| ==> rest[k] == r[k - (|rest| - |r|)];
    assert |rest| - |r| > |host|;
    assert r == name;
  }

  /** The TTL of `mcp://<host>/<name>` is the one configured for `<name>`,
      or 60 s for a name the table does not list. */
  lemma TtlOfMcpUri(host: string, name: string)
    requires '/' !in host && '/' !in name
    ensures GetTTL(McpUri(host, name))
         == if name in TTL_CONFIG then TTL_CONFIG[name] else 60 * 1000
  {
    ResourceTypeOfMcpUri(host, name);
  }

  /** The table itself, for URIs of the form `mcp://<host>/<name>`:
      products and movements 60 s, recipes 5 min, persons 15 min. */
  lemma TtlTable(host: string)
    requires '/' !in host
    ensures GetTTL(McpUri(host, "products#index")) == 60000
    ensures GetTTL(McpUri(host, "movements#last-30d")) == 60000
    ensures GetTTL(McpUri(host, "recipes#index")) == 300000
    ensures GetTTL(McpUri(host, "persons#index")) == 900000
  {
    assert GetTTL(McpUri(host, "products#index")) == 60000 by {
      TtlOfConfigured(host, "products#index");
    }
    assert GetTTL(McpUri(host, "movements#last-30d")) == 60000 by {
      TtlOfConfigured(host, "movements#last-30d");
    }
    assert GetTTL(McpUri(host, "recipes#index")) == 300000 by {
      TtlOfConfigured(host, "recipes#index");
    }
    assert GetTTL(McpUri(host, "persons#index")) == 900000 by {
      TtlOfConfigured(host, "persons#index");
    }
  }

  lemma TtlOfConfigured(host: string, name: string)
    requires '/' !in host && name in TTL_CONFIG
    ensures GetTTL(McpUri(host, name)) == TTL_CONFIG[name]
  {
    assert '/' !in name;
    TtlOfMcpUri(host, name);
  }

  /** A URI without "//" has no resource type and gets the default TTL. */
  lemma TtlWithoutDoubleSlash(uri: string)
    requires forall j :: !DoubleSlashAt(uri, j)
    ensures ResourceType(uri) == "" && GetTTL(uri) == 60 * 1000
  {
    assert FindDoubleSlash(uri, 0).None?;
    assert "" !in TTL_CONFIG;
  }

  // --------------------------------------------------------------- get

  /** When `get` answers with an entry: exactly when one is stored, the URI
      is not dirty and the entry's age is at most the TTL (an entry exactly
      TTL old is still served).  The answer is the stored entry, and then
      the state is unchanged. */
  lemma GetAnswersIffLive<T>(s: State<T>, uri: string, ifNoneMatch: Option<string>, now: int)
    ensures var (s', r) := Get(s, uri, ifNoneMatch, now);
      && (r.Some? <==>
           uri in s.cache && uri !in s.dirtyFlags && now - s.cache[uri].timestamp <= GetTTL(uri))
      && (r.Some? ==> r.value == s.cache[uri] && s' == s)
  {
  }

  /** `get` on a URI with no entry answers null and changes nothing. */
  lemma GetMissing<T>(s: State<T>, uri: string, ifNoneMatch: Option<string>, now: int)
    requires uri !in s.cache
    ensures Get(s, uri, ifNoneMatch, now) == (s, None)
  {
  }

  /** `get` on a dirty URI answers null but keeps the stored entry, however
      old it is. */
  lemma GetDirtyKeepsEntry<T>(s: State<T>, uri: string, ifNoneMatch: Option<string>, now: int)
    requires uri in s.cache && uri in s.dirtyFlags
    ensures Get(s, uri, ifNoneMatch, now) == (s, None)
    ensures uri in Get(s, uri, ifNoneMatch, now).0.cache
  {
  }

  /** The only thing `get` ever changes: it drops the entry of `uri` exactly
      when that entry is clean and older than the TTL. */
  lemma GetEvictsExactlyExpired<T>(s: State<T>, uri: string, ifNoneMatch: Option<string>, now: int)
    ensures var (s', _) := Get(s, uri, ifNoneMatch, now);
      && s'.dirtyFlags == s.dirtyFlags
      && s'.dataVersions == s.dataVersions
      && (uri !in s'.cache <==> uri !in s.cache || (uri !in s.dirtyFlags && Expired(s.cache[uri], uri, now)))
      && s'.cache == s.cache - (s.cache.Keys - s'.cache.Keys)
      && s'.cache.Keys - {uri} == s.cache.Keys - {uri}
  {
  }

  /** `ifNoneMatch` never changes what `get` does. */
  lemma GetIgnoresIfNoneMatch<T>(s: State<T>, uri: string, a: Option<string>, b: Option<string>, now: int)
    ensures Get(s, uri, a, now) == Get(s, uri, b, now)
  {
  }

  // --------------------------------------------------------------- set

  /** `set(uri, d)` stores an entry carrying `d`, its ETag and the next
      version of `uri`; it clears the dirty flag of `uri` only, and leaves
      every other URI's entry and counter alone. */
  lemma SetStores<T>(s: State<T>, fp: Fingerprint<T>, uri: string, d: T, now: int)
    ensures var (s', e) := Set(s, fp, uri, d, now);
      && e.data == d && e.etag == ETag(fp, d)
      && e.dataVersion == CurrentVersion(s, uri) + 1
      && e.timestamp == now && e.lastModified == now
      && e.sizeBytes == |fp.stringify(d)|
      && s'.cache == s.cache[uri := e]
      && s'.dirtyFlags == s.dirtyFlags - {uri}
      && CurrentVersion(s', uri) == e.dataVersion
      && (forall u :: u != uri ==> CurrentVersion(s', u) == CurrentVersion(s, u))
  {
  }

  /** A `get` made no later than TTL after a `set` answers with exactly the
      entry the `set` stored, whatever `ifNoneMatch` is. A clock reading
      earlier than the `set` also hits: the age is then negative. */
  lemma SetThenGet<T>(s: State<T>, fp: Fingerprint<T>, uri: string, d: T, now: int,
                      later: int, ifNoneMatch: Option<string>)
    requires later <= now + GetTTL(uri)
    ensures var (s', e) := Set(s, fp, uri, d, now);
      Get(s', uri, ifNoneMatch, later) == (s', Some(e))
  {
  }

  /** A `get` made more than TTL after a `set` answers null and evicts. */
  lemma SetThenGetExpired<T>(s: State<T>, fp: Fingerprint<T>, uri: string, d: T, now: int,
                             later: int, ifNoneMatch: Option<string>)
    requires later > now + GetTTL(uri)
    ensures var (s', e) := Set(s, fp, uri, d, now);
      var (s'', r) := Get(s', uri, ifNoneMatch, later);
      r == None && uri !in s''.cache && |s''.cache| == |s'.cache| - 1
  {
    var (s', e) := Set(s, fp, uri, d, now);
    assert s'.cache.Keys - {uri} == (s'.cache - {uri}).Keys;
  }

  // --------------------------------------------------------- markDirty

  lemma MarkDirtyIdempotent<T>(s: State<T>, uri: string)
    ensures MarkDirty(MarkDirty(s, uri), uri) == MarkDirty(s, uri)
  {
  }

  /** After `markDirty(uri)`, `get(uri)` answers null at any time, keeps the
      entry, and a later `set(uri)` is served again. */
  lemma MarkDirtyHidesUntilSet<T>(s: State<T>, fp: Fingerprint<T>, uri: string, d: T,
                                  now: int, ifNoneMatch: Option<string>)
    ensures var s' := MarkDirty(s, uri);
      && Get(s', uri, ifNoneMatch, now).1 == None
      && s'.cache == s.cache
      && var (s'', e) := Set(s', fp, uri, d, now);
         Get(s'', uri, ifNoneMatch, now).1 == Some(e)
  {
  }

  /** The dirty count may count URIs that have no entry: marking an absent,
      clean URI raises it by one and leaves the entries alone. */
  lemma MarkDirtyAbsentCounts<T>(s: State<T>, uri: string)
    requires uri !in s.cache && uri !in s.dirtyFlags
    ensures |MarkDirty(s, uri).dirtyFlags| == |s.dirtyFlags| + 1
    ensures MarkDirty(s, uri).cache == s.cache
  {
  }

  // ------------------------------------------------- versions over time

  /** One call on the cache manager. */
  datatype Op<T> =
    | GetOp(uri: string, ifNoneMatch: Option<string>, now: int)
    | SetOp(uri: string, data: T, now: int)
    | MarkDirtyOp(uri: string)
    | ClearOp

  function Step<T>(s: State<T>, fp: Fingerprint<T>, op: Op<T>): State<T> {
    match op
    case GetOp(uri, inm, now) => Get(s, uri, inm, now).0
    case SetOp(uri, d, now) => Set(s, fp, uri, d, now).0
    case MarkDirtyOp(uri) => MarkDirty(s, uri)
    case ClearOp => Clear(s)
  }

  /** The state after a sequence of calls, in order. */
  function Run<T>(s: State<T>, fp: Fingerprint<T>, ops: seq<Op<T>>): State<T>
    decreases |ops|
  {
    if ops == [] then s else Run(Step(s, fp, ops[0]), fp, ops[1..])
  }

  ghost predicate VersionsNotBelow<T>(s: State<T>, s': State<T>) {
    forall u :: CurrentVersion(s', u) >= CurrentVersion(s, u)
  }

  /** Every call keeps the entries' versions tied to the counters and never
      lowers a counter; `set` raises its URI's counter by exactly one. */
  lemma StepKeepsValidAndVersions<T>(s: State<T>, fp: Fingerprint<T>, op: Op<T>)
    requires Valid(s)
    ensures Valid(Step(s, fp, op))
    ensures VersionsNotBelow(s, Step(s, fp, op))
    ensures op.SetOp? ==> CurrentVersion(Step(s, fp, op), op.uri) == CurrentVersion(s, op.uri) + 1
    ensures !op.SetOp? ==> Step(s, fp, op).dataVersions == s.dataVersions
  {
  }

  lemma {:induction false} RunKeepsValidAndVersions<T>(s: State<T>, fp: Fingerprint<T>, ops: seq<Op<T>>)
    requires Valid(s)
    ensures Valid(Run(s, fp, ops))
    ensures VersionsNotBelow(s, Run(s, fp, ops))
    decreases |ops|
  {
    if ops != [] {
      var s1 := Step(s, fp, ops[0]);
      StepKeepsValidAndVersions(s, fp, ops[0]);
      RunKeepsValidAndVersions(s1, fp, ops[1..]);
    }
  }

  /** Versions never repeat: whatever calls happen in between (evictions,
      `markDirty`, `clear` included), a `set` of `uri` stores a version
      strictly greater than that of any entry `uri` had before. */
  lemma VersionNeverReissued<T>(s: State<T>, fp: Fingerprint<T>, ops: seq<Op<T>>,
                                uri: string, d: T, now: int)
    requires Valid(s) && uri in s.cache
    ensures Set(Run(s, fp, ops), fp, uri, d, now).1.dataVersion > s.cache[uri].dataVersion
  {
    RunKeepsValidAndVersions(s, fp, ops);
    assert CurrentVersion(Run(s, fp, ops), uri) >= CurrentVersion(s, uri);
  }

  /** `clear()` keeps the version counters: a `set(uri, d)` right after it
      stores the next version of `uri`, above that of the cleared entry. */
  lemma ClearThenSetRaisesVersion<T>(s: State<T>, fp: Fingerprint<T>, uri: string, d: T, now: int)
    requires Valid(s)
    ensures var e := Set(Clear(s), fp, uri, d, now).1;
      && e.dataVersion == CurrentVersion(s, uri) + 1
      && (uri in s.cache ==> e.dataVersion > s.cache[uri].dataVersion)
  {
  }
}
