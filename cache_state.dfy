/** The cache manager's state and its operations as pure transitions: what
    `get`, `set`, `markDirty` and `clear` do to the three collections
    (`cache`, `dirtyFlags`, `dataVersions`) and what they return.  The class
    `Cache.CacheManager` holds this state in fields and is proved to make
    exactly these transitions. */
module CacheState {
  import opened Wrappers

  /** `CacheEntry`.  `lastModified` and `timestamp` are both the instant
      (milliseconds) at which the entry was stored; the source formats the
      former as an HTTP date. */
  datatype Entry<T> = Entry(
    data: T,
    etag: string,
    lastModified: int,
    dataVersion: nat,
    timestamp: int,
    sizeBytes: nat)

  /** `JSON.stringify` and the MD5 hex digest, injected: the model states
      nothing about them beyond their being functions. */
  datatype Fingerprint<!T> = Fingerprint(stringify: T -> string, md5Hex: string -> string)

  /** `generateETag`: the digest of the serialised payload, in double quotes. */
  function ETag<T>(fp: Fingerprint<T>, data: T): string {
    "\"" + fp.md5Hex(fp.stringify(data)) + "\""
  }

  // ---------------------------------------------------------------- TTLs

  const SECOND: nat := 1000
  const MINUTE: nat := 60 * SECOND
  const DEFAULT_TTL: nat := 60 * SECOND

  /** `TTL_CONFIG`, in milliseconds, keyed by resource type. */
  const TTL_CONFIG: map<string, nat> := map[
    "products#index" := 60 * SECOND,
    "recipes#index" := 5 * MINUTE,
    "persons#index" := 15 * MINUTE,
    "movements#last-30d" := 1 * MINUTE,
    "inventory_snapshot" := 2 * MINUTE,
    "low_stock" := 2 * MINUTE]

  predicate DoubleSlashAt(s: string, j: int) {
    0 <= j && j + 1 < |s| && s[j] == '/' && s[j + 1] == '/'
  }

  /** Leftmost occurrence of "//" in `s` at or after `from`. */
  function FindDoubleSlash(s: string, from: nat): (r: Option<nat>)
    decreases |s| - from
    ensures r.Some? ==> from <= r.value && DoubleSlashAt(s, r.value)
    ensures r.Some? ==> forall j :: from <= j < r.value ==> !DoubleSlashAt(s, j)
    ensures r.None? ==> forall j :: from <= j ==> !DoubleSlashAt(s, j)
  {
    if from + 1 >= |s| then None
    else if DoubleSlashAt(s, from) then Some(from)
    else FindDoubleSlash(s, from + 1)
  }

  /** `uri.split('//')[1]`: the text between the first "//" and the next
      one (or the end); `None` when there is no "//" at all. */
  function SecondPiece(uri: string): Option<string> {
    match FindDoubleSlash(uri, 0)
    case None => None
    case Some(i) =>
      var rest := uri[i + 2..];
      match FindDoubleSlash(rest, 0)
      case None => Some(rest)
      case Some(j) => Some(rest[..j])
  }

  /** `p.split('/').pop()`: the text after the last '/'. */
  function AfterLastSlash(p: string): (r: string)
    ensures '/' !in r
    ensures |r| <= |p| && r == p[|p| - |r|..]
    ensures |r| < |p| ==> p[|p| - |r| - 1] == '/'
  {
    if p == [] then []
    else if p[|p| - 1] == '/' then []
    else AfterLastSlash(p[..|p| - 1]) + [p[|p| - 1]]
  }

  /** `uri.split('//')[1]?.split('/').pop() || ''`. */
  function ResourceType(uri: string): string {
    match SecondPiece(uri)
    case None => ""
    case Some(p) => AfterLastSlash(p)
  }

  /** The resource URIs all have the form `mcp://<host>/<name>`. */
  function McpUri(host: string, name: string): string {
    "mcp://" + host + "/" + name
  }

  /** `getTTL`: the configured TTL of the URI's resource type, or the
      default when the type is not configured (or configured as 0). */
  function GetTTL(uri: string): nat {
    var rt := ResourceType(uri);
    if rt in TTL_CONFIG && TTL_CONFIG[rt] != 0 then TTL_CONFIG[rt] else DEFAULT_TTL
  }

  // --------------------------------------------------------------- state

  datatype State<T> = State(
    cache: map<string, Entry<T>>,
    dirtyFlags: set<string>,
    dataVersions: map<string, nat>)

  /** Every stored entry carries the current version counter of its URI,
      and counters start at 1. */
  predicate Valid<T>(s: State<T>) {
    forall uri :: uri in s.cache ==>
      uri in s.dataVersions && s.cache[uri].dataVersion == s.dataVersions[uri] >= 1
  }

  function Empty<T>(): State<T> {
    State(map[], {}, map[])
  }

  /** `this.dataVersions.get(uri) || 0`. */
  function CurrentVersion<T>(s: State<T>, uri: string): nat {
    if uri in s.dataVersions then s.dataVersions[uri] else 0
  }

  /** Whether the stored entry for `uri` has outlived its TTL at `now`. */
  predicate Expired<T>(e: Entry<T>, uri: string, now: int) {
    now - e.timestamp > GetTTL(uri)
  }

  /** `get(uri, ifNoneMatch)` at time `now`: the state afterwards and the
      answer.  An expired entry is removed.  `ifNoneMatch` is accepted and
      ignored: both of the source's final branches return the entry. */
  function Get<T>(s: State<T>, uri: string, ifNoneMatch: Option<string>, now: int): (State<T>, Option<Entry<T>>) {
    if uri !in s.cache then (s, None)
    else if uri in s.dirtyFlags then (s, None)
    else if Expired(s.cache[uri], uri, now) then (s.(cache := s.cache - {uri}), None)
    else (s, Some(s.cache[uri]))
  }

  /** `set(uri, data)` at time `now`: the new state and the stored entry. */
  function Set<T>(s: State<T>, fp: Fingerprint<T>, uri: string, data: T, now: int): (State<T>, Entry<T>) {
    var version := CurrentVersion(s, uri) + 1;
    var e := Entry(data, ETag(fp, data), now, version, now, |fp.stringify(data)|);
    (State(s.cache[uri := e], s.dirtyFlags - {uri}, s.dataVersions[uri := version]), e)
  }

  /** `markDirty(uri)`. */
  function MarkDirty<T>(s: State<T>, uri: string): State<T> {
    s.(dirtyFlags := s.dirtyFlags + {uri})
  }

  /** `clear()`: entries and dirty flags go, version counters stay. */
  function Clear<T>(s: State<T>): State<T> {
    s.(cache := map[], dirtyFlags := {})
  }

  // ------------------------------------------------ manifest and stats

  datatype ManifestItem = ManifestItem(etag: string, dataVersion: nat, lastModified: int)

  function ManifestItemOf<T>(e: Entry<T>): ManifestItem {
    ManifestItem(e.etag, e.dataVersion, e.lastModified)
  }

  datatype Stats = Stats(entries: nat, totalSize: nat, dirtyCount: nat)

  /** Sum of `sizeBytes` over the entries stored under `uris`. */
  ghost function SumSizes<T>(m: map<string, Entry<T>>, uris: set<string>): nat
    requires uris <= m.Keys
    decreases uris
  {
    if uris == {} then 0
    else
      var u :| u in uris;
      m[u].sizeBytes + SumSizes(m, uris - {u})
  }

  /** The sum does not depend on which entry is taken first. */
  lemma {:induction false} SumSizesRemove<T>(m: map<string, Entry<T>>, uris: set<string>, u: string)
    requires uris <= m.Keys && u in uris
    ensures SumSizes(m, uris) == m[u].sizeBytes + SumSizes(m, uris - {u})
    decreases uris
  {
    var v :| v in uris && SumSizes(m, uris) == m[v].sizeBytes + SumSizes(m, uris - {v});
    if v != u {
      SumSizesRemove(m, uris - {v}, u);
      SumSizesRemove(m, uris - {u}, v);
      assert uris - {v} - {u} == uris - {u} - {v};
    }
  }
}
