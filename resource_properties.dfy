/** What the cached resources promise: no store read and no `set` on a hit,
    exactly one version bump on a successful miss, nothing stored on an
    error, a returned ETag that revalidates, and payloads without personal
    data. */
module ResourceProperties {
  import opened Wrappers
  import opened Strings
  import opened Sorting
  import opened CacheState
  import opened CacheProperties
  import opened PersonProjection
  import opened MovementProjection
  import opened Resources

  /** A hit leaves the cache as it was and answers from the live entry:
      "Not Modified" when `ifNoneMatch` is its ETag, its payload otherwise,
      with its metadata either way; what the store holds does not matter. */
  lemma ServeHit<T>(s: State<T>, fp: Fingerprint<T>, uri: string, ifNoneMatch: Option<string>, now: int,
                    computed: Result<T>, other: Result<T>)
    requires Live(s, uri, now)
    ensures var (s', r) := Serve(s, fp, uri, ifNoneMatch, now, computed);
      var e := s.cache[uri];
      && s' == s
      && r.meta == Some(Meta(e.etag, e.lastModified, e.dataVersion))
      && r.body == (if ifNoneMatch == Some(e.etag) then NotModified else Data(e.data))
      && Serve(s, fp, uri, ifNoneMatch, now, other) == (s', r)
  {
  }

  /** A miss with a computed payload stores it under the next version of
      the URI, clears the URI's dirty flag, leaves every other URI alone,
      and answers with the payload and the new entry's metadata. */
  lemma ServeMiss<T>(s: State<T>, fp: Fingerprint<T>, uri: string, ifNoneMatch: Option<string>, now: int, d: T)
    requires !Live(s, uri, now)
    ensures var (s', r) := Serve(s, fp, uri, ifNoneMatch, now, Success(d));
      var v := CurrentVersion(s, uri) + 1;
      && uri in s'.cache
      && s'.cache[uri] == Entry(d, ETag(fp, d), now, v, now, |fp.stringify(d)|)
      && uri !in s'.dirtyFlags
      && CurrentVersion(s', uri) == v
      && r == Response(uri, Data(d), Some(Meta(ETag(fp, d), now, v)))
      && (forall u :: u != uri ==> (u in s'.cache <==> u in s.cache))
      && (forall u :: u != uri && u in s.cache ==> s'.cache[u] == s.cache[u])
      && (forall u :: u != uri ==> (u in s'.dirtyFlags <==> u in s.dirtyFlags))
      && (forall u :: u != uri ==> CurrentVersion(s', u) == CurrentVersion(s, u))
  {
  }

  /** A miss whose computation fails answers with the internal-error body
      and no metadata, and stores nothing: the only change is the eviction
      `get` makes of an expired entry. */
  lemma ServeError<T>(s: State<T>, fp: Fingerprint<T>, uri: string, ifNoneMatch: Option<string>, now: int, err: string)
    requires !Live(s, uri, now)
    ensures var (s', r) := Serve(s, fp, uri, ifNoneMatch, now, Failure(err));
      && r == Response(uri, InternalError, None)
      && s'.dataVersions == s.dataVersions
      && s'.dirtyFlags == s.dirtyFlags
      && s'.cache == (if uri in s.cache && uri !in s.dirtyFlags then s.cache - {uri} else s.cache)
  {
  }

  /** Over any request, a URI's version counter rises by one exactly when
      the request is a miss whose computation succeeds, and otherwise stays;
      other URIs' counters never move. */
  lemma ServeVersions<T>(s: State<T>, fp: Fingerprint<T>, uri: string, ifNoneMatch: Option<string>, now: int,
                         computed: Result<T>, u: string)
    requires Valid(s)
    ensures var (s', r) := Serve(s, fp, uri, ifNoneMatch, now, computed);
      && Valid(s')
      && CurrentVersion(s', u)
         == CurrentVersion(s, u) + (if u == uri && !Live(s, uri, now) && computed.Success? then 1 else 0)
  {
  }

  /** The ETag a miss returns revalidates: the same URI asked for with it
      no later than TTL afterwards is answered "Not Modified" with the same
      metadata, and the cache stays as the miss left it. An earlier clock
      reading also revalidates: the entry's age is then negative. */
  lemma ServeThenRevalidate<T>(s: State<T>, fp: Fingerprint<T>, uri: string, ifNoneMatch: Option<string>, now: int,
                               d: T, later: int, computed: Result<T>)
    requires !Live(s, uri, now)
    requires later <= now + GetTTL(uri)
    ensures var (s', r) := Serve(s, fp, uri, ifNoneMatch, now, Success(d));
      Serve(s', fp, uri, Some(ETag(fp, d)), later, computed) == (s', Response(uri, NotModified, r.meta))
  {
  }

  /** The movements aggregate is served from the cache for 60 s: a request
      60 s after a miss is a hit, one a millisecond later is a miss again,
      which stores the newly computed aggregate under the next version. */
  lemma MovementsTtlScenario(s: State<Payload>, fp: Fingerprint<Payload>, ifNoneMatch: Option<string>, now: int,
                             d: Payload, d2: Payload, computed: Result<Payload>)
    requires !Live(s, MOVEMENTS_URI, now)
    ensures var (s1, r1) := Serve(s, fp, MOVEMENTS_URI, ifNoneMatch, now, Success(d));
      var (s2, r2) := Serve(s1, fp, MOVEMENTS_URI, None, now + 60000, computed);
      var (s3, r3) := Serve(s1, fp, MOVEMENTS_URI, None, now + 60001, Success(d2));
      && s2 == s1 && r2.body == Data(d) && r2.meta == r1.meta
      && r3.body == Data(d2)
      && CurrentVersion(s3, MOVEMENTS_URI) == CurrentVersion(s, MOVEMENTS_URI) + 2
  {
    TtlTable(HOST);
  }

  // ---------------------------------------------------------- payloads

  /** The persons payload holds one projection per fetched person (at most
      100), ordered by id. */
  lemma PersonsPayloadContents(docs: seq<Person>)
    ensures var persons := Take(docs, INDEX_FETCH_LIMIT);
      var projections := seq(|persons|, i requires 0 <= i < |persons| => ToPersonIndexProjection(persons[i]));
      && PersonsPayload(Success(docs)).Success?
      && var payload := PersonsPayload(Success(docs)).value.persons;
      && |payload| <= INDEX_FETCH_LIMIT
      && multiset(payload) == multiset(projections)
      && (forall i, j :: 0 <= i < j < |payload| ==> StrLe(payload[i].id, payload[j].id))
  {
    var persons := Take(docs, INDEX_FETCH_LIMIT);
    var projections := seq(|persons|, i requires 0 <= i < |persons| => ToPersonIndexProjection(persons[i]));
    SortedPersonsIndex(projections);
  }

  /** The persons payload is the same whatever phones and addresses the
      documents carry: no personal data reaches the cache. */
  lemma PersonsPayloadIgnoresPii(docs: seq<Person>)
    ensures var redacted := seq(|docs|, i requires 0 <= i < |docs| => WithoutPii(docs[i]));
      PersonsPayload(Success(redacted)) == PersonsPayload(Success(docs))
  {
    var redacted := seq(|docs|, i requires 0 <= i < |docs| => WithoutPii(docs[i]));
    var persons, rs := Take(docs, INDEX_FETCH_LIMIT), Take(redacted, INDEX_FETCH_LIMIT);
    forall i | 0 <= i < |rs|
      ensures ToPersonIndexProjection(rs[i]) == ToPersonIndexProjection(persons[i])
    {
      ProjectionFields(persons[i]);
    }
    assert seq(|rs|, i requires 0 <= i < |rs| => ToPersonIndexProjection(rs[i]))
        == seq(|persons|, i requires 0 <= i < |persons| => ToPersonIndexProjection(persons[i]));
  }

  /** A fetched movement without a date is dated now, so the 30-day filter
      keeps it. */
  lemma MissingDateKept(docs: seq<MovementDoc>, now: int, i: nat)
    requires i < |docs| && i < MOVEMENTS_FETCH_LIMIT && docs[i].movementDate.None?
    ensures var ds := Take(docs, MOVEMENTS_FETCH_LIMIT);
      var movements := seq(|ds|, j requires 0 <= j < |ds| => ToMovement(ds[j], now));
      ToMovement(docs[i], now).movementDate == now
      && ToMovement(docs[i], now) in FilterLast30Days(movements, now)
  {
    var ds := Take(docs, MOVEMENTS_FETCH_LIMIT);
    var movements := seq(|ds|, j requires 0 <= j < |ds| => ToMovement(ds[j], now));
    var m := ToMovement(docs[i], now);
    assert movements[i] == m;
    FilterLast30DaysKeepsExactlyRecent(movements, now, m);
  }
}
