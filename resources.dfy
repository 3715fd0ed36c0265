/** The three cached resources (`persons#index`, `recipes#index` and
    `movements#last-30d`).  Each answers a read from the cache when it can:
    "Not Modified" when the caller's `ifNoneMatch` is the live entry's ETag,
    the cached payload otherwise; on a miss it reads the document store,
    computes the payload, stores it with one `set` and serves it. */
module Resources {
  import opened Wrappers
  import opened Sorting
  import opened CacheState
  import opened Cache
  import opened PersonProjection
  import opened RecipeProjection
  import opened MovementProjection

  const HOST := "estacion-dulce"
  const PERSONS_URI := McpUri(HOST, "persons#index")
  const RECIPES_URI := McpUri(HOST, "recipes#index")
  const MOVEMENTS_URI := McpUri(HOST, "movements#last-30d")

  /** `.limit(100)` on the persons and recipes queries. */
  const INDEX_FETCH_LIMIT: nat := 100
  /** `.limit(500)` on the movements query. */
  const MOVEMENTS_FETCH_LIMIT: nat := 500

  /** What the one shared cache holds under each of the three URIs. */
  datatype Payload =
    | PersonsIndex(persons: seq<PersonIndexProjection>)
    | RecipesIndex(recipes: seq<RecipeIndexProjection>)
    | MovementsLast30d(rows: seq<MovementAggregatedProjection>)

  /** The `contents[0].text` of a response: "Not Modified", the payload
      (serialised by the source), or `{"error": "Internal server error"}`. */
  datatype Body<T> = NotModified | Data(data: T) | InternalError

  /** `etag`, `lastModified` and `dataVersion` of a response. */
  datatype Meta = Meta(etag: string, lastModified: int, dataVersion: nat)

  datatype Response<T> = Response(uri: string, body: Body<T>, meta: Option<Meta>)

  function MetaOf<T>(e: Entry<T>): Meta {
    Meta(e.etag, e.lastModified, e.dataVersion)
  }

  /** The first `n` documents: a query's `.limit(n)`. */
  function Take<T>(s: seq<T>, n: nat): (r: seq<T>)
    ensures |r| == if |s| <= n then |s| else n
    ensures r == s[..|r|]
  {
    if |s| <= n then s else s[..n]
  }

  /** The decision every cached resource makes, as a state transition:
      `computed` is what the miss path computes (or the error it raises), and
      is only looked at on a miss. */
  function Serve<T>(s: State<T>, fp: Fingerprint<T>, uri: string, ifNoneMatch: Option<string>,
                    now: int, computed: Result<T>): (State<T>, Response<T>)
  {
    var (s1, cached) := CacheState.Get(s, uri, ifNoneMatch, now);
    match cached
    case Some(e) =>
      if ifNoneMatch == Some(e.etag) then (s1, Response(uri, NotModified, Some(MetaOf(e))))
      else (s1, Response(uri, Data(e.data), Some(MetaOf(e))))
    case None =>
      match computed
      case Failure(_) => (s1, Response(uri, InternalError, None))
      case Success(d) =>
        var (s2, e) := CacheState.Set(s1, fp, uri, d, now);
        (s2, Response(uri, Data(d), Some(MetaOf(e))))
  }

  /** Whether `uri` has an entry that `get` would answer with at `now`. */
  predicate Live<T>(s: State<T>, uri: string, now: int) {
    uri in s.cache && uri !in s.dirtyFlags && !Expired(s.cache[uri], uri, now)
  }

  // ---------------------------------------------------------- payloads

  /** The persons payload computed on a miss: the first 100 documents,
      projected and sorted by id. */
  function PersonsPayload(store: Result<seq<Person>>): Result<Payload> {
    match store
    case Failure(err) => Failure(err)
    case Success(docs) =>
      var persons := Take(docs, INDEX_FETCH_LIMIT);
      Success(PersonsIndex(SortBy(seq(|persons|, i requires 0 <= i < |persons| => ToPersonIndexProjection(persons[i])), PersonProjection.ById)))
  }

  /** The recipes payload computed on a miss. */
  function RecipesPayload(store: Result<seq<Recipe>>): Result<Payload> {
    match store
    case Failure(err) => Failure(err)
    case Success(docs) =>
      var recipes := Take(docs, INDEX_FETCH_LIMIT);
      Success(RecipesIndex(SortBy(seq(|recipes|, i requires 0 <= i < |recipes| => ToRecipeIndexProjection(recipes[i])), RecipeProjection.ById)))
  }

  /** A movement document as the store returns it; its date may be
      missing. */
  datatype MovementDoc = MovementDoc(
    id: string,
    movementType: Option<string>,
    personId: string,
    movementDate: Option<int>,
    totalAmount: real,
    items: seq<MovementItem>)

  /** The document mapping of the movements resource: a missing date
      becomes the current time. */
  function ToMovement(doc: MovementDoc, now: int): Movement {
    Movement(doc.id, doc.movementType, doc.personId, doc.movementDate.GetOr(now), doc.totalAmount, doc.items)
  }

  /** The movements payload computed on a miss: the first 500 documents,
      dated, filtered to the last 30 days and aggregated. */
  function MovementsPayload(store: Result<seq<MovementDoc>>, now: int): Result<Payload> {
    match store
    case Failure(err) => Failure(err)
    case Success(docs) =>
      var ds := Take(docs, MOVEMENTS_FETCH_LIMIT);
      var movements := seq(|ds|, i requires 0 <= i < |ds| => ToMovement(ds[i], now));
      Success(MovementsLast30d(Aggregate(FilterLast30Days(movements, now))))
  }

  // ----------------------------------------------------------- methods

  /** `getPersonsIndexResource`, with the clock reading `now` and `store`
      the outcome of the persons query. */
  method GetPersonsIndexResource(cache: CacheManager<Payload>, ifNoneMatch: Option<string>, now: int,
                                 store: Result<seq<Person>>) returns (response: Response<Payload>)
    requires cache.Valid()
    modifies cache
    ensures cache.Valid()
    ensures (cache.State(), response)
      == Serve(old(cache.State()), cache.fp, PERSONS_URI, ifNoneMatch, now, PersonsPayload(store))
  {
    var cached := cache.Get(PERSONS_URI, ifNoneMatch, now);
    if cached.Some? && ifNoneMatch == Some(cached.value.etag) {
      return Response(PERSONS_URI, NotModified, Some(MetaOf(cached.value)));
    }
    if cached.Some? {
      return Response(PERSONS_URI, Data(cached.value.data), Some(MetaOf(cached.value)));
    }
    if store.Failure? {
      return Response(PERSONS_URI, InternalError, None);
    }
    var persons := Take(store.value, INDEX_FETCH_LIMIT);
    var projections := new PersonIndexProjection[|persons|](i requires 0 <= i < |persons| => ToPersonIndexProjection(persons[i]));
    assert projections[..] == seq(|persons|, i requires 0 <= i < |persons| => ToPersonIndexProjection(persons[i]));
    var sorted := SortPersonsForIndex(projections);
    var payload := PersonsIndex(sorted[..]);
    assert PersonsPayload(store) == Success(payload);
    var entry := cache.Set(PERSONS_URI, payload, now);
    response := Response(PERSONS_URI, Data(payload), Some(MetaOf(entry)));
  }

  /** `getRecipesIndexResource`. */
  method GetRecipesIndexResource(cache: CacheManager<Payload>, ifNoneMatch: Option<string>, now: int,
                                 store: Result<seq<Recipe>>) returns (response: Response<Payload>)
    requires cache.Valid()
    modifies cache
    ensures cache.Valid()
    ensures (cache.State(), response)
      == Serve(old(cache.State()), cache.fp, RECIPES_URI, ifNoneMatch, now, RecipesPayload(store))
  {
    var cached := cache.Get(RECIPES_URI, ifNoneMatch, now);
    if cached.Some? && ifNoneMatch == Some(cached.value.etag) {
      return Response(RECIPES_URI, NotModified, Some(MetaOf(cached.value)));
    }
    if cached.Some? {
      return Response(RECIPES_URI, Data(cached.value.data), Some(MetaOf(cached.value)));
    }
    if store.Failure? {
      return Response(RECIPES_URI, InternalError, None);
    }
    var recipes := Take(store.value, INDEX_FETCH_LIMIT);
    var projections := new RecipeIndexProjection[|recipes|](i requires 0 <= i < |recipes| => ToRecipeIndexProjection(recipes[i]));
    assert projections[..] == seq(|recipes|, i requires 0 <= i < |recipes| => ToRecipeIndexProjection(recipes[i]));
    var sorted := SortRecipesForIndex(projections);
    var payload := RecipesIndex(sorted[..]);
    assert RecipesPayload(store) == Success(payload);
    var entry := cache.Set(RECIPES_URI, payload, now);
    response := Response(RECIPES_URI, Data(payload), Some(MetaOf(entry)));
  }

  /** `getMovementsLast30DResource`. */
  method GetMovementsLast30DResource(cache: CacheManager<Payload>, ifNoneMatch: Option<string>, now: int,
                                     store: Result<seq<MovementDoc>>) returns (response: Response<Payload>)
    requires cache.Valid()
    modifies cache
    ensures cache.Valid()
    ensures (cache.State(), response)
      == Serve(old(cache.State()), cache.fp, MOVEMENTS_URI, ifNoneMatch, now, MovementsPayload(store, now))
  {
    var cached := cache.Get(MOVEMENTS_URI, ifNoneMatch, now);
    if cached.Some? && ifNoneMatch == Some(cached.value.etag) {
      return Response(MOVEMENTS_URI, NotModified, Some(MetaOf(cached.value)));
    }
    if cached.Some? {
      return Response(MOVEMENTS_URI, Data(cached.value.data), Some(MetaOf(cached.value)));
    }
    if store.Failure? {
      return Response(MOVEMENTS_URI, InternalError, None);
    }
    var docs := Take(store.value, MOVEMENTS_FETCH_LIMIT);
    var movements := seq(|docs|, i requires 0 <= i < |docs| => ToMovement(docs[i], now));
    var filtered := FilterLast30Days(movements, now);
    var aggregated := AggregateMovements(filtered);
    var entry := cache.Set(MOVEMENTS_URI, MovementsLast30d(aggregated), now);
    response := Response(MOVEMENTS_URI, Data(MovementsLast30d(aggregated)), Some(MetaOf(entry)));
  }
}
