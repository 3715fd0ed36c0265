# Estación Dulce MCP server: cache, cached resources, projections and guards

This project models the read side of the Estación Dulce MCP server in Dafny.

- **Cache manager.** An in-process `CacheManager` keeps three collections:
  payloads keyed by resource URI, a set of dirty URIs, and a version counter
  per URI. Entries expire after a time-to-live (TTL) chosen by resource type.
  The module `Cache` is a class whose fields the methods reassign. Each method
  is proved to make the transition that the pure functions of `CacheState`
  define.
- **Cached resources.** `persons#index`, `recipes#index` and
  `movements#last-30d` all follow the same steps:
  1. Ask the cache.
  2. Answer "Not Modified" when the caller's `ifNoneMatch` is the live
     entry's ETag, and the cached payload otherwise.
  3. On a miss, read the document store, compute the payload, `set` it, and
     serve it.
  4. On an error, answer with an error body and no metadata.

  `Resources.Serve` states this decision once, and each resource method is
  proved to follow it.
- **Projections.**
  - Persons are reduced to id, trimmed display name and type tag, with no
    phones or addresses.
  - Recipes and products are reduced to their listing fields.
  - Index lists are sorted by id.
  - Movements are grouped by UTC day and type, summed, and ordered most
    recent first. A 30-day filter runs before the grouping.
  - Sales are grouped by client.
- **Validation.** Guards cover the environment name, the collection and
  field allowlists, the price range with cent rounding, error responses, and
  the rule that a PROD write must be confirmed or be a dry run.

Conventions of the model:

- Time is a parameter `now`, in milliseconds since the epoch.
- Dates are instants in milliseconds, and a calendar day is
  `instant / 86400000` (the UTC date).
- `localeCompare` is lexicographic order on code points (`Strings.StrLe`).
- `Array.prototype.sort` is the stable sort `Sorting.SortBy` (insertion
  sort), applied in place by `Sorting.SortInPlace`.
- Amounts are exact reals.
- `JSON.stringify` and MD5 are functions passed in (`CacheState.Fingerprint`).
- The document store's answer is a parameter: a `Result` holding either the
  documents or the error the query throws.

## Model

| member | source | states |
|---|---|---|
| Cache.CacheManager.constructor | src/cache/cache-manager.ts:30-33 | a new manager has no entries, no dirty flags and no counters |
| Cache.CacheManager.GenerateETag | src/cache/cache-manager.ts:38-44 | the ETag is the MD5 hex digest of the serialised payload in double quotes |
| CacheProperties.ETagMatchesIffDigestsMatch | src/cache/cache-manager.ts:38-44 | two ETags are equal exactly when the two digests are (the quoting loses nothing) |
| Cache.CacheManager.Get | src/cache/cache-manager.ts:49-74 | `get` makes exactly the `CacheState.Get` transition and keeps entries tied to their version counters |
| CacheProperties.GetAnswersIffLive | src/cache/cache-manager.ts:49-74 | `get` returns an entry iff one is stored, not dirty, and no older than the TTL; the answer is the stored entry and the state is unchanged |
| CacheProperties.GetMissing | src/cache/cache-manager.ts:50-54 | no entry: null and no change |
| CacheProperties.GetDirtyKeepsEntry | src/cache/cache-manager.ts:57-59 | a dirty URI answers null but its entry is kept, however old |
| CacheProperties.GetEvictsExactlyExpired | src/cache/cache-manager.ts:61-66 | the only change `get` makes is dropping the entry of `uri`, exactly when it is clean and older than the TTL |
| CacheProperties.GetIgnoresIfNoneMatch | src/cache/cache-manager.ts:68-73 | `ifNoneMatch` never changes what `get` returns or does |
| Cache.CacheManager.Set | src/cache/cache-manager.ts:79-106 | `set` makes exactly the `CacheState.Set` transition and keeps entries tied to their counters |
| CacheProperties.SetStores | src/cache/cache-manager.ts:79-95 | the stored entry carries the data, its ETag, the next version, the time and the serialised size; only that URI's dirty flag and counter change |
| CacheProperties.SetThenGet | src/cache/cache-manager.ts:61-73 | a `get` made no later than the TTL after a `set` (an earlier clock reading included) returns exactly the entry stored |
| CacheProperties.SetThenGetExpired | src/cache/cache-manager.ts:61-66 | a `get` made more than the TTL after a `set` returns null and evicts the entry |
| Cache.CacheManager.IncrementVersion | src/cache/cache-manager.ts:127-132 | the counter becomes its old value (or 0) plus one and is returned; nothing else changes |
| Cache.CacheManager.MarkDirty | src/cache/cache-manager.ts:111-114 | `markDirty` adds the URI to the dirty flags and nothing else |
| CacheProperties.MarkDirtyIdempotent | src/cache/cache-manager.ts:111-114 | marking twice is marking once |
| CacheProperties.MarkDirtyHidesUntilSet | src/cache/cache-manager.ts:57-59 | after `markDirty`, `get` answers null while the entry stays; after a `set` it is served again |
| CacheProperties.MarkDirtyAbsentCounts | src/cache/cache-manager.ts:111-114 | a URI with no entry can be marked dirty and is counted |
| Cache.CacheManager.Clear | src/cache/cache-manager.ts:154-158 | `clear` empties entries and dirty flags and keeps the version counters |
| CacheProperties.ClearThenSetRaisesVersion | src/cache/cache-manager.ts:127-132 | a `set` after `clear` stores the next version, above that of the cleared entry |
| CacheProperties.StepKeepsValidAndVersions | src/cache/cache-manager.ts:49-158 | every call keeps entries tied to counters and never lowers a counter; `set` raises its counter by one and other calls leave all counters as they are |
| CacheProperties.RunKeepsValidAndVersions | src/cache/cache-manager.ts:49-158 | over any sequence of calls, the invariant holds and no counter goes down |
| CacheProperties.VersionNeverReissued | src/cache/cache-manager.ts:127-132 | whatever calls come between, a later `set` of a URI stores a version above any it stored before |
| Cache.CacheManager.GetVersionManifest | src/cache/cache-manager.ts:137-149 | one manifest item per stored entry (dirty or expired included), holding its ETag, version and time |
| Cache.CacheManager.GetStats | src/cache/cache-manager.ts:163-178 | the entry count, the sum of the entries' sizes and the number of dirty flags |
| CacheState.SumSizesRemove | src/cache/cache-manager.ts:168-171 | the size total does not depend on the order in which entries are visited |
| CacheProperties.ResourceTypeOfMcpUri | src/cache/cache-manager.ts:119-120 | the resource type of `mcp://<host>/<name>` is `<name>` |
| CacheProperties.TtlOfMcpUri | src/cache/cache-manager.ts:119-122 | the TTL of `mcp://<host>/<name>` is the one configured for `<name>`, or 60 s |
| CacheProperties.TtlOfConfigured | src/cache/cache-manager.ts:18-25 | a configured name gets its configured TTL |
| CacheProperties.TtlTable | src/cache/cache-manager.ts:18-25 | products 60 s, movements 60 s, recipes 5 min, persons 15 min |
| CacheProperties.TtlWithoutDoubleSlash | src/cache/cache-manager.ts:120-121 | a URI without "//" has the empty resource type and the 60 s default |
| CacheState.FindDoubleSlash | src/cache/cache-manager.ts:120 | finds the leftmost "//" at or after a position, or reports that there is none |
| CacheState.AfterLastSlash | src/cache/cache-manager.ts:120 | the result has no '/', is a suffix of its input, and is preceded by '/' when shorter |
| Resources.GetPersonsIndexResource | src/resources/persons-index.resource.ts:27-115 | the response and the new cache state are those of `Serve` with the persons payload; the cache invariant is kept |
| Resources.GetRecipesIndexResource | src/resources/recipes-index.resource.ts:26-114 | the same for the recipes payload |
| Resources.GetMovementsLast30DResource | src/resources/movements-last-30d.resource.ts:26-128 | the same for the movements payload |
| Resources.Take | src/resources/persons-index.resource.ts:66 | a query's `.limit(n)`: the first `min(n, |s|)` documents |
| ResourceProperties.ServeHit | src/resources/persons-index.resource.ts:29-60 | a hit leaves the cache as it was, answers "Not Modified" iff `ifNoneMatch` is the entry's ETag and the payload otherwise, always with the entry's metadata, and never reads the store |
| ResourceProperties.ServeMiss | src/resources/persons-index.resource.ts:62-103 | a miss stores the payload under the next version, clears its dirty flag, touches no other URI, and answers with the payload and the new metadata |
| ResourceProperties.ServeError | src/resources/persons-index.resource.ts:105-115 | a failed miss answers the error body with no metadata and stores nothing |
| ResourceProperties.ServeVersions | src/resources/movements-last-30d.resource.ts:26-116 | a request raises a URI's counter by one exactly when it is a successful miss for that URI |
| ResourceProperties.ServeThenRevalidate | src/resources/recipes-index.resource.ts:26-41 | the ETag returned by a miss, sent back no later than the TTL afterwards (an earlier clock reading included), gets "Not Modified" with the same metadata |
| ResourceProperties.MovementsTtlScenario | src/resources/movements-last-30d.resource.ts:26-59 | the movements aggregate is served from cache 60 s after a miss and recomputed 1 ms later, under version +2 |
| ResourceProperties.PersonsPayloadContents | src/resources/persons-index.resource.ts:66-75 | the payload holds at most 100 projections, one per fetched person, ordered by id |
| ResourceProperties.PersonsPayloadIgnoresPii | src/resources/persons-index.resource.ts:73-75 | the payload is the same whatever phones and addresses the documents carry |
| ResourceProperties.MissingDateKept | src/resources/movements-last-30d.resource.ts:80 | a document without a date is dated now and passes the 30-day filter |
| PersonProjection.ProjectionFields | src/models/projections/person.projection.ts:17-23 | keeps id and type tag; the display name is the trimmed "name lastName" with no whitespace at either end; phones and addresses play no part |
| PersonProjection.SortPersonsForIndex | src/models/projections/person.projection.ts:28-30 | sorts the array in place, as the stable sort by id, and returns it |
| PersonProjection.SortedPersonsIndex | src/models/projections/person.projection.ts:28-30 | the result is a permutation in ascending id order, and sorting it again changes nothing |
| PersonProjection.ByIdIsTotalPreorder | src/models/projections/person.projection.ts:29 | the id comparison is total and transitive |
| Strings.TrimIsInnerSlice | src/models/projections/person.projection.ts:20 | `trim` returns the inner slice whose ends are not whitespace; everything dropped is whitespace |
| Strings.TrimIdempotent | src/models/projections/person.projection.ts:20 | trimming twice is trimming once |
| Strings.StrLeTotal | src/models/projections/person.projection.ts:29 | any two ids compare one way or the other |
| Strings.StrLeTransitive | src/models/projections/person.projection.ts:29 | the id order is transitive |
| Strings.StrLeAntisymmetric | src/models/projections/person.projection.ts:29 | ids that compare both ways are equal |
| RecipeProjection.ProjectionFields | src/models/projections/recipe.projection.ts:22-34 | copies the listing fields; `hasImages` is true iff images are present and non-empty, false iff the list is present and empty; categories default to []; sections, nested recipes, description and detail play no part |
| RecipeProjection.ProjectionIgnoresImageNames | src/models/projections/recipe.projection.ts:31 | only whether there are images matters |
| RecipeProjection.SortRecipesForIndex | src/models/projections/recipe.projection.ts:39-41 | sorts the array in place by id and returns it |
| RecipeProjection.SortedRecipesIndex | src/models/projections/recipe.projection.ts:39-41 | the result is a permutation in ascending id order |
| ProductProjection.ProjectionFields | src/models/projections/product.projection.ts:20-30 | copies the fields; low stock iff quantity is at most the minimum; the measure plays no part |
| ProductProjection.SortProductsForIndex | src/models/projections/product.projection.ts:35-37 | sorts the array in place by id and returns it |
| ProductProjection.SortedProductsIndex | src/models/projections/product.projection.ts:35-37 | the result is a permutation in ascending id order, and sorting again changes nothing |
| ProductProjection.SortDeterminedByContents | src/models/projections/product.projection.ts:32-37 | with distinct ids, any two orderings of the same products sort to the same list |
| Sorting.SortInPlace | src/models/projections/product.projection.ts:36 | the array ends up as the stable sort of its old contents |
| Sorting.SortBySorted | src/models/projections/movement.projection.ts:37-39 | the sort's result is ordered by the comparison |
| Sorting.SortByStable | src/models/projections/movement.projection.ts:37-39 | elements that compare equal keep their relative order |
| Sorting.SortByIdempotent | src/models/projections/person.projection.ts:29 | sorting a sorted list changes nothing |
| Sorting.SortByDeterminedByContents | src/models/projections/product.projection.ts:36 | without ties, the result depends only on the multiset of elements |
| Sorting.SumOfSortBy | src/models/projections/movement.projection.ts:37-39 | sorting keeps every sum over the rows |
| MovementProjection.AggregateMovements | src/models/projections/movement.projection.ts:16-40 | returns `Aggregate(movements)`: the grouped rows, sorted most recent day first |
| MovementProjection.GroupMovements | src/models/projections/movement.projection.ts:17-35 | the `forEach` builds exactly the groups of the fold `Accumulate` |
| MovementProjection.NullTypeKeptApartFromUnknown | src/models/projections/movement.projection.ts:21-26 | a null type and the type "unknown" are both shown as "unknown" but never share a group |
| MovementProjection.AccumulateShape | src/models/projections/movement.projection.ts:19-35 | one row per distinct (day, type) key, each key once, each row carrying its key's day |
| MovementProjection.AccumulateFirstSeen | src/models/projections/movement.projection.ts:23-30 | rows are in the order of their key's first movement |
| MovementProjection.AccumulateRowSums | src/models/projections/movement.projection.ts:32-34 | each row's qty and total are its group's item count and amount |
| MovementProjection.AccumulateRowTypes | src/models/projections/movement.projection.ts:24-29 | each row shows the type of its group's first movement |
| MovementProjection.AccumulateSums | src/models/projections/movement.projection.ts:32-34 | the rows' counts and totals add up to all items and amounts of the input |
| MovementProjection.UnsortedRows | src/models/projections/movement.projection.ts:17-37 | before sorting, row i belongs to the i-th key in first-seen order, with that key's day, sums and first type |
| MovementProjection.AggregateProperties | src/models/projections/movement.projection.ts:37-39 | one row per distinct key, most recent day first, same-day rows in first-seen order, and sums preserved |
| MovementProjection.FirstIndex | src/models/projections/movement.projection.ts:23 | the position of a key's first movement |
| MovementProjection.FilterLast30DaysIsSubsequence | src/models/projections/movement.projection.ts:45-53 | the filter keeps movements in their order |
| MovementProjection.FilterLast30DaysKeepsExactlyRecent | src/models/projections/movement.projection.ts:49-52 | each movement dated at or after now minus 30 days is kept as often as it occurs; every other is dropped |
| MovementProjection.FilterLast30DaysIdempotent | src/models/projections/movement.projection.ts:45-53 | filtering twice is filtering once |
| ClientProjection.AggregateClientPurchases | src/models/projections/client.projection.ts:20-69 | returns `ClientPurchases(persons, movements)` |
| ClientProjection.CollectClientStats | src/models/projections/client.projection.ts:31-49 | the first `forEach` builds exactly the records of the fold `CollectStats` |
| ClientProjection.BuildClientRows | src/models/projections/client.projection.ts:52-66 | the second `forEach` builds exactly `BuildProjections` |
| ClientProjection.CollectStatsShape | src/models/projections/client.projection.ts:31-49 | one record per person with a sale, each id once |
| ClientProjection.CollectStatsValues | src/models/projections/client.projection.ts:34-46 | each record holds the latest of the epoch and the person's sale dates, their number of sales, and the sum of their amounts |
| ClientProjection.LatestSale | src/models/projections/client.projection.ts:35-43 | the latest sale date: at least the epoch and every sale date, and the epoch or one of those dates |
| ClientProjection.BuyerHasSale | src/models/projections/client.projection.ts:45 | every client in the output has at least one purchase |
| ClientProjection.BuildProjectionsRows | src/models/projections/client.projection.ts:54-66 | one row per visited id that the lookup map knows, in visiting order, each built from that id's record |
| ClientProjection.ClientPurchasesRows | src/models/projections/client.projection.ts:20-69 | output ids are exactly the buyers the map knows, each once; each row has the trimmed name, the type or "CLIENT", the day of the latest sale, the count (at least 1) and the total rounded to cents |
| ClientProjection.SortClientsByRecent | src/models/projections/client.projection.ts:74-76 | sorts the array in place, most recent purchase first, and returns it |
| ClientProjection.SortedClients | src/models/projections/client.projection.ts:74-76 | the result is a permutation, most recent day first, with ties kept in order |
| Money.MathRound | src/validation.ts:45 | `Math.round`: the nearest integer, with halves rounded up |
| Money.RoundCents | src/models/projections/client.projection.ts:64 | a whole number of cents within half a cent of the amount |
| Money.RoundCentsIdempotent | src/validation.ts:44-46 | rounding twice is rounding once |
| Money.RoundCentsMonotone | src/validation.ts:44-46 | rounding keeps the order of amounts |
| Money.RoundCentsOfCents | src/validation.ts:44-46 | an amount already in whole cents is unchanged |
| Validation.ValidateEnvironment | src/validation.ts:7-13 | accepts exactly "DEV" and "PROD", each as itself; otherwise fails with the message |
| Validation.ValidateCollection | src/validation.ts:18-26 | reads are allowed on exactly products, recipes, categories and mcp_audit, and writes on exactly products and mcp_audit; otherwise it fails naming the collection |
| Validation.ValidateField | src/validation.ts:31-39 | allowed exactly for products with suggestedPrice or updatedAt; otherwise it fails naming both |
| Validation.ValidatePrice | src/validation.ts:51-59 | accepted iff 0 ≤ price ≤ 999999.99; the result is whole cents within half a cent of the price and still in range; negative and too-large prices give their own messages |
| Validation.PriceRevalidates | src/validation.ts:51-59 | a validated price validates again to itself |
| Validation.ParseWriteParams | src/validation.ts:85-96 | confirm defaults to false and dryRun to true; refused exactly when ENV is PROD, dryRun is false and confirm is not true |
| Validation.WriteParamsDefaults | src/validation.ts:85-96 | omitting both fields is accepted as an unconfirmed dry run, and outside PROD everything is accepted |
| Validation.AllowlistsNest | src/constants.ts:4-14 | every writable collection is readable, and a collection with allowed fields is writable |
| Validation.ErrorResponseFields | src/validation.ts:64-72 | the response keeps the message, and distinct codes give distinct code texts |

## Left out

- Logging, the size warnings (400 KB per entry, 512 KB per resource) and the slow-computation warnings print text only and change no state.
- `lastModified` is the instant the entry was stored, not its `toUTCString` text.
- The response text is not modelled: the pretty-printed JSON, the "Not Modified" text and the MIME type. The body is `NotModified`, `Data(payload)` or `InternalError`.
- `JSON.stringify` and MD5 are functions passed in, and nothing is assumed about them. The entry size is the length of the serialisation counted in characters (code points). JavaScript's `.length` counts UTF-16 code units, which is larger for characters outside the Basic Multilingual Plane.
- Cache.CacheManager.GetVersionManifest: the manifest is a `map`, so it does not keep the order in which the source's plain object receives its keys (the cache's insertion order), which is the order the keys serialise in.
- The document store is a parameter, a `Result` of the fetched documents. The query's own `where`/`orderBy` on the movements collection is not modelled; the model applies `.limit` and the in-memory 30-day filter.
- The resources build each document as `{ id: doc.id, ...doc.data() }`, so an `id` field stored in the document overrides the document id, and that id becomes the projection id and the sort key. The model's store hands over `Person`, `Recipe` and `Movement` values whose `id` is already the one that results; the override is not modelled.
- Each request reads the clock once (`now`). The source reads it separately in `get`, `set` and the 30-day filter.
- `setDate(getDate() - 30)` works in local time and can differ from 30 × 24 h across a daylight-saving change. The model uses 30 × 24 h.
- Calendar days are UTC day numbers, not `YYYY-MM-DD` strings. For four-digit years, comparing the strings with `localeCompare` orders days as the numbers do. Ids are compared by code point, not by locale rules.
- Amounts are exact reals, not IEEE doubles. `Math.round(x * 100) / 100` is taken on exact values, and `NaN` or missing amounts are not modelled, nor is the `|| 0` that replaces them in the client aggregate.
- In the movement key, the source prints an undefined type as "undefined", so such a movement is grouped apart from a null-typed one on the same day. The model's type is an `Option` with no undefined case: `None` stands for null and is keyed as "null".
- A movement document without `items` makes the source's aggregation throw, and the resource then answers `InternalError` with nothing cached. The model's `Movement` always has items, as the movement DTO declares them required.
- A missing `name` or `lastName` (printed as "undefined") and a missing person type are not modelled.
- Lookups in `TTL_CONFIG` and `ALLOWED_FIELDS` with inherited object keys (such as "constructor") are not modelled. Only the listed keys are present.
- `CommonParamsSchema` and `IdParamSchema` are zod schemas outside the guards modelled here. `WriteParamsSchema` is modelled by its defaults and refinement only: a value of the wrong type is not modelled.
- The other resources, the tools, the HTTP and stdio servers, authentication and auditing are not part of this model. The singleton `cacheManager` is the `CacheManager` object the resource methods receive.
- Concurrency is not modelled. Requests are served one after another, and the store is read synchronously.
