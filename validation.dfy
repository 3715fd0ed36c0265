/** The input guards: the environment name, the collection and field
    allowlists, the price range, structured error responses and the rule
    that a real write in PROD needs confirmation.  A thrown `Error` is a
    `Failure` carrying its message. */
module Validation {
  import opened Wrappers
  import opened Money

  // --------------------------------------------------------- constants

  /** `ALLOWED_COLLECTIONS.READ`. */
  const READ_COLLECTIONS: seq<string> := ["products", "recipes", "categories", "mcp_audit"]
  /** `ALLOWED_COLLECTIONS.WRITE`. */
  const WRITE_COLLECTIONS: seq<string> := ["products", "mcp_audit"]
  /** `ALLOWED_FIELDS`: the fields a write may touch, per collection. */
  const ALLOWED_FIELDS: map<string, seq<string>> := map["products" := ["suggestedPrice", "updatedAt"]]
  /** `LIMITS.PRICE_DECIMALS`. */
  const PRICE_DECIMALS: nat := 2
  /** The largest price `validatePrice` accepts. */
  const MAX_PRICE: real := 999999.99

  /** `ENV_TYPES`. */
  datatype Env = DEV | PROD

  function EnvName(env: Env): string {
    match env
    case DEV => "DEV"
    case PROD => "PROD"
  }

  /** The keys of `ERROR_CODES`. */
  datatype ErrorCode = VALIDATION | AUTH | NOT_FOUND | BUSINESS

  /** `ERROR_CODES[code]`. */
  function ErrorCodeText(code: ErrorCode): string {
    match code
    case VALIDATION => "VALIDATION"
    case AUTH => "AUTH"
    case NOT_FOUND => "NOT_FOUND"
    case BUSINESS => "BUSINESS"
  }

  // -------------------------------------------------------- operations

  /** `validateEnvironment`, with `env` the value of the `ENV` variable
      (`None` when unset): exactly "DEV" and "PROD" are accepted, each as
      itself. */
  function ValidateEnvironment(env: Option<string>): (r: Result<Env>)
    ensures r.Success? <==> env == Some("DEV") || env == Some("PROD")
    ensures r.Success? ==> Some(EnvName(r.value)) == env
    ensures r.Failure? ==> r.error == "ENV must be set to DEV or PROD"
  {
    if env == Some("DEV") then Success(DEV)
    else if env == Some("PROD") then Success(PROD)
    else Failure("ENV must be set to DEV or PROD")
  }

  /** `validateCollection`: a read is allowed on exactly products, recipes,
      categories and mcp_audit, a write on exactly products and mcp_audit;
      an allowed name comes back unchanged, a refused one yields an error
      naming it. */
  function ValidateCollection(collection: string, isWrite: bool): (r: Result<string>)
    ensures !isWrite ==> (r.Success? <==> collection in {"products", "recipes", "categories", "mcp_audit"})
    ensures isWrite ==> (r.Success? <==> collection in {"products", "mcp_audit"})
    ensures r.Success? ==> r.value == collection
    ensures r.Failure? ==> r.error == "Collection '" + collection + "' is not allowed"
  {
    var allowedCollections := if isWrite then WRITE_COLLECTIONS else READ_COLLECTIONS;
    if collection !in allowedCollections then Failure("Collection '" + collection + "' is not allowed")
    else Success(collection)
  }

  /** `validateField`: a field is allowed exactly when the collection is
      products and the field is suggestedPrice or updatedAt, so every other
      collection refuses every field. */
  function ValidateField(collection: string, field: string): (r: Result<string>)
    ensures r.Success? <==> collection == "products" && field in {"suggestedPrice", "updatedAt"}
    ensures r.Success? ==> r.value == field
    ensures r.Failure? ==> r.error == "Field '" + field + "' is not allowed for collection '" + collection + "'"
  {
    if collection !in ALLOWED_FIELDS || field !in ALLOWED_FIELDS[collection] then
      Failure("Field '" + field + "' is not allowed for collection '" + collection + "'")
    else Success(field)
  }

  /** `validatePrice`: a price is accepted exactly when it lies in
      [0, 999999.99], and comes back as a whole number of cents within half
      a cent of it, still in range. Its `roundPrice` step,
      `Math.round(price * 10^2) / 10^2`, is `Money.RoundCents`. */
  function ValidatePrice(price: real): (r: Result<real>)
    ensures r.Success? <==> 0.0 <= price <= MAX_PRICE
    ensures r.Success? ==>
      && (r.value * 100.0).Floor as real == r.value * 100.0
      && price - 0.005 < r.value <= price + 0.005
      && 0.0 <= r.value <= MAX_PRICE
    ensures price < 0.0 ==> r == Failure("Price cannot be negative")
    ensures price > MAX_PRICE ==> r == Failure("Price exceeds maximum allowed value")
  {
    if price < 0.0 then Failure("Price cannot be negative")
    else if price > MAX_PRICE then Failure("Price exceeds maximum allowed value")
    else
      RoundCentsMonotone(0.0, price);
      RoundCentsMonotone(price, MAX_PRICE);
      RoundCentsOfCents(0);
      RoundCentsOfCents(99999999);
      assert MAX_PRICE == 99999999 as real / 100.0;
      Success(RoundCents(price))
  }

  datatype ErrorResponse = ErrorResponse(error: string, code: string)

  /** `createErrorResponse`. */
  function CreateErrorResponse(message: string, code: ErrorCode): ErrorResponse {
    ErrorResponse(message, ErrorCodeText(code))
  }

  /** The parsed `WriteParamsSchema` object. */
  datatype WriteParams = WriteParams(confirm: bool, dryRun: bool)

  /** The refinement of `WriteParamsSchema`. */
  predicate WriteAllowed(env: Option<string>, data: WriteParams) {
    !(env == Some("PROD") && !data.dryRun && !data.confirm)
  }

  /** `WriteParamsSchema.parse`: the defaults (`confirm` false, `dryRun`
      true) for missing fields, then the refinement, which refuses exactly
      a PROD write that is neither a dry run nor confirmed. */
  function ParseWriteParams(confirm: Option<bool>, dryRun: Option<bool>, env: Option<string>): (r: Result<WriteParams>)
    ensures r.Failure? <==> env == Some("PROD") && dryRun == Some(false) && confirm != Some(true)
    ensures r.Success? ==> r.value.confirm == (confirm == Some(true)) && r.value.dryRun == (dryRun != Some(false))
  {
    var data := WriteParams(confirm.GetOr(false), dryRun.GetOr(true));
    if WriteAllowed(env, data) then Success(data)
    else Failure("PROD write operations require confirm=true when not dryRun")
  }

  // ------------------------------------------------------------ lemmas

  /** The allowlists nest: every writable collection is readable, and a
      collection with allowed fields is writable. */
  lemma AllowlistsNest(collection: string, field: string)
    ensures ValidateCollection(collection, true).Success? ==> ValidateCollection(collection, false).Success?
    ensures ValidateField(collection, field).Success? ==> ValidateCollection(collection, true).Success?
  {
  }

  /** A validated price validates again to itself. */
  lemma PriceRevalidates(price: real)
    requires ValidatePrice(price).Success?
    ensures ValidatePrice(ValidatePrice(price).value) == ValidatePrice(price)
  {
    RoundCentsIdempotent(price);
  }

  /** The response keeps the message, and distinct codes give distinct
      code texts. */
  lemma ErrorResponseFields(message: string, a: ErrorCode, b: ErrorCode)
    ensures CreateErrorResponse(message, a).error == message
    ensures CreateErrorResponse(message, a).code == CreateErrorResponse(message, b).code <==> a == b
  {
  }

  /** Omitted fields are the safe defaults, so omitting both is always
      accepted as an unconfirmed dry run; outside PROD everything is
      accepted. */
  lemma WriteParamsDefaults(confirm: Option<bool>, dryRun: Option<bool>, env: Option<string>)
    ensures ParseWriteParams(None, None, env) == Success(WriteParams(false, true))
    ensures env != Some("PROD") ==> ParseWriteParams(confirm, dryRun, env).Success?
  {
  }
}
