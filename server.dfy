/**
 * The `/v1` route: body validation with schema defaults, the bearer-token
 * guard, the cache-fronted handler and the mapping of the application's
 * errors to HTTP statuses. SHA-256, `JSON.stringify`, the network and the
 * render libraries are parameters; the Redis store is a `Cache.Client`.
 */
module Server {
  import opened Wrappers
  import opened Strings
  import opened JsValues
  import opened GeoJson
  import Render
  import Cache

  // ---------------------------------------------------------------- errors and responses

  /** The errors a request can end in: the two the application declares, and a failed body validation. */
  datatype AppError =
    | BadRequestError(message: string)
    | UnauthorizedError(message: string)
    | ValidationError

  datatype Payload = Bytes(bytes: seq<Byte>) | Text(text: string)

  /** A `Response` built by the application; `headers` are the ones it sets explicitly. */
  datatype Response = Response(status: int, headers: seq<(string, string)>, payload: Payload)

  /** What reaches the client: a response of the application, or the framework's own reply to an error `onError` leaves alone. */
  datatype Outcome = Respond(response: Response) | FrameworkReply(error: AppError)

  const PNG_HEADERS: seq<(string, string)> := [("content-type", "image/png")]

  /** The successful reply: the image bytes as `image/png`, status 200. */
  function PngResponse(bytes: seq<Byte>): Response {
    Response(200, PNG_HEADERS, Bytes(bytes))
  }

  /** `onError`: the two declared errors become 400 and 401 carrying their message; any other code falls through. */
  function OnError(e: AppError): (r: Option<Response>)
    ensures r.Some? <==> !e.ValidationError?
    ensures r.Some? ==> r.value.payload == Text(e.message) && r.value.headers == []
    ensures r.Some? ==> r.value.status == if e.BadRequestError? then 400 else 401
  {
    match e
    case BadRequestError(m) => Some(Response(400, [], Text(m)))
    case UnauthorizedError(m) => Some(Response(401, [], Text(m)))
    case ValidationError => None
  }

  /** How an error reaches the client. */
  function Reply(e: AppError): Outcome {
    match OnError(e)
    case Some(response) => Respond(response)
    case None => FrameworkReply(e)
  }

  // ---------------------------------------------------------------- the token guard

  /** `beforeHandle`: anything but the configured secret, a missing token included, is refused. */
  function BeforeHandle(bearer: Option<string>, secret: string): (r: Option<AppError>)
    ensures r.Some? <==> bearer != Some(secret)
    ensures r.Some? ==> r.value == UnauthorizedError("Invalid token")
  {
    if bearer == Some(secret) then None else Some(UnauthorizedError("Invalid token"))
  }

  // ---------------------------------------------------------------- the body schema

  const SIZE_MIN: real := 50.0
  const SIZE_MAX: real := 4000.0
  const OPACITY_MIN: real := 0.0
  const OPACITY_MAX: real := 1.0
  const MARGIN_MIN: real := 0.0
  const MARGIN_MAX: real := 100.0

  /** The optional body fields with their schema defaults, in schema order. */
  const SIZE_DEFAULT: Json := JNumber(1000.0)
  const FILL_DEFAULT: Json := JString("blue")
  const OPACITY_DEFAULT: Json := JNumber(0.5)
  const MARGIN_DEFAULT: Json := JNumber(20.0)
  const MARGIN_UNIT_DEFAULT: Json := JString("meters")

  /** The literal union for `marginUnit`. */
  function ParseUnit(s: string): (r: Option<Render.MarginUnit>)
    ensures r.Some? <==> s == "meters" || s == "kilometers" || s == "miles"
  {
    if s == "meters" then Some(Render.Meters)
    else if s == "kilometers" then Some(Render.Kilometers)
    else if s == "miles" then Some(Render.Miles)
    else None
  }

  predicate InRange(v: Json, lo: real, hi: real) {
    v.JNumber? && lo <= v.n <= hi
  }

  predicate IsUnit(v: Json) {
    v.JString? && ParseUnit(v.s).Some?
  }

  /**
   * The schema on the raw body: an object with a valid `featureCollection`,
   * and each optional field either absent or within its bounds.
   */
  predicate BodyAccepted(body: Json) {
    && body.JObject?
    && var ms := body.members;
    && Get(ms, "featureCollection").Some? && IsFeatureCollection(Get(ms, "featureCollection").value)
    && (Get(ms, "size").None? || InRange(Get(ms, "size").value, SIZE_MIN, SIZE_MAX))
    && (Get(ms, "fill").None? || Get(ms, "fill").value.JString?)
    && (Get(ms, "opacity").None? || InRange(Get(ms, "opacity").value, OPACITY_MIN, OPACITY_MAX))
    && (Get(ms, "margin").None? || InRange(Get(ms, "margin").value, MARGIN_MIN, MARGIN_MAX))
    && (Get(ms, "marginUnit").None? || IsUnit(Get(ms, "marginUnit").value))
  }

  /** A schema default is assigned only to a field the body lacks; it then goes last. */
  function Default(ms: Members, k: string, v: Json): (r: Members)
    ensures Get(r, k) == Some(Get(ms, k).GetOr(v))
    ensures forall k' :: k' != k ==> Get(r, k') == Get(ms, k')
  {
    if Has(ms, k) then ms else Put(ms, k, v)
  }

  /** The body after the framework has filled in the schema defaults. */
  function WithDefaults(ms: Members): Members {
    var a := Default(ms, "size", SIZE_DEFAULT);
    var b := Default(a, "fill", FILL_DEFAULT);
    var c := Default(b, "opacity", OPACITY_DEFAULT);
    var d := Default(c, "margin", MARGIN_DEFAULT);
    Default(d, "marginUnit", MARGIN_UNIT_DEFAULT)
  }

  /** What the handler receives: the collection as sent and parsed, and the rest of the body as `options`. */
  datatype Request = Request(
    featureCollection: Json,
    collection: FeatureCollection,
    options: Members,
    renderOptions: Render.RenderOptions)

  function NumberIn(v: Json, lo: real, hi: real): (r: Option<real>)
    ensures r.Some? <==> InRange(v, lo, hi)
    ensures r.Some? ==> r.value == v.n
  {
    if v.JNumber? && lo <= v.n <= hi then Some(v.n) else None
  }

  function StringOf(v: Json): (r: Option<string>)
    ensures r.Some? <==> v.JString?
    ensures r.Some? ==> r.value == v.s
  {
    if v.JString? then Some(v.s) else None
  }

  function UnitOf(v: Json): (r: Option<Render.MarginUnit>)
    ensures r.Some? <==> IsUnit(v)
  {
    if v.JString? then ParseUnit(v.s) else None
  }

  /**
   * Body validation: defaults first, then the schema; on success the
   * destructured request, every render option present and within bounds.
   */
  function ValidateBody(body: Json): (r: Result<Request, AppError>)
    ensures r.Ok? <==> BodyAccepted(body)
    ensures r.Err? ==> r.error == ValidationError
    ensures r.Ok? ==> Valid(r.value.collection)
    ensures r.Ok? ==> var o := r.value.renderOptions;
      && o.size.Some? && SIZE_MIN <= o.size.value <= SIZE_MAX
      && o.fill.Some?
      && o.opacity.Some? && OPACITY_MIN <= o.opacity.value <= OPACITY_MAX
      && o.margin.Some? && MARGIN_MIN <= o.margin.value <= MARGIN_MAX
      && o.marginUnit.Some?
  {
    if !body.JObject? then Err(ValidationError)
    else
      var ms := body.members;
      var fc := Get(ms, "featureCollection");
      var size := NumberIn(Get(ms, "size").GetOr(SIZE_DEFAULT), SIZE_MIN, SIZE_MAX);
      var fill := StringOf(Get(ms, "fill").GetOr(FILL_DEFAULT));
      var opacity := NumberIn(Get(ms, "opacity").GetOr(OPACITY_DEFAULT), OPACITY_MIN, OPACITY_MAX);
      var margin := NumberIn(Get(ms, "margin").GetOr(MARGIN_DEFAULT), MARGIN_MIN, MARGIN_MAX);
      var unit := UnitOf(Get(ms, "marginUnit").GetOr(MARGIN_UNIT_DEFAULT));
      if fc.None? || size.None? || fill.None? || opacity.None? || margin.None? || unit.None? then Err(ValidationError)
      else
        match ParseFeatureCollection(fc.value)
        case None => Err(ValidationError)
        case Some(collection) =>
          Ok(Request(fc.value, collection, Omit(WithDefaults(ms), "featureCollection"),
                     Render.RenderOptions(size, fill, opacity, margin, unit)))
  }

  // ---------------------------------------------------------------- the handler

  /** The services the handler calls, each taken as an uninterpreted function. */
  datatype Services = Services(
    render: (FeatureCollection, Render.RenderOptions) -> Result<seq<Byte>, string>,  // renderGeoJSON
    sha256: string -> string,                 // Bun.CryptoHasher('sha256'), hex digest
    stringify: Json -> string)                // JSON.stringify

  /** The services of the running server: the render path of module Render over the given libraries and network. */
  function Deployed(libs: Render.Libraries, fetch: string -> Result<seq<Byte>, string>,
                    sha256: string -> string, stringify: Json -> string): (svc: Services)
    ensures forall fc, o :: svc.render(fc, o) == Render.RenderGeoJSON(libs, fc, o, fetch)
  {
    Services((fc, o) => Render.RenderGeoJSON(libs, fc, o, fetch), sha256, stringify)
  }

  /** Seconds a rendered image stays cached. */
  const CACHE_SECONDS: nat := 60 * 60

  /** `sha256(JSON.stringify([featureCollection, options]))`. */
  function CacheKey(svc: Services, req: Request): string {
    svc.sha256(svc.stringify(JArray([req.featureCollection, JObject(req.options)])))
  }

  function RenderRequest(svc: Services, req: Request): Result<seq<Byte>, string> {
    svc.render(req.collection, req.renderOptions)
  }

  /**
   * The cache protocol on one key: a live entry is served; otherwise the
   * render outcome decides between storing and serving it, and a
   * BadRequestError with the render's message that stores nothing.
   */
  function GetOrRender(store: Cache.Store, key: string, now: int, rendered: Result<seq<Byte>, string>)
    : (r: (Cache.Store, Result<seq<Byte>, AppError>))
    ensures Cache.Live(store, key, now) ==> r == (store, Ok(store[key].bytes))
    ensures !Cache.Live(store, key, now) && rendered.Ok? ==>
      r == (Cache.Write(store, key, rendered.value, CACHE_SECONDS, now), Ok(rendered.value))
    ensures !Cache.Live(store, key, now) && rendered.Err? ==> r == (store, Err(BadRequestError(rendered.error)))
  {
    match Cache.Read(store, key, now)
    case Some(bytes) => (store, Ok(bytes))
    case None =>
      match rendered
      case Ok(bytes) => (Cache.Write(store, key, bytes, CACHE_SECONDS, now), Ok(bytes))
      case Err(message) => (store, Err(BadRequestError(message)))
  }

  /** The `/v1` handler on a validated, authorised request. */
  function Handle(svc: Services, store: Cache.Store, req: Request, now: int): (r: (Cache.Store, Result<Response, AppError>))
    ensures r.1.Ok? ==> r.1.value.status == 200 && r.1.value.headers == PNG_HEADERS && r.1.value.payload.Bytes?
    ensures r.1.Err? ==> r.1.error.BadRequestError?
    ensures r.0 != store ==> !Cache.Live(store, CacheKey(svc, req), now) && RenderRequest(svc, req).Ok?
  {
    var (s, out) := GetOrRender(store, CacheKey(svc, req), now, RenderRequest(svc, req));
    (s, if out.Ok? then Ok(PngResponse(out.value)) else Err(out.error))
  }

  /** The whole route: validation, then `beforeHandle`, then the handler, with errors through `onError`. */
  function Serve(svc: Services, secret: string, store: Cache.Store, body: Json, bearer: Option<string>, now: int)
    : (r: (Cache.Store, Outcome))
    ensures r.1.FrameworkReply? <==> !BodyAccepted(body)
    ensures r.0 != store ==> Renders(svc, secret, store, body, bearer, now)
  {
    match ValidateBody(body)
    case Err(e) => (store, Reply(e))
    case Ok(req) =>
      match BeforeHandle(bearer, secret)
      case Some(e) => (store, Reply(e))
      case None =>
        var (s, out) := Handle(svc, store, req, now);
        (s, if out.Ok? then Respond(out.value) else Reply(out.error))
  }

  /** Whether a request reaches the renderer: it is valid, authorised and misses the cache. */
  predicate Renders(svc: Services, secret: string, store: Cache.Store, body: Json, bearer: Option<string>, now: int) {
    && ValidateBody(body).Ok?
    && bearer == Some(secret)
    && !Cache.Live(store, CacheKey(svc, ValidateBody(body).value), now)
  }

  /** The application: its services, the configured secret and the shared Redis client. */
  class App {
    const svc: Services
    const secret: string
    const cache: Cache.Client
    /** How many times the handler has called the renderer. */
    ghost var renders: nat

    constructor (svc: Services, secret: string, cache: Cache.Client)
      ensures this.svc == svc && this.secret == secret && this.cache == cache && renders == 0
    {
      this.svc := svc;
      this.secret := secret;
      this.cache := cache;
      renders := 0;
    }

    /** The `/v1` handler body: look the key up, and on a miss render and store. */
    method Handler(req: Request, now: int) returns (r: Result<Response, AppError>)
      modifies this, cache
      ensures (cache.entries, r) == Handle(svc, old(cache.entries), req, now)
      ensures renders == old(renders) + if Cache.Live(old(cache.entries), CacheKey(svc, req), now) then 0 else 1
    {
      var key := svc.sha256(svc.stringify(JArray([req.featureCollection, JObject(req.options)])));
      var buffer := cache.GetBuffer(key, now);
      if buffer.None? {
        renders := renders + 1;
        var rendered := svc.render(req.collection, req.renderOptions);
        if rendered.Err? {
          return Err(BadRequestError(rendered.error));
        }
        buffer := Some(rendered.value);
        cache.Set(key, rendered.value, CACHE_SECONDS, now);
      }
      r := Ok(PngResponse(buffer.value));
    }

    /** A `POST /v1` with its body and bearer token, as the framework runs it. */
    method Post(body: Json, bearer: Option<string>, now: int) returns (o: Outcome)
      modifies this, cache
      ensures (cache.entries, o) == Serve(svc, secret, old(cache.entries), body, bearer, now)
      ensures renders == old(renders) + if Renders(svc, secret, old(cache.entries), body, bearer, now) then 1 else 0
    {
      var validated := ValidateBody(body);
      if validated.Err? {
        return Reply(validated.error);
      }
      var refused := BeforeHandle(bearer, secret);
      if refused.Some? {
        return Reply(refused.value);
      }
      var r := Handler(validated.value, now);
      o := if r.Ok? then Respond(r.value) else Reply(r.error);
    }
  }

  // ---------------------------------------------------------------- properties of the route

  /** The defaults fill exactly the optional fields the body lacks; fields it sends are kept as sent. */
  lemma ValidatedOptions(body: Json)
    requires BodyAccepted(body)
    ensures var ms := body.members; var o := ValidateBody(body).value.renderOptions;
      && o.size == Some(if Get(ms, "size").Some? then Get(ms, "size").value.n else 1000.0)
      && o.fill == Some(if Get(ms, "fill").Some? then Get(ms, "fill").value.s else "blue")
      && o.opacity == Some(if Get(ms, "opacity").Some? then Get(ms, "opacity").value.n else 0.5)
      && o.margin == Some(if Get(ms, "margin").Some? then Get(ms, "margin").value.n else 20.0)
      && o.marginUnit == Some(if Get(ms, "marginUnit").Some? then ParseUnit(Get(ms, "marginUnit").value.s).value else Render.Meters)
  {
  }

  /** A default for one field leaves every other field reading as before. */
  lemma DefaultElsewhere(ms: Members, k: string, v: Json, other: string)
    requires other != k
    ensures Get(Default(ms, k, v), other) == Get(ms, other)
  {
  }

  /** The defaulted body reads, field by field, as the body's own value or else the schema default. */
  lemma DefaultedFields(ms: Members)
    ensures var d := WithDefaults(ms);
      && Get(d, "size") == Some(Get(ms, "size").GetOr(SIZE_DEFAULT))
      && Get(d, "fill") == Some(Get(ms, "fill").GetOr(FILL_DEFAULT))
      && Get(d, "opacity") == Some(Get(ms, "opacity").GetOr(OPACITY_DEFAULT))
      && Get(d, "margin") == Some(Get(ms, "margin").GetOr(MARGIN_DEFAULT))
      && Get(d, "marginUnit") == Some(Get(ms, "marginUnit").GetOr(MARGIN_UNIT_DEFAULT))
      && Get(d, "featureCollection") == Get(ms, "featureCollection")
  {
    var a := Default(ms, "size", SIZE_DEFAULT);
    var b := Default(a, "fill", FILL_DEFAULT);
    var c := Default(b, "opacity", OPACITY_DEFAULT);
    var d := Default(c, "margin", MARGIN_DEFAULT);
    var e := Default(d, "marginUnit", MARGIN_UNIT_DEFAULT);
    DefaultElsewhere(ms, "size", SIZE_DEFAULT, "fill");
    DefaultElsewhere(ms, "size", SIZE_DEFAULT, "opacity");
    DefaultElsewhere(ms, "size", SIZE_DEFAULT, "margin");
    DefaultElsewhere(ms, "size", SIZE_DEFAULT, "marginUnit");
    DefaultElsewhere(ms, "size", SIZE_DEFAULT, "featureCollection");
    DefaultElsewhere(a, "fill", FILL_DEFAULT, "size");
    DefaultElsewhere(a, "fill", FILL_DEFAULT, "opacity");
    DefaultElsewhere(a, "fill", FILL_DEFAULT, "margin");
    DefaultElsewhere(a, "fill", FILL_DEFAULT, "marginUnit");
    DefaultElsewhere(a, "fill", FILL_DEFAULT, "featureCollection");
    DefaultElsewhere(b, "opacity", OPACITY_DEFAULT, "size");
    DefaultElsewhere(b, "opacity", OPACITY_DEFAULT, "fill");
    DefaultElsewhere(b, "opacity", OPACITY_DEFAULT, "margin");
    DefaultElsewhere(b, "opacity", OPACITY_DEFAULT, "marginUnit");
    DefaultElsewhere(b, "opacity", OPACITY_DEFAULT, "featureCollection");
    DefaultElsewhere(c, "margin", MARGIN_DEFAULT, "size");
    DefaultElsewhere(c, "margin", MARGIN_DEFAULT, "fill");
    DefaultElsewhere(c, "margin", MARGIN_DEFAULT, "opacity");
    DefaultElsewhere(c, "margin", MARGIN_DEFAULT, "marginUnit");
    DefaultElsewhere(c, "margin", MARGIN_DEFAULT, "featureCollection");
    DefaultElsewhere(d, "marginUnit", MARGIN_UNIT_DEFAULT, "size");
    DefaultElsewhere(d, "marginUnit", MARGIN_UNIT_DEFAULT, "fill");
    DefaultElsewhere(d, "marginUnit", MARGIN_UNIT_DEFAULT, "opacity");
    DefaultElsewhere(d, "marginUnit", MARGIN_UNIT_DEFAULT, "margin");
    DefaultElsewhere(d, "marginUnit", MARGIN_UNIT_DEFAULT, "featureCollection");
  }

  /** A validated size is at least 50, so render's `size || 1000` fallback never fires on this route. */
  lemma ValidatedSizeIsUsed(body: Json)
    requires BodyAccepted(body)
    ensures var o := ValidateBody(body).value.renderOptions;
      Render.ResolveSize(o.size) == o.size.value
  {
  }

  /** The request keeps the collection as sent, for the key, and its parse, for the renderer; `options` is the rest of the defaulted body. */
  lemma ValidatedRequest(body: Json)
    requires BodyAccepted(body)
    ensures var req := ValidateBody(body).value;
      && req.featureCollection == Get(body.members, "featureCollection").value
      && Some(req.collection) == ParseFeatureCollection(req.featureCollection)
      && !Has(req.options, "featureCollection")
      && forall k :: k != "featureCollection" ==> Get(req.options, k) == Get(WithDefaults(body.members), k)
  {
  }

  /** The key depends on the serialised pair alone. */
  lemma SameSerializationSameKey(svc: Services, a: Request, b: Request)
    requires svc.stringify(JArray([a.featureCollection, JObject(a.options)]))
          == svc.stringify(JArray([b.featureCollection, JObject(b.options)]))
    ensures CacheKey(svc, a) == CacheKey(svc, b)
  {
  }

  /** A body the schema refuses changes nothing and gets the framework's reply. */
  lemma InvalidBodyRejected(svc: Services, secret: string, store: Cache.Store, body: Json, bearer: Option<string>, now: int)
    requires !BodyAccepted(body)
    ensures Serve(svc, secret, store, body, bearer, now) == (store, FrameworkReply(ValidationError))
  {
  }

  /** A valid body with the wrong or no token is answered 401 `Invalid token`, and the store is untouched. */
  lemma UnauthorizedRejected(svc: Services, secret: string, store: Cache.Store, body: Json, bearer: Option<string>, now: int)
    requires BodyAccepted(body) && bearer != Some(secret)
    ensures Serve(svc, secret, store, body, bearer, now) == (store, Respond(Response(401, [], Text("Invalid token"))))
  {
  }

  /**
   * A live entry is served as it is: the store does not change, and the
   * outcome does not depend on the renderer or the network.
   */
  lemma HitServesStored(svc: Services, secret: string, store: Cache.Store, body: Json, now: int,
                        render: (FeatureCollection, Render.RenderOptions) -> Result<seq<Byte>, string>)
    requires BodyAccepted(body)
    requires Cache.Live(store, CacheKey(svc, ValidateBody(body).value), now)
    ensures var key := CacheKey(svc, ValidateBody(body).value);
      Serve(svc, secret, store, body, Some(secret), now) == (store, Respond(PngResponse(store[key].bytes)))
    ensures Serve(svc, secret, store, body, Some(secret), now)
         == Serve(svc.(render := render), secret, store, body, Some(secret), now)
  {
  }

  /** A miss with a successful render stores the image for 3600 seconds under the key and returns it. */
  lemma MissStores(svc: Services, secret: string, store: Cache.Store, body: Json, now: int)
    requires BodyAccepted(body)
    requires !Cache.Live(store, CacheKey(svc, ValidateBody(body).value), now)
    requires RenderRequest(svc, ValidateBody(body).value).Ok?
    ensures var req := ValidateBody(body).value; var bytes := RenderRequest(svc, req).value;
      && Serve(svc, secret, store, body, Some(secret), now)
         == (store[CacheKey(svc, req) := Cache.Entry(bytes, now + 3600000)], Respond(PngResponse(bytes)))
  {
  }

  /** A miss whose render fails is answered 400 with the render's message, and the key stays absent. */
  lemma FailureStoresNothing(svc: Services, secret: string, store: Cache.Store, body: Json, now: int)
    requires BodyAccepted(body)
    requires !Cache.Live(store, CacheKey(svc, ValidateBody(body).value), now)
    requires RenderRequest(svc, ValidateBody(body).value).Err?
    ensures var req := ValidateBody(body).value;
      && Serve(svc, secret, store, body, Some(secret), now)
         == (store, Respond(Response(400, [], Text(RenderRequest(svc, req).error))))
      && !Cache.Live(Serve(svc, secret, store, body, Some(secret), now).0, CacheKey(svc, req), now)
  {
  }

  /**
   * Once a miss has stored its image, the same request within the next 3600
   * seconds is served the same bytes without rendering, whatever the
   * renderer or the network would now do.
   */
  lemma RepeatWithinHour(svc: Services, secret: string, store: Cache.Store, body: Json, now: int, later: int,
                         again: Services)
    requires BodyAccepted(body)
    requires !Cache.Live(store, CacheKey(svc, ValidateBody(body).value), now)
    requires RenderRequest(svc, ValidateBody(body).value).Ok?
    requires now <= later <= now + 3600000
    requires again.sha256 == svc.sha256 && again.stringify == svc.stringify
    ensures var (stored, first) := Serve(svc, secret, store, body, Some(secret), now);
      && first == Respond(PngResponse(RenderRequest(svc, ValidateBody(body).value).value))
      && !Renders(again, secret, stored, body, Some(secret), later)
      && Serve(again, secret, stored, body, Some(secret), later) == (stored, first)
  {
    var req := ValidateBody(body).value;
    var key := CacheKey(svc, req);
    assert CacheKey(again, req) == key;
    var (stored, first) := Serve(svc, secret, store, body, Some(secret), now);
    MissStores(svc, secret, store, body, now);
    Cache.ReadAfterWrite(store, key, RenderRequest(svc, req).value, CACHE_SECONDS, now, later);
    HitServesStored(again, secret, stored, body, later, again.render);
  }

  /** Every reply the application builds is the PNG image with status 200, or a 400/401 carrying a message. */
  lemma ResponsesAreWellFormed(svc: Services, secret: string, store: Cache.Store, body: Json, bearer: Option<string>, now: int)
    ensures var o := Serve(svc, secret, store, body, bearer, now).1;
      o.Respond? ==>
        || (o.response.status == 200 && o.response.headers == PNG_HEADERS && o.response.payload.Bytes?)
        || ((o.response.status == 400 || o.response.status == 401) && o.response.payload.Text?)
  {
    var validated := ValidateBody(body);
    if validated.Ok? && bearer == Some(secret) {
      var req := validated.value;
      var (s, out) := GetOrRender(store, CacheKey(svc, req), now, RenderRequest(svc, req));
      assert Serve(svc, secret, store, body, bearer, now).1 == if out.Ok? then Respond(PngResponse(out.value)) else Reply(out.error);
      assert out.Err? ==> out.error.BadRequestError?;
    }
  }

  /** The route changes the store at most at the request's key, and only by storing a fresh render for 3600 seconds. */
  lemma StoreChangesOnlyAtKey(svc: Services, secret: string, store: Cache.Store, body: Json, bearer: Option<string>, now: int)
    ensures var s := Serve(svc, secret, store, body, bearer, now).0;
      || s == store
      || (&& Renders(svc, secret, store, body, bearer, now)
          && var req := ValidateBody(body).value;
          && RenderRequest(svc, req).Ok?
          && s == Cache.Write(store, CacheKey(svc, req), RenderRequest(svc, req).value, CACHE_SECONDS, now))
  {
    var validated := ValidateBody(body);
    if validated.Ok? && bearer == Some(secret) {
      var req := validated.value;
      var key := CacheKey(svc, req);
      var rendered := RenderRequest(svc, req);
      GetOrRenderWrites(store, key, now, rendered);
      assert Serve(svc, secret, store, body, bearer, now).0 == GetOrRender(store, key, now, rendered).0;
    }
  }

  /** The cache protocol writes only on a miss whose render succeeded, and then only that render. */
  lemma GetOrRenderWrites(store: Cache.Store, key: string, now: int, rendered: Result<seq<Byte>, string>)
    ensures var s := GetOrRender(store, key, now, rendered).0;
      || s == store
      || (!Cache.Live(store, key, now) && rendered.Ok? && s == Cache.Write(store, key, rendered.value, CACHE_SECONDS, now))
  {
  }
  // ---------------------------------------------------------------- the deployed pipeline

  /** The WMS request the deployed renderer sends for base layer `i` of a validated request. */
  function LayerURL(libs: Render.Libraries, req: Request, i: nat): string {
    var o := req.renderOptions;
    if i < |Render.URLS| then
      Render.IGNURL(libs, Render.URLS[i], Render.GetSquareBBox(libs, req.collection, o.margin, o.marginUnit),
                    Render.ResolveSize(o.size))
    else ""
  }

  /** The SVG the deployed renderer draws for a validated request. */
  function LayerSvg(libs: Render.Libraries, req: Request): string {
    var o := req.renderOptions;
    var b := Render.GetSquareBBox(libs, req.collection, o.margin, o.marginUnit);
    Render.ConvertGeoJSONtoSVG(libs, Render.Decorated(req.collection, o.fill, o.opacity), b, Render.ResolveSize(o.size))
  }

  /**
   * The deployed renderer on a validated request: the first of the two
   * imagery fetches that rejects decides the error; otherwise the result is
   * the composite of the orthophoto, the boundaries and the SVG.
   */
  lemma DeployedRender(libs: Render.Libraries, fetch: string -> Result<seq<Byte>, string>, svc: Services, req: Request)
    requires svc == Deployed(libs, fetch, svc.sha256, svc.stringify)
    ensures var first := fetch(LayerURL(libs, req, 0)); var second := fetch(LayerURL(libs, req, 1));
            var r := RenderRequest(svc, req);
      && (first.Err? ==> r == Err(first.error))
      && (first.Ok? && second.Err? ==> r == Err(second.error))
      && (first.Ok? && second.Ok? ==>
            r == libs.composite(first.value, [Render.Raster(second.value), Render.Svg(LayerSvg(libs, req))]))
  {
    Render.RenderGeoJSONOutcome(libs, req.collection, req.renderOptions, fetch);
  }

  /**
   * On the deployed server, a valid, authorised request that misses the
   * cache and whose imagery fetch rejects is answered 400 with the message of
   * the first failing fetch, and nothing is stored.
   */
  lemma DeployedFetchFailure(libs: Render.Libraries, fetch: string -> Result<seq<Byte>, string>, svc: Services,
                             secret: string, store: Cache.Store, body: Json, req: Request, now: int, e: string)
    requires svc == Deployed(libs, fetch, svc.sha256, svc.stringify)
    requires ValidateBody(body) == Ok(req)
    requires !Cache.Live(store, CacheKey(svc, req), now)
    requires || fetch(LayerURL(libs, req, 0)) == Err(e)
             || (fetch(LayerURL(libs, req, 0)).Ok? && fetch(LayerURL(libs, req, 1)) == Err(e))
    ensures Serve(svc, secret, store, body, Some(secret), now) == (store, Respond(Response(400, [], Text(e))))
  {
    DeployedRender(libs, fetch, svc, req);
    FailureStoresNothing(svc, secret, store, body, now);
  }

  /**
   * On the deployed server, a valid, authorised request that misses the
   * cache and whose two imagery fetches succeed gets the composite of the
   * orthophoto, the boundaries and the decorated collection's SVG: stored
   * for 3600 seconds and served when compositing succeeds, answered 400
   * with nothing stored when it fails.
   */
  lemma DeployedStoresComposite(libs: Render.Libraries, fetch: string -> Result<seq<Byte>, string>, svc: Services,
                                secret: string, store: Cache.Store, body: Json, req: Request, now: int,
                                ortho: seq<Byte>, admin: seq<Byte>)
    requires svc == Deployed(libs, fetch, svc.sha256, svc.stringify)
    requires ValidateBody(body) == Ok(req)
    requires !Cache.Live(store, CacheKey(svc, req), now)
    requires fetch(LayerURL(libs, req, 0)) == Ok(ortho) && fetch(LayerURL(libs, req, 1)) == Ok(admin)
    ensures match libs.composite(ortho, [Render.Raster(admin), Render.Svg(LayerSvg(libs, req))])
      case Ok(png) => Serve(svc, secret, store, body, Some(secret), now)
                      == (Cache.Write(store, CacheKey(svc, req), png, CACHE_SECONDS, now), Respond(PngResponse(png)))
      case Err(m) => Serve(svc, secret, store, body, Some(secret), now) == (store, Respond(Response(400, [], Text(m))))
  {
    DeployedRender(libs, fetch, svc, req);
    if RenderRequest(svc, req).Ok? {
      MissStores(svc, secret, store, body, now);
    } else {
      FailureStoresNothing(svc, secret, store, body, now);
    }
  }
}
