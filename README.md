# geojson2png, modelled in Dafny

geojson2png is a small HTTP service. A client POSTs a GeoJSON
FeatureCollection to `/v1` with a bearer token. The service checks the body
against a schema and checks the token. It then returns a PNG: the features
drawn as SVG over two IGN WMS base layers, an orthophoto and the
administrative boundaries. Rendered images sit in Redis for an hour, under a
SHA-256 key of the request. The configuration comes from schema defaults,
overridden from the environment.

This project models the rules that sit around the foreign libraries:

- the per-feature styling;
- the square viewport;
- the WMS GetMap request;
- the SVG wrapper;
- the layer order;
- the cache protocol;
- the token guard;
- the error-to-status mapping;
- the body schema and its defaults;
- the GeoJSON schema;
- the configuration overlay.

The geodesy (turf, proj4), the SVG converter (geojson2svg), the compositor
(sharp), number formatting, SHA-256, `JSON.stringify` and `fetch` are
functions passed in as parameters.

Modules, one per file:

- `Wrappers` (`wrappers.dfy`): `Option` and `Result`.
- `Strings` (`strings.dfy`): bytes, `Join` and `Split` on a separator, and their round trip.
- `JsValues` (`jsvalues.dfy`): parsed JSON with insertion-ordered objects, plus the JavaScript semantics the code relies on:
  - truthiness;
  - property assignment;
  - `||=`;
  - `??` (as `Option.GetOr`);
  - rest destructuring.
- `Urls` (`urls.dfy`): `URLSearchParams`, following the URL Standard's `set` and its `application/x-www-form-urlencoded` serializer. It includes the parser that reads a serialization back.
- `GeoJson` (`geojson.dfy`): the request's GeoJSON schema. It gives typed datatypes, a `Valid` predicate, the schema as predicates over JSON, and parse/encode functions between the two. This schema is a restriction of RFC 7946, sections 3.1–3.3 and 5.
- `Render` (`render.dfy`): `decorateFeatureCollection`, `getSquareBBox`, `buildIGNURL`, the `urls` list, the SVG wrapper and `renderGeoJSON`.
- `Cache` (`cache.dfy`): the Redis store as a map from key to bytes and expiry instant. `Cache.Client` is the client object the server holds.
- `Server` (`server.dfy`): the `/v1` route, covering:
  - body validation, with the schema defaults;
  - `beforeHandle`;
  - the cache-fronted handler, as methods of `Server.App`;
  - `onError`.
- `Config` (`config.dfy`): `Value.Create`, the environment loop, and the check that throws.

Where the code and the natural reading of the design differ, the model follows the code:

- `fetch` results are never checked for HTTP status. A non-2xx body is used as image data like any other, so only a fetch that rejects ends the render.
- The cache key uses `JSON.stringify` of the objects as received. Two bodies that differ only in member order get different keys.
- The handler hard-codes an expiry of 3600 seconds. `GEOJSON2PNG_TTL`, `GEOJSON2PNG_MAX` and `GEOJSON2PNG_MAX_ITEM_SIZE` are loaded but never read.
- `REDIS_URL` is not a schema key, so the environment loop never copies it in.
- Loading the configuration from an empty environment throws: the token becomes `''`, which is shorter than 5 characters (`Config.EmptyEnvironmentFails`).
- A body member the schema does not name is kept in `options`. It therefore takes part in the cache key.

## Model

| member | source | states |
|---|---|---|
| Render.DecorateFeatureCollection | src/render.ts:53-64 | The loop over the cloned feature list returns the decorated collection: every feature styled, in order, with count and `bbox` kept. The input is a value, so the caller's collection is unchanged. |
| Render.StyleFeature | src/render.ts:59-61 | One loop step: `properties \|\|= {}`, then `fill \|\|=` and `opacity \|\|=` on that feature. |
| Render.Decorated | src/render.ts:57-62 | Feature by feature, the same collection with each feature styled; same length and same `bbox`. |
| Render.StyledPropertiesSpec | src/render.ts:59-61 | A truthy own `fill`/`opacity` is kept. A falsy or absent one becomes the option, or `'blue'`/`0.5` when the option is absent. All other properties are unchanged. |
| Render.ZeroOpacityReplaced | src/render.ts:61 | A feature's own opacity `0` is replaced, because `\|\|=` is not `??=`. |
| Render.DecoratedStyled | src/render.ts:58-62 | After decoration every feature has properties holding `fill` and `opacity`. Geometry, count and `bbox` are kept, and validity is preserved. |
| Render.StyledPropertiesIdempotent | src/render.ts:59-61 | Styling an already styled feature again changes nothing. |
| Render.DecoratedIdempotent | src/render.ts:57-62 | Decorating a decorated collection changes nothing. |
| Render.ResolveSize | src/render.ts:28 | `size \|\| 1000`: a present non-zero size is kept, an absent or zero size becomes 1000, so the result is never zero. |
| Render.ExplicitBBoxDecides | src/render.ts:125-127 | With an explicit `bbox`, the viewport is the square of that box, whatever the features are. |
| Render.ComputedBBoxOtherwise | src/render.ts:125-127 | Without a `bbox`, the viewport is the square of the box computed over the features. |
| Render.MarginDefaults | src/render.ts:128-129 | An absent margin is 20 and an absent unit is meters (`??`). |
| Render.NonPositiveMarginUnbuffered | src/render.ts:131-136 | An explicit margin of 0 or less returns the unbuffered square itself. |
| Render.PositiveMarginBuffers | src/render.ts:131-134 | A positive margin buffers the square's polygon by that distance in that unit, takes its box and squares it again. |
| Render.BuildIGNURL | src/render.ts:93-111 | The successive `set` calls on a fresh `URLSearchParams`, then the text, give `"https://" + base + "&"` followed by the serialization of the ten GetMap parameters in `set` order. |
| Render.IGNNamesFresh | src/render.ts:99-108 | No GetMap parameter name repeats an earlier one, so every `set` appends. |
| Render.IGNFixedParams | src/render.ts:99-105 | EXCEPTIONS, FORMAT, SERVICE, VERSION, REQUEST, STYLES and CRS read back as `text/xml`, `image/png`, `WMS`, `1.3.0`, `GetMap`, `''` and `EPSG:4326`. |
| Render.IGNBoxAndSize | src/render.ts:106-108 | BBOX reads back as the latitude-first box text; WIDTH and HEIGHT both read back as the size. |
| Render.WmsBBoxLatitudeFirst | src/render.ts:106 | The BBOX value splits at its commas into exactly `minY, minX, maxY, maxX`. This is the WMS 1.3.0 axis order for EPSG:4326. |
| Render.IGNParamsAscii | src/render.ts:98-108 | Once the number texts are ASCII, all ten GetMap parameters are ASCII. That is the premise under which `Urls.SerializedLookup` reads each value back from their serialization. No lemma parses the whole URL, whose query starts with the source's own `LAYERS=…`. |
| Render.FetchURLs | src/render.ts:37-38 | One request URL per WMS source, in `urls` order. Each is `"https://" + source + "&" + params` for the same box and size. |
| Render.FetchAll | src/render.ts:36-42 | `Promise.all`: it succeeds exactly when every fetch succeeds, giving the bodies in list order. Otherwise it fails with the error of the first failing fetch in list order. That order is a modelling choice: `Promise.all` rejects with the first failure in time. |
| Render.FetchTwo | src/render.ts:36-42 | For the two sources: the first failure in list order (the modelling choice of `Render.FetchAll`) decides the error, and otherwise both bodies are returned. |
| Render.CompositeInputs | src/render.ts:44-48 | The layers over the background are the fetched images after the first, in order, with the SVG last (on top). |
| Render.UnwrapSvgDocument | src/render.ts:90 | The wrapper `<svg xmlns=… width=size height=size>…</svg>` can be undone: reading the document back with the same size text gives back exactly the converter's output. |
| Render.PlanAligned | src/render.ts:27-38 | The converter maps the square box onto a size×size viewport. The SVG declares that size and wraps the converter's lines joined by `'\n'`. Both base-layer URLs ask for that box at that size, one per source, in order. |
| Render.GetSquareBBox | src/render.ts:121-137 | The viewport is always an output of turf's `square`, and a margin of 0 or less (after the default of 20) leaves the unbuffered square. Its cases are stated by `Render.ExplicitBBoxDecides`, `Render.ComputedBBoxOtherwise`, `Render.MarginDefaults`, `Render.NonPositiveMarginUnbuffered` and `Render.PositiveMarginBuffers`. |
| Render.ConvertGeoJSONtoSVG | src/render.ts:66-91 | The document is the size×size SVG wrapper around the converter's elements joined by `'\n'`: reading it back with the size text gives exactly that output. |
| Render.RenderGeoJSONOutcome | src/render.ts:23-51 | `renderGeoJSON` end to end. If the orthophoto request fails, its error is the result. Otherwise, if the boundaries request fails, its error is the result. Otherwise the result is sharp's composite of the boundaries and then the SVG of the decorated collection over the orthophoto, all for the same square box and size. |
| Render.RunPlanOutcome | src/render.ts:36-50 | A render fails with the first failing fetch in list order (the modelling choice of `Render.FetchAll`). Otherwise it composites the second image and then the SVG over the first image (the background). |
| JsValues.Get | src/render.ts:59-61 | A property read is present exactly when the object has a member of that name. |
| JsValues.Put | src/render.ts:59-61 | Assignment makes the member read as the new value and leaves every other member reading as before. It keeps the member's place; a new member goes last. |
| JsValues.OrAssign | src/render.ts:59-61 | `obj[k] \|\|= v` leaves the object as it is when `obj[k]` is truthy, and otherwise makes it read `v`. No other member changes. |
| JsValues.OrAssignSettled | src/render.ts:59-61 | `\|\|=` changes nothing once the member is truthy or already the value. |
| JsValues.OrAssignIdempotent | src/render.ts:59-61 | A second `obj[k] \|\|= v` after the first changes nothing. |
| JsValues.Omit | src/server.ts:40 | `{ featureCollection, ...options }`: the rest has no `featureCollection` member, and every other member reads as in the body. |
| Urls.SetParam | src/render.ts:99-108 | `set` makes the name read as the value and leaves other names as they were; a new name is appended. |
| Urls.SearchParams.Set | src/render.ts:99-108 | The `URLSearchParams` object's list becomes `SetParam` of its old list, which is an append for a new name. |
| Urls.Encode | src/render.ts:110 | The form-encoded text of a name or value contains no `&` and no `=`. |
| Urls.DecodeEncode | src/render.ts:110 | The percent-decoding of the encoding of an ASCII text is that text. |
| Urls.ParseSerialize | src/render.ts:110 | Parsing a serialized list of ASCII parameters gives back the list, names and values in order. |
| Urls.SerializedLookup | src/render.ts:110 | Each parameter reads back from the serialized query with its set value. |
| Urls.LookupAt | src/render.ts:99-108 | A parameter whose name is not used earlier in the list is read as its own value. |
| Strings.SplitJoin | src/config.ts:26 | Splitting, at the separator, a join of parts that avoid the separator gives back the parts. |
| GeoJson.ParsePosition | src/geojson.ts:3-6 | A Coordinate is exactly two or three numbers. |
| GeoJson.ParseBBox | src/geojson.ts:7 | A BBox is exactly four numbers. |
| GeoJson.ParseLine | src/geojson.ts:8-19 | MultiPoint and LineString coordinates are one array level around Coordinates. |
| GeoJson.ParseLines | src/geojson.ts:20-27 | MultiLineString and Polygon coordinates are two levels. |
| GeoJson.ParsePolygons | src/geojson.ts:28-31 | MultiPolygon coordinates are three levels. |
| GeoJson.ParseGeometry | src/geojson.ts:32-39 | A value parses as a geometry exactly when it is one of the six shapes, each with `type` and its nesting depth. |
| GeoJson.ParseFeatureGeometry | src/geojson.ts:40-46 | A feature's geometry is a simple geometry or a GeometryCollection of simple geometries, and nothing else. |
| GeoJson.ParseFeature | src/geojson.ts:44-48 | A value parses as a feature exactly when the schema accepts it; its properties are then a record. |
| GeoJson.ParseFeatureCollection | src/geojson.ts:50-54 | A value parses exactly when the schema accepts it, and the parsed collection is `Valid`: at least one feature, each with properties. |
| GeoJson.ParseEncodeFeatureCollection | src/geojson.ts:50-54 | Every `Valid` collection encodes to JSON the schema accepts, and that JSON parses back to the same collection. |
| GeoJson.ParseEncodeGeometry | src/geojson.ts:8-39 | Every geometry encodes and parses back to itself. |
| GeoJson.ParseEncodeFeature | src/geojson.ts:44-48 | Every feature with properties encodes and parses back to itself. |
| GeoJson.ParseEncodePosition | src/geojson.ts:3-6 | Every two- or three-number position encodes and parses back to itself. |
| GeoJson.NestedCollectionRejected | src/geojson.ts:40-43 | A GeometryCollection holding a GeometryCollection is rejected. |
| GeoJson.CoordinateListIsNotCoordinate | src/geojson.ts:3-12 | A non-empty list of Coordinates is not a Coordinate, so the nesting depths do not overlap. |
| GeoJson.SixNumberBBoxRejected | src/geojson.ts:7 | A six-number bbox, which RFC 7946 section 5 allows, is rejected. |
| GeoJson.NullPropertiesRejected | src/geojson.ts:44-48 | A feature with `properties: null` is rejected. |
| Cache.Read | src/server.ts:42 | `getBuffer` gives the stored bytes exactly while the entry has not expired, and nothing otherwise. |
| Cache.Write | src/server.ts:47 | `set key value EX s` stores the bytes under the key with expiry `now + s·1000` ms and leaves every other key unchanged. |
| Cache.ReadAfterWrite | src/server.ts:47 | A written value reads back for exactly `s` seconds after the write, and not after. |
| Cache.WriteKeepsOthers | src/server.ts:47 | A write leaves every other key reading as before. |
| Cache.Client.GetBuffer | src/server.ts:42 | The client's read, as `Cache.Read` on its store. |
| Cache.Client.Set | src/server.ts:47 | The client's store becomes `Cache.Write` of the old store, taking effect at once. |
| Server.OnError | src/server.ts:30-37 | `BAD_REQUEST` becomes 400 and `UNAUTHORIZED_REQUEST` becomes 401, each carrying the error's message. Any other error, body validation included, is not handled. |
| Server.BeforeHandle | src/server.ts:56-60 | Any bearer other than the secret, a missing one included, raises UnauthorizedError `'Invalid token'`. The secret passes. |
| Server.ValidateBody | src/server.ts:61-79 | A body is accepted exactly when the schema holds. Then the collection is `Valid`, every option is present, size is in [50,4000], opacity in [0,1], margin in [0,100] and the unit is named. A refused body is a ValidationError. |
| Server.ValidatedOptions | src/server.ts:61-79 | Each option is the body's own value when sent, and otherwise its default: 1000, `'blue'`, 0.5, 20, meters. |
| Server.DefaultedFields | src/server.ts:61-79 | The body after defaults reads each optional field as sent, or else as its schema default. `featureCollection` is untouched. |
| Server.ValidatedSizeIsUsed | src/server.ts:63-65 | A validated size is at least 50, so the render's `\|\| 1000` fallback never fires on this route. |
| Server.ValidatedRequest | src/server.ts:40 | The request keeps the collection exactly as sent, and that JSON is what the cache key sees. The renderer gets its typed parse. `options` is the rest of the defaulted body, without `featureCollection`. |
| Server.SameSerializationSameKey | src/server.ts:41 | Requests whose `[featureCollection, options]` serialize alike get the same key. |
| Server.CacheKey | src/server.ts:41 | `sha256(JSON.stringify([featureCollection, options]))`. `Server.SameSerializationSameKey` states that it depends on the serialized pair alone. |
| Server.GetOrRender | src/server.ts:42-51 | The cache protocol on one key. A live entry is served and the store is unchanged. On a miss, a successful render is stored for 3600 s and served. A failed render becomes a BadRequestError with its message, and nothing is stored. |
| Server.Handle | src/server.ts:40-54 | The handler answers either status 200 with `content-type: image/png` and the image bytes, or a BadRequestError. It changes the store only on a miss whose render succeeded. |
| Server.Serve | src/server.ts:38-81 | The route gives the framework's own reply exactly when the body is refused. It changes the store only when the request reaches the renderer: valid, authorised and a cache miss. |
| Server.DeployedRender | src/server.ts:46 | With the running server's services, the handler's render of a validated request is `renderGeoJSON`'s outcome: the first rejecting WMS fetch decides the error, and otherwise it is the composite of the orthophoto, the boundaries and the decorated collection's SVG. |
| Server.DeployedFetchFailure | src/server.ts:42-51 | On the running server, a valid, authorised request that misses the cache and whose WMS fetch rejects is answered 400 with that fetch's message, and the store is unchanged. |
| Server.DeployedStoresComposite | src/server.ts:42-53 | On the running server, when both WMS fetches of a cache miss succeed, a composite that succeeds is stored under the key for 3600 s and served as `image/png`. A composite that fails is answered 400 with its message and stores nothing. |
| Server.App.Handler | src/server.ts:40-54 | The handler reads the key through `getBuffer`. On a miss it renders and stores, and otherwise it serves. Store and result are as `Server.Handle`, and the render count goes up by one exactly on a miss. |
| Server.App.Post | src/server.ts:38-81 | A POST runs validation, then `beforeHandle`, then the handler, with errors through `onError`. It renders exactly when the request is valid, authorised and misses the cache. |
| Server.InvalidBodyRejected | src/server.ts:61-79 | A refused body leaves the store alone and gets the framework's own reply. |
| Server.UnauthorizedRejected | src/server.ts:56-59 | A valid body with the wrong or no token is answered 401 `Invalid token` and leaves the store untouched. |
| Server.HitServesStored | src/server.ts:42-44 | A live entry is served with status 200 as stored. The store is unchanged, and the outcome does not depend on the renderer. |
| Server.MissStores | src/server.ts:45-47 | A miss with a successful render stores the image under the key for 3600 s and returns it. |
| Server.FailureStoresNothing | src/server.ts:48-50 | A miss whose render fails is answered 400 with the render's message, and leaves the key without a live entry. |
| Server.RepeatWithinHour | src/server.ts:42-47 | After a miss has stored its image, the same request within 3600 s gets the same bytes without rendering, whatever the renderer would now do. |
| Server.ResponsesAreWellFormed | src/server.ts:53 | Every application response is either status 200 with `content-type: image/png` and the image bytes, or a 400/401 with a message. |
| Server.StoreChangesOnlyAtKey | src/server.ts:44-47 | A request leaves the store unchanged, or, on a rendering miss, writes exactly the fresh image under its own key for 3600 s. |
| Server.GetOrRenderWrites | src/server.ts:44-50 | The cache protocol writes only on a miss with a successful render, and only that render. |
| Config.Create | src/config.ts:14 | `Value.Create` puts every schema property at its default: 8080, 600000, 100, 3000000. |
| Config.Overlay | src/config.ts:16-22 | The overlaid configuration is defined on every schema key; each key holds its own overlaid value. |
| Config.ApplyEnvironment | src/config.ts:14-22 | The loop over the schema keys gives the overlay: a truthy environment value replaces the default, and an unset or empty token becomes `''`. |
| Config.LoadConfig | src/config.ts:14-28 | Loading succeeds exactly when the check finds no problem, and then gives the overlay. Otherwise it fails with the messages joined by `'\n'`. |
| Config.Messages | src/config.ts:26 | The check's messages, in schema order: none exactly when no property has a problem, each one the number or the token message. |
| Config.EmptyEnvironment | src/config.ts:6-9 | With nothing set, the numbers keep 8080, 600000, 100 and 3000000, and the token is `''`. |
| Config.EmptyEnvironmentFails | src/config.ts:19-20 | With nothing set, loading fails with the token's message alone. |
| Config.OnlySchemaVariables | src/config.ts:16 | Only the schema's variables are read: environments that agree on them load the same configuration. |
| Config.CheckPassesIff | src/config.ts:24-28 | The check passes exactly when the token has at least 5 UTF-16 code units (JavaScript's `length`, which `minLength` tests) and every overridden number is accepted. |
| Config.ShortTokenFails | src/config.ts:10 | A token that is missing, empty or shorter than 5 UTF-16 code units makes loading throw. |
| Config.AstralTokenAccepted | src/config.ts:10 | Three characters outside the Basic Multilingual Plane are six UTF-16 code units, so such a token meets `minLength: 5`. |
| Config.AstralTokenLoads | src/config.ts:10-28 | With only such a token set, loading succeeds. |
| Strings.Utf16Length | src/config.ts:10 | A string's JavaScript `length` is between its character count and twice that, and equals the character count when every character is in the Basic Multilingual Plane. |
| Config.MessageSplits | src/config.ts:25-27 | The thrown message splits back at its newlines into the individual messages. |

## Left out

- turf (`square`, `bbox`, `bboxPolygon`, `buffer`) is a set of uninterpreted functions in `Render.Libraries`. The model claims no squareness or containment.
- proj4's `forward`, the converter's `coordinateConverter`, has no field of its own. It is part of the uninterpreted `convert`, which gets the rest of the converter options as `Render.ConverterOptions`.
- GeoJSON2SVG conversion, sharp compositing and PNG encoding are uninterpreted. Only the converter options, the layer order and the wrapper string are modelled.
- JavaScript's Number-to-String is an uninterpreted function. The URL lemmas assume its results are ASCII and comma-free, where they need that.
- `fetch` is a function from URL to bytes or error. The network, `response.arrayBuffer()` and the concurrency of `Promise.all` are not modelled. `Render.FetchAll` gives the first failure in list order, where the real one is the first in time.
- SHA-256 and `JSON.stringify` are uninterpreted functions in `Server.Services`. The key is not claimed to be independent of member order, because the code does no canonicalization.
- Render in `Server.Services` is an arbitrary function, so the route lemmas hold for any renderer. `Server.Deployed` fixes it to `Render.RenderGeoJSON`, and the `Server.Deployed…` lemmas state the route's outcome for those services. Only `fetch` and `composite` can fail in the model.
- Server.RenderRequest: the renderer gets the typed parse of the collection, which keeps only `type`, `coordinates`, `geometries`, `properties` and the collection's `bbox`. The source passes the validated JSON object itself to `structuredClone`, turf and GeoJSON2SVG, so a feature's `id`, its foreign members and a geometry's own `bbox` still reach those libraries. The model drops them before the uninterpreted libraries see them. The cache key still uses the JSON as sent.
- `Render.DecorateFeatureCollection`: `structuredClone` and the in-place property assignments become an update of a local sequence of values. With value semantics the copy is implicit, so aliasing between the clone and the input is not modelled.
- `Render.BuildIGNURL`: the ten `set` statements are one loop over the parameter table, in the same order.
- `cache.set` is un-awaited in the source. It is modelled as a write that takes effect at once, and a failure of that write is not modelled.
- The Redis `error` listener, the connection to `REDIS_URL` and Redis's eviction are not modelled. Time is an explicit millisecond parameter.
- Elysia's default reply to a failed validation is not modelled: its status and its body are not claimed. The bearer plugin's header parsing is the `Option<string>` parameter; routing, `listen(Config.PORT)` and the startup log are not modelled.
- The validator's type coercions are not modelled. `Config.LoadConfig`: whether an environment string passes a `Type.Number` field is the parameter `numberAccepts`, and the token's initial value from `Value.Create` is the parameter `created`.
- `Value.Errors` may give more than one message for one property. The model gives at most one per property, with the texts `Expected number` and `Expected string length greater or equal to 5`.
- `GEOJSON2PNG_TTL`, `GEOJSON2PNG_MAX` and `GEOJSON2PNG_MAX_ITEM_SIZE` are loaded and checked but never used, so they play no part in the server model.
- Render.RenderGeoJSONOutcome: exceptions thrown by turf in `getSquareBBox` or by `converter.convert` are not modelled, because those library functions are total here. In the source such a throw rejects `renderGeoJSON` and reaches the 400 path of the handler. In the model a render fails only through `fetch` or `composite`.
- Server.App.Post: requests are serialised and a render takes no time. The source awaits at `getBuffer` and at `renderGeoJSON`, so two requests with the same key can both miss and both render. Redis also counts the 3600 s from the `SET`, after the render, where the model counts them from the instant of the read. For the same reason, `Server.RepeatWithinHour` covers only requests that start after the first one has finished.
- JsValues.Get: objects may hold duplicate member names, and a read gives the first. After `JSON.parse`, a JavaScript object has unique names, where the last duplicate wins, and lists integer-like names first. Neither rule is modelled.
- JSON numbers are unbounded reals; floating point is not modelled.
