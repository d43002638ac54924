/**
 * The render path: per-feature styling, the square viewport, the WMS GetMap
 * requests for the base layers, the SVG overlay document and the order in
 * which the layers are composited. Geodesy (turf, proj4), SVG conversion,
 * PNG compositing (sharp) and number formatting are foreign and enter as
 * the functions of a `Libraries` value.
 */
module Render {
  import opened Wrappers
  import opened Strings
  import opened JsValues
  import opened GeoJson
  import Urls

  const DEFAULT_SIZE: real := 1000.0
  const DEFAULT_FILL: string := "blue"
  const DEFAULT_OPACITY: real := 0.5
  const DEFAULT_MARGIN: real := 20.0

  datatype MarginUnit = Meters | Kilometers | Miles

  const DEFAULT_MARGIN_UNIT: MarginUnit := Meters

  /** `RenderGeoJSONOptions`: every field may be absent; absent options are all None. */
  datatype RenderOptions = RenderOptions(
    size: Option<real>,
    fill: Option<string>,
    opacity: Option<real>,
    margin: Option<real>,
    marginUnit: Option<MarginUnit>)

  /** The configuration handed to the GeoJSON2SVG converter (its coordinate converter is proj4's forward map). */
  datatype ConverterOptions = ConverterOptions(
    left: real, bottom: real, right: real, top: real,
    width: real, height: real,
    attributes: seq<(string, string)>,
    r: real,
    pointAsCircle: bool)

  /** A layer handed to the compositor: fetched raster bytes or the SVG overlay. */
  datatype Layer = Raster(bytes: seq<Byte>) | Svg(document: string)

  /** The foreign functions the render path calls. */
  datatype Libraries = Libraries(
    square: BBox -> BBox,                               // turf.square
    bboxOfCollection: FeatureCollection -> BBox,        // turf.bbox on the input
    bboxPolygon: BBox -> Feature,                       // turf.bboxPolygon
    buffer: (Feature, real, MarginUnit) -> Feature,     // turf.buffer
    bboxOfFeature: Feature -> BBox,                     // turf.bbox on the buffered polygon
    convert: (ConverterOptions, FeatureCollection) -> seq<string>,  // GeoJSON2SVG.convert
    numberToString: real -> string,                     // JavaScript's Number-to-String
    composite: (seq<Byte>, seq<Layer>) -> Result<seq<Byte>, string>) // sharp(bg).composite(...).png().toBuffer()

  // ---------------------------------------------------------------- styling

  /** The styled properties of one feature: `properties ||= {}`, then `fill ||= …` and `opacity ||= …`. */
  function StyledProperties(props: Option<Members>, fill: Option<string>, opacity: Option<real>): Members {
    var ms := if props.Some? then props.value else [];
    var withFill := OrAssign(ms, "fill", JString(fill.GetOr(DEFAULT_FILL)));
    OrAssign(withFill, "opacity", JNumber(opacity.GetOr(DEFAULT_OPACITY)))
  }

  function StyledFeature(f: Feature, fill: Option<string>, opacity: Option<real>): Feature {
    f.(properties := Some(StyledProperties(f.properties, fill, opacity)))
  }

  /** The collection `decorateFeatureCollection` returns: every feature styled, nothing else changed. */
  function Decorated(fc: FeatureCollection, fill: Option<string>, opacity: Option<real>): (r: FeatureCollection)
    ensures |r.features| == |fc.features| && r.bbox == fc.bbox
    ensures forall i :: 0 <= i < |fc.features| ==> r.features[i] == StyledFeature(fc.features[i], fill, opacity)
  {
    fc.(features := seq(|fc.features|, i requires 0 <= i < |fc.features| => StyledFeature(fc.features[i], fill, opacity)))
  }

  /** The loop body of `decorateFeatureCollection` on one cloned feature: `properties ||= {}`, then the two `||=`. */
  method StyleFeature(feature: Feature, options: RenderOptions) returns (styled: Feature)
    ensures styled == StyledFeature(feature, options.fill, options.opacity)
  {
    var props := if feature.properties.Some? then feature.properties.value else [];
    props := OrAssign(props, "fill", JString(options.fill.GetOr(DEFAULT_FILL)));
    props := OrAssign(props, "opacity", JNumber(options.opacity.GetOr(DEFAULT_OPACITY)));
    styled := feature.(properties := Some(props));
  }

  /**
   * Styles a clone of the collection: the loop walks the cloned feature
   * list and replaces each entry by its styled copy, so the caller's
   * collection is not touched.
   */
  method DecorateFeatureCollection(fc: FeatureCollection, options: RenderOptions) returns (r: FeatureCollection)
    ensures r == Decorated(fc, options.fill, options.opacity)
  {
    var features := fc.features;
    for i := 0 to |features|
      invariant |features| == |fc.features|
      invariant forall j :: 0 <= j < i ==> features[j] == StyledFeature(fc.features[j], options.fill, options.opacity)
      invariant forall j :: i <= j < |features| ==> features[j] == fc.features[j]
    {
      var styled := StyleFeature(features[i], options);
      features := features[i := styled];
    }
    r := fc.(features := features);
  }

  // ---------------------------------------------------------------- viewport

  /** `options.size || 1000`: an absent or zero size is the default, so the size is never zero. */
  function ResolveSize(size: Option<real>): (r: real)
    ensures r != 0.0
    ensures size.Some? && size.value != 0.0 ==> r == size.value
    ensures size.None? || size.value == 0.0 ==> r == DEFAULT_SIZE
  {
    if size.Some? && size.value != 0.0 then size.value else DEFAULT_SIZE
  }

  /** The square before any margin: of the explicit `bbox` when there is one, else of the computed one. */
  function NoMarginBBox(libs: Libraries, fc: FeatureCollection): BBox {
    if fc.bbox.Some? then libs.square(fc.bbox.value) else libs.square(libs.bboxOfCollection(fc))
  }

  /** `getSquareBBox`: the margin defaults with `??`, and only a positive margin buffers and squares again. */
  function GetSquareBBox(libs: Libraries, fc: FeatureCollection, margin: Option<real>, marginUnit: Option<MarginUnit>): (r: BBox)
    ensures exists pre :: r == libs.square(pre)
    ensures margin.GetOr(DEFAULT_MARGIN) <= 0.0 ==> r == NoMarginBBox(libs, fc)
  {
    var m := margin.GetOr(DEFAULT_MARGIN);
    var unit := marginUnit.GetOr(DEFAULT_MARGIN_UNIT);
    if m > 0.0 then libs.square(libs.bboxOfFeature(libs.buffer(libs.bboxPolygon(NoMarginBBox(libs, fc)), m, unit)))
    else NoMarginBBox(libs, fc)
  }

  // ---------------------------------------------------------------- base-layer requests

  /** The two WMS sources: the orthophoto background, then the administrative boundaries. */
  const URLS: seq<string> := [
    "wxs.ign.fr/ortho/geoportail/r/wms?LAYERS=ORTHOIMAGERY.ORTHOPHOTOS.BDORTHO",
    "wxs.ign.fr/administratif/geoportail/r/wms?LAYERS=ADMINEXPRESS-COG-CARTO.LATEST"
  ]

  /** The `BBOX` value for CRS EPSG:4326 in WMS 1.3.0: latitude first, `minY,minX,maxY,maxX`. */
  function WmsBBox(libs: Libraries, b: BBox): string {
    libs.numberToString(b.minY) + "," + libs.numberToString(b.minX) + ","
      + libs.numberToString(b.maxY) + "," + libs.numberToString(b.maxX)
  }

  /** The GetMap parameters in the order `buildIGNURL` sets them. */
  function IGNParams(libs: Libraries, b: BBox, size: real): Urls.Params {
    [("EXCEPTIONS", "text/xml"), ("FORMAT", "image/png"), ("SERVICE", "WMS"), ("VERSION", "1.3.0"),
     ("REQUEST", "GetMap"), ("STYLES", ""), ("CRS", "EPSG:4326"), ("BBOX", WmsBBox(libs, b)),
     ("WIDTH", libs.numberToString(size)), ("HEIGHT", libs.numberToString(size))]
  }

  function IGNURL(libs: Libraries, base: string, b: BBox, size: real): string {
    "https://" + base + "&" + Urls.Serialize(IGNParams(libs, b, size))
  }

  /** No GetMap parameter name repeats an earlier one, so every `set` appends. */
  lemma IGNNamesFresh(libs: Libraries, b: BBox, size: real)
    ensures forall i :: 0 <= i < |IGNParams(libs, b, size)| ==>
      !Urls.HasName(IGNParams(libs, b, size)[..i], IGNParams(libs, b, size)[i].0)
  {
  }

  /** `buildIGNURL`: successive `set` calls on a `URLSearchParams`, then the URL text. */
  method BuildIGNURL(libs: Libraries, base: string, b: BBox, size: real) returns (url: string)
    ensures url == IGNURL(libs, base, b, size)
  {
    var pairs := IGNParams(libs, b, size);
    IGNNamesFresh(libs, b, size);
    var params := new Urls.SearchParams();
    for i := 0 to |pairs|
      invariant params.list == pairs[..i]
    {
      assert pairs[..i + 1] == pairs[..i] + [pairs[i]];
      params.Set(pairs[i].0, pairs[i].1);
    }
    assert pairs[..|pairs|] == pairs;
    url := "https://" + base + "&" + params.ToString();
  }

  /** `urls.map(url => buildIGNURL(url, bbox, size))`. */
  function FetchURLs(libs: Libraries, b: BBox, size: real): (r: seq<string>)
    ensures |r| == |URLS|
    ensures forall i :: 0 <= i < |URLS| ==> r[i] == IGNURL(libs, URLS[i], b, size)
  {
    seq(|URLS|, i requires 0 <= i < |URLS| => IGNURL(libs, URLS[i], b, size))
  }

  /** `Promise.all` over the fetches: every body in list order, or the first failure. */
  function FetchAll(urls: seq<string>, fetch: string -> Result<seq<Byte>, string>): (r: Result<seq<seq<Byte>>, string>)
    ensures r.Ok? <==> forall i :: 0 <= i < |urls| ==> fetch(urls[i]).Ok?
    ensures r.Ok? ==> |r.value| == |urls| && forall i :: 0 <= i < |urls| ==> r.value[i] == fetch(urls[i]).value
    ensures r.Err? ==> exists i :: 0 <= i < |urls| && fetch(urls[i]) == Err(r.error)
                                && forall j :: 0 <= j < i ==> fetch(urls[j]).Ok?
  {
    if urls == [] then Ok([])
    else
      var rest := FetchAll(urls[1..], fetch);
      assert forall i :: 1 <= i < |urls| ==> urls[i] == urls[1..][i - 1];
      match fetch(urls[0])
      case Err(e) => Err(e)
      case Ok(body) =>
        match rest
        case Err(e) =>
          ghost var i :| 0 <= i < |urls[1..]| && fetch(urls[1..][i]) == Err(e)
                         && forall j :: 0 <= j < i ==> fetch(urls[1..][j]).Ok?;
          assert fetch(urls[i + 1]) == Err(e) && forall j :: 0 <= j < i + 1 ==> fetch(urls[j]).Ok?;
          Err(e)
        case Ok(bodies) => Ok([body] + bodies)
  }

  // ---------------------------------------------------------------- overlay and compositing

  function ConverterFor(b: BBox, size: real): ConverterOptions {
    ConverterOptions(b.minX, b.minY, b.maxX, b.maxY, size, size,
                     [("properties.fill", "fill"), ("properties.opacity", "opacity")], 5.0, true)
  }

  /** The opening tag of the overlay document for a given size text. */
  function SvgOpenTag(sizeText: string): string {
    "<svg xmlns=\"http://www.w3.org/2000/svg\" width=\"" + sizeText + "\" height=\"" + sizeText + "\">"
  }

  const SVG_CLOSE_TAG: string := "</svg>"

  /** The wrapper `convertGeoJSONtoSVG` puts around the converter's output. */
  function SvgDocument(sizeText: string, body: string): string {
    SvgOpenTag(sizeText) + body + SVG_CLOSE_TAG
  }

  /** `convertGeoJSONtoSVG`: the converter's elements joined by newlines, wrapped in a size×size document. */
  function ConvertGeoJSONtoSVG(libs: Libraries, fc: FeatureCollection, b: BBox, size: real): (r: string)
    ensures UnwrapSvg(r, libs.numberToString(size)) == Some(Join(libs.convert(ConverterFor(b, size), fc), '\n'))
  {
    UnwrapSvgDocument(libs.numberToString(size), Join(libs.convert(ConverterFor(b, size), fc), '\n'));
    SvgDocument(libs.numberToString(size), Join(libs.convert(ConverterFor(b, size), fc), '\n'))
  }

  /** Reading the body back out of a document declared with that size, if it is one. */
  function UnwrapSvg(doc: string, sizeText: string): Option<string> {
    var open := SvgOpenTag(sizeText);
    if |doc| >= |open| + |SVG_CLOSE_TAG| && doc[..|open|] == open && doc[|doc| - |SVG_CLOSE_TAG|..] == SVG_CLOSE_TAG
    then Some(doc[|open|..|doc| - |SVG_CLOSE_TAG|])
    else None
  }

  /** The overlays handed to `composite`: the fetched layers after the first, in order, then the SVG on top. */
  function CompositeInputs(fetched: seq<seq<Byte>>, svg: string): (r: seq<Layer>)
    requires |fetched| >= 1
    ensures |r| == |fetched|
    ensures forall i :: 0 <= i < |fetched| - 1 ==> r[i] == Raster(fetched[i + 1])
    ensures r[|r| - 1] == Svg(svg)
  {
    seq(|fetched| - 1, i requires 0 <= i < |fetched| - 1 => Raster(fetched[i + 1])) + [Svg(svg)]
  }

  /** Everything `renderGeoJSON` computes before any I/O. */
  datatype Plan = Plan(bbox: BBox, size: real, converter: ConverterOptions, svg: string, urls: seq<string>)

  function PlanRender(libs: Libraries, fc: FeatureCollection, options: RenderOptions): Plan {
    var b := GetSquareBBox(libs, fc, options.margin, options.marginUnit);
    var size := ResolveSize(options.size);
    Plan(b, size, ConverterFor(b, size),
         ConvertGeoJSONtoSVG(libs, Decorated(fc, options.fill, options.opacity), b, size),
         FetchURLs(libs, b, size))
  }

  /** The I/O half of `renderGeoJSON`: fetch the base layers, then composite the stack. */
  function RunPlan(libs: Libraries, plan: Plan, fetch: string -> Result<seq<Byte>, string>): Result<seq<Byte>, string>
    requires |plan.urls| >= 1
  {
    match FetchAll(plan.urls, fetch)
    case Err(e) => Err(e)
    case Ok(fetched) => libs.composite(fetched[0], CompositeInputs(fetched, plan.svg))
  }

  /** `renderGeoJSON`, with the network as the function `fetch`. */
  function RenderGeoJSON(libs: Libraries, fc: FeatureCollection, options: RenderOptions,
                         fetch: string -> Result<seq<Byte>, string>): Result<seq<Byte>, string>
  {
    RunPlan(libs, PlanRender(libs, fc, options), fetch)
  }

  // ---------------------------------------------------------------- properties of the render path

  /**
   * Styling one feature: both members end up set; a truthy own value is
   * kept and a falsy or absent one takes the option, or the default when the
   * option is absent; every other member reads as before.
   */
  lemma StyledPropertiesSpec(props: Option<Members>, fill: Option<string>, opacity: Option<real>)
    ensures var own := if props.Some? then props.value else [];
            var r := StyledProperties(props, fill, opacity);
      && (forall k :: k != "fill" && k != "opacity" ==> Get(r, k) == Get(own, k))
      && Get(r, "fill") == (if Get(own, "fill").Some? && Truthy(Get(own, "fill").value) then Get(own, "fill")
                            else Some(JString(fill.GetOr(DEFAULT_FILL))))
      && Get(r, "opacity") == (if Get(own, "opacity").Some? && Truthy(Get(own, "opacity").value) then Get(own, "opacity")
                               else Some(JNumber(opacity.GetOr(DEFAULT_OPACITY))))
  {
  }

  /** `||=` is not `??=`: a feature's own opacity of 0 is replaced. */
  lemma ZeroOpacityReplaced(props: Members, fill: Option<string>, opacity: Option<real>)
    requires Get(props, "opacity") == Some(JNumber(0.0))
    ensures Get(StyledProperties(Some(props), fill, opacity), "opacity") == Some(JNumber(opacity.GetOr(DEFAULT_OPACITY)))
  {
    StyledPropertiesSpec(Some(props), fill, opacity);
  }

  /** After decoration every feature has properties with `fill` and `opacity`; geometry, count and `bbox` are kept. */
  lemma DecoratedStyled(fc: FeatureCollection, fill: Option<string>, opacity: Option<real>)
    ensures var r := Decorated(fc, fill, opacity);
      && |r.features| == |fc.features| && r.bbox == fc.bbox
      && (Valid(fc) ==> Valid(r))
      && forall i :: 0 <= i < |r.features| ==>
           && r.features[i].geometry == fc.features[i].geometry
           && r.features[i].properties.Some?
           && Has(r.features[i].properties.value, "fill")
           && Has(r.features[i].properties.value, "opacity")
  {
    var r := Decorated(fc, fill, opacity);
    forall i | 0 <= i < |r.features|
      ensures Has(r.features[i].properties.value, "fill") && Has(r.features[i].properties.value, "opacity")
    {
      StyledPropertiesSpec(fc.features[i].properties, fill, opacity);
    }
  }

  /** Styling a styled feature again changes nothing. */
  lemma StyledPropertiesIdempotent(props: Option<Members>, fill: Option<string>, opacity: Option<real>)
    ensures StyledProperties(Some(StyledProperties(props, fill, opacity)), fill, opacity) == StyledProperties(props, fill, opacity)
  {
    var ms := if props.Some? then props.value else [];
    var f := JString(fill.GetOr(DEFAULT_FILL));
    var o := JNumber(opacity.GetOr(DEFAULT_OPACITY));
    var withFill := OrAssign(ms, "fill", f);
    var once := OrAssign(withFill, "opacity", o);
    assert Get(once, "fill") == Get(withFill, "fill");
    OrAssignSettled(once, "fill", f);
    OrAssignIdempotent(withFill, "opacity", o);
  }

  /** Decorating a decorated collection changes nothing. */
  lemma DecoratedIdempotent(fc: FeatureCollection, fill: Option<string>, opacity: Option<real>)
    ensures Decorated(Decorated(fc, fill, opacity), fill, opacity) == Decorated(fc, fill, opacity)
  {
    var once := Decorated(fc, fill, opacity);
    var twice := Decorated(once, fill, opacity);
    forall i | 0 <= i < |fc.features| ensures twice.features[i] == once.features[i] {
      StyledPropertiesIdempotent(fc.features[i].properties, fill, opacity);
    }
    assert twice.features == once.features;
  }

  /** An explicit `bbox` decides the viewport: the features play no part. */
  lemma ExplicitBBoxDecides(libs: Libraries, fc: FeatureCollection, features: seq<Feature>,
                            margin: Option<real>, marginUnit: Option<MarginUnit>)
    requires fc.bbox.Some?
    ensures NoMarginBBox(libs, fc) == libs.square(fc.bbox.value)
    ensures GetSquareBBox(libs, fc, margin, marginUnit) == GetSquareBBox(libs, fc.(features := features), margin, marginUnit)
  {
  }

  /** Without a `bbox`, the viewport is the square of the box computed over the features. */
  lemma ComputedBBoxOtherwise(libs: Libraries, fc: FeatureCollection)
    requires fc.bbox.None?
    ensures NoMarginBBox(libs, fc) == libs.square(libs.bboxOfCollection(fc))
  {
  }

  /** An absent margin is 20 and an absent unit is meters. */
  lemma MarginDefaults(libs: Libraries, fc: FeatureCollection, margin: Option<real>)
    ensures GetSquareBBox(libs, fc, None, None) == GetSquareBBox(libs, fc, Some(20.0), Some(Meters))
    ensures GetSquareBBox(libs, fc, margin, None) == GetSquareBBox(libs, fc, margin, Some(Meters))
  {
  }

  /** An explicit margin that is not positive, 0 included, leaves the square unbuffered. */
  lemma NonPositiveMarginUnbuffered(libs: Libraries, fc: FeatureCollection, m: real, marginUnit: Option<MarginUnit>)
    requires m <= 0.0
    ensures GetSquareBBox(libs, fc, Some(m), marginUnit) == NoMarginBBox(libs, fc)
  {
  }

  /** A positive margin buffers the square by that distance in that unit and squares the result. */
  lemma PositiveMarginBuffers(libs: Libraries, fc: FeatureCollection, m: real, unit: MarginUnit)
    requires m > 0.0
    ensures GetSquareBBox(libs, fc, Some(m), Some(unit))
         == libs.square(libs.bboxOfFeature(libs.buffer(libs.bboxPolygon(NoMarginBBox(libs, fc)), m, unit)))
  {
  }

  lemma AsciiWmsBBox(libs: Libraries, b: BBox)
    requires IsAscii(libs.numberToString(b.minX)) && IsAscii(libs.numberToString(b.minY))
    requires IsAscii(libs.numberToString(b.maxX)) && IsAscii(libs.numberToString(b.maxY))
    ensures IsAscii(WmsBBox(libs, b))
  {
  }

  /** Every GetMap parameter is ASCII text once the numbers are, so its query reads back. */
  lemma IGNParamsAscii(libs: Libraries, b: BBox, size: real)
    requires IsAscii(libs.numberToString(b.minX)) && IsAscii(libs.numberToString(b.minY))
    requires IsAscii(libs.numberToString(b.maxX)) && IsAscii(libs.numberToString(b.maxY))
    requires IsAscii(libs.numberToString(size))
    ensures Urls.AsciiParams(IGNParams(libs, b, size))
  {
    AsciiWmsBBox(libs, b);
  }

  /** The fixed GetMap parameters: EXCEPTIONS, FORMAT, SERVICE, VERSION, REQUEST, STYLES and CRS. */
  lemma {:induction false} IGNFixedParams(libs: Libraries, b: BBox, size: real)
    ensures var ps := IGNParams(libs, b, size);
      && Urls.Lookup(ps, "EXCEPTIONS") == Some("text/xml")
      && Urls.Lookup(ps, "FORMAT") == Some("image/png")
      && Urls.Lookup(ps, "SERVICE") == Some("WMS")
      && Urls.Lookup(ps, "VERSION") == Some("1.3.0")
      && Urls.Lookup(ps, "REQUEST") == Some("GetMap")
      && Urls.Lookup(ps, "STYLES") == Some("")
      && Urls.Lookup(ps, "CRS") == Some("EPSG:4326")
  {
    var ps := IGNParams(libs, b, size);
    Urls.LookupAt(ps, 0); Urls.LookupAt(ps, 1); Urls.LookupAt(ps, 2); Urls.LookupAt(ps, 3);
    Urls.LookupAt(ps, 4); Urls.LookupAt(ps, 5); Urls.LookupAt(ps, 6);
  }

  /** The box and size parameters: BBOX is the WMS 1.3.0 box text, WIDTH and HEIGHT are both the size. */
  lemma {:induction false} IGNBoxAndSize(libs: Libraries, b: BBox, size: real)
    ensures var ps := IGNParams(libs, b, size);
      && Urls.Lookup(ps, "BBOX") == Some(WmsBBox(libs, b))
      && Urls.Lookup(ps, "WIDTH") == Some(libs.numberToString(size))
      && Urls.Lookup(ps, "HEIGHT") == Some(libs.numberToString(size))
  {
    var ps := IGNParams(libs, b, size);
    Urls.LookupAt(ps, 7); Urls.LookupAt(ps, 8); Urls.LookupAt(ps, 9);
  }

  /** The BBOX value splits into the four coordinates latitude first: `minY, minX, maxY, maxX`. */
  lemma WmsBBoxLatitudeFirst(libs: Libraries, b: BBox)
    requires ',' !in libs.numberToString(b.minX) && ',' !in libs.numberToString(b.minY)
    requires ',' !in libs.numberToString(b.maxX) && ',' !in libs.numberToString(b.maxY)
    ensures Split(WmsBBox(libs, b), ',')
         == [libs.numberToString(b.minY), libs.numberToString(b.minX), libs.numberToString(b.maxY), libs.numberToString(b.maxX)]
  {
    var xs := [libs.numberToString(b.minY), libs.numberToString(b.minX), libs.numberToString(b.maxY), libs.numberToString(b.maxX)];
    assert Join(xs[3..], ',') == xs[3];
    assert Join(xs[2..], ',') == xs[2] + [','] + xs[3];
    assert Join(xs[1..], ',') == xs[1] + [','] + Join(xs[2..], ',');
    assert WmsBBox(libs, b) == Join(xs, ',');
    SplitJoin(xs, ',');
  }

  /** The SVG wrapper is undone by reading it back with the same size text. */
  lemma UnwrapSvgDocument(sizeText: string, body: string)
    ensures UnwrapSvg(SvgDocument(sizeText, body), sizeText) == Some(body)
  {
    var open := SvgOpenTag(sizeText);
    var doc := SvgDocument(sizeText, body);
    assert doc == open + body + SVG_CLOSE_TAG;
    assert doc[..|open|] == open;
    assert doc[|doc| - |SVG_CLOSE_TAG|..] == SVG_CLOSE_TAG;
    assert doc[|open|..|doc| - |SVG_CLOSE_TAG|] == body;
  }

  /**
   * The overlay lines up with the base layers: the converter maps the same
   * square box onto a size×size viewport, the SVG document declares that
   * size and wraps the converter's elements, and each base-layer request
   * asks for that box at that size, one per WMS source in order.
   */
  lemma PlanAligned(libs: Libraries, fc: FeatureCollection, options: RenderOptions)
    ensures var plan := PlanRender(libs, fc, options);
      && plan.bbox == GetSquareBBox(libs, fc, options.margin, options.marginUnit)
      && plan.size == ResolveSize(options.size)
      && plan.converter.left == plan.bbox.minX && plan.converter.bottom == plan.bbox.minY
      && plan.converter.right == plan.bbox.maxX && plan.converter.top == plan.bbox.maxY
      && plan.converter.width == plan.size && plan.converter.height == plan.size
      && UnwrapSvg(plan.svg, libs.numberToString(plan.size))
         == Some(Join(libs.convert(plan.converter, Decorated(fc, options.fill, options.opacity)), '\n'))
      && |plan.urls| == 2
      && plan.urls[0] == IGNURL(libs, URLS[0], plan.bbox, plan.size)
      && plan.urls[1] == IGNURL(libs, URLS[1], plan.bbox, plan.size)
  {
    var plan := PlanRender(libs, fc, options);
    UnwrapSvgDocument(libs.numberToString(plan.size),
                      Join(libs.convert(plan.converter, Decorated(fc, options.fill, options.opacity)), '\n'));
  }

  /**
   * `renderGeoJSON` end to end: the first base-layer request that fails, in
   * `urls` order, decides the error; otherwise the orthophoto is the
   * background, and the boundaries and then the overlay go on top of it.
   */
  lemma RenderGeoJSONOutcome(libs: Libraries, fc: FeatureCollection, options: RenderOptions,
                             fetch: string -> Result<seq<Byte>, string>)
    ensures var b := GetSquareBBox(libs, fc, options.margin, options.marginUnit);
            var size := ResolveSize(options.size);
            var r := RenderGeoJSON(libs, fc, options, fetch);
      && (fetch(IGNURL(libs, URLS[0], b, size)).Err? ==> r == fetch(IGNURL(libs, URLS[0], b, size)))
      && (fetch(IGNURL(libs, URLS[0], b, size)).Ok? && fetch(IGNURL(libs, URLS[1], b, size)).Err? ==>
            r == fetch(IGNURL(libs, URLS[1], b, size)))
      && (fetch(IGNURL(libs, URLS[0], b, size)).Ok? && fetch(IGNURL(libs, URLS[1], b, size)).Ok? ==>
            r == libs.composite(fetch(IGNURL(libs, URLS[0], b, size)).value,
                                [Raster(fetch(IGNURL(libs, URLS[1], b, size)).value),
                                 Svg(ConvertGeoJSONtoSVG(libs, Decorated(fc, options.fill, options.opacity), b, size))]))
  {
    var plan := PlanRender(libs, fc, options);
    RunPlanOutcome(libs, plan, fetch);
  }

  /** `Promise.all` over two requests: the first failure in order, or both bodies. */
  lemma FetchTwo(urls: seq<string>, fetch: string -> Result<seq<Byte>, string>)
    requires |urls| == 2
    ensures FetchAll(urls, fetch)
         == if fetch(urls[0]).Err? then Err(fetch(urls[0]).error)
            else if fetch(urls[1]).Err? then Err(fetch(urls[1]).error)
            else Ok([fetch(urls[0]).value, fetch(urls[1]).value])
  {
    var rest := urls[1..];
    assert rest[0] == urls[1] && rest[1..] == [];
    assert FetchAll(rest[1..], fetch) == Ok([]);
    if fetch(urls[1]).Ok? {
      assert FetchAll(rest, fetch) == Ok([fetch(urls[1]).value] + []);
      assert [fetch(urls[1]).value] + [] == [fetch(urls[1]).value];
      if fetch(urls[0]).Ok? {
        assert [fetch(urls[0]).value] + [fetch(urls[1]).value] == [fetch(urls[0]).value, fetch(urls[1]).value];
      }
    } else {
      assert FetchAll(rest, fetch) == Err(fetch(urls[1]).error);
    }
  }

  /**
   * Running a plan with two base layers: the first request that fails, in
   * order, decides the error; when both succeed, the first image is the
   * background and the stack over it is the second image, then the SVG.
   */
  lemma RunPlanOutcome(libs: Libraries, plan: Plan, fetch: string -> Result<seq<Byte>, string>)
    requires |plan.urls| == 2
    ensures var r := RunPlan(libs, plan, fetch);
            var first := fetch(plan.urls[0]);
            var second := fetch(plan.urls[1]);
      && (first.Err? ==> r == Err(first.error))
      && (first.Ok? && second.Err? ==> r == Err(second.error))
      && (first.Ok? && second.Ok? ==> r == libs.composite(first.value, [Raster(second.value), Svg(plan.svg)]))
  {
    FetchTwo(plan.urls, fetch);
    var all := FetchAll(plan.urls, fetch);
    if all.Ok? {
      assert CompositeInputs(all.value, plan.svg) == [Raster(all.value[1]), Svg(plan.svg)];
    }
  }
}
