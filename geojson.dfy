/**
 * The GeoJSON request schema: a restriction of the object shapes of RFC 7946
 * (section 3.1 geometry types, section 3.2 Feature, section 3.3
 * FeatureCollection, section 5 bounding box). The schema is stated as
 * predicates over parsed JSON, as the validator sees the request body; the
 * typed datatypes below are what an accepted value means, and ParseX /
 * EncodeX connect the two.
 */
module GeoJson {
  import opened Wrappers
  import opened JsValues

  // ---------------------------------------------------------------- typed shapes

  /** A Coordinate: two numbers, or three. */
  datatype Position = Position(x: real, y: real, z: Option<real>)

  /** A bounding box of exactly four numbers (RFC 7946 section 5 also allows six). */
  datatype BBox = BBox(minX: real, minY: real, maxX: real, maxY: real)

  /** The six simple geometries, each with its coordinate nesting. */
  datatype Geometry =
    | Point(position: Position)
    | MultiPoint(points: seq<Position>)
    | LineString(line: seq<Position>)
    | MultiLineString(lines: seq<seq<Position>>)
    | Polygon(rings: seq<seq<Position>>)
    | MultiPolygon(polygons: seq<seq<seq<Position>>>)

  /** What a feature may carry: a simple geometry, or a collection of simple geometries only. */
  datatype FeatureGeometry = Simple(geometry: Geometry) | GeometryCollection(geometries: seq<Geometry>)

  /** `properties` is None for `null`, as the GeoJSON type of the render code allows. */
  datatype Feature = Feature(geometry: FeatureGeometry, properties: Option<Members>)

  datatype FeatureCollection = FeatureCollection(features: seq<Feature>, bbox: Option<BBox>)

  /** What the schema promises beyond the shapes: at least one feature, each with a properties record. */
  predicate Valid(fc: FeatureCollection) {
    |fc.features| >= 1 && forall i :: 0 <= i < |fc.features| ==> fc.features[i].properties.Some?
  }

  // ---------------------------------------------------------------- the schema over JSON

  predicate AllNumbers(vs: seq<Json>) {
    forall i :: 0 <= i < |vs| ==> vs[i].JNumber?
  }

  predicate IsCoordinate(v: Json) {
    v.JArray? && (|v.items| == 2 || |v.items| == 3) && AllNumbers(v.items)
  }

  predicate IsBBox(v: Json) {
    v.JArray? && |v.items| == 4 && AllNumbers(v.items)
  }

  /** Arrays nested `depth` deep around Coordinates. */
  predicate IsNested(v: Json, depth: nat)
    decreases depth
  {
    if depth == 0 then IsCoordinate(v)
    else v.JArray? && forall i :: 0 <= i < |v.items| ==> IsNested(v.items[i], depth - 1)
  }

  /** An object whose `type` member is the string `t`. */
  predicate HasType(v: Json, t: string) {
    v.JObject? && Get(v.members, "type") == Some(JString(t))
  }

  /** `{type: t, coordinates: <depth-nested coordinates>}`. */
  predicate IsShape(v: Json, t: string, depth: nat) {
    HasType(v, t) && Get(v.members, "coordinates").Some? && IsNested(Get(v.members, "coordinates").value, depth)
  }

  predicate IsGeometry(v: Json) {
    || IsShape(v, "Point", 0)
    || IsShape(v, "MultiPoint", 1)
    || IsShape(v, "LineString", 1)
    || IsShape(v, "MultiLineString", 2)
    || IsShape(v, "Polygon", 2)
    || IsShape(v, "MultiPolygon", 3)
  }

  predicate IsGeometryCollection(v: Json) {
    && HasType(v, "GeometryCollection")
    && var g := Get(v.members, "geometries");
    && g.Some? && g.value.JArray?
    && forall i :: 0 <= i < |g.value.items| ==> IsGeometry(g.value.items[i])
  }

  /** `t.Record(t.String(), t.Unknown())`: any object; `null` and arrays are not records. */
  predicate IsRecord(v: Json) {
    v.JObject?
  }

  predicate IsFeature(v: Json) {
    && HasType(v, "Feature")
    && var g := Get(v.members, "geometry");
    && g.Some? && (IsGeometry(g.value) || IsGeometryCollection(g.value))
    && var p := Get(v.members, "properties");
    && p.Some? && IsRecord(p.value)
  }

  predicate IsFeatureCollection(v: Json) {
    && HasType(v, "FeatureCollection")
    && var f := Get(v.members, "features");
    && f.Some? && f.value.JArray? && |f.value.items| >= 1
    && (forall i :: 0 <= i < |f.value.items| ==> IsFeature(f.value.items[i]))
    && var b := Get(v.members, "bbox");
    && (b.None? || IsBBox(b.value))
  }

  // ---------------------------------------------------------------- parsing

  /** Parses every element with `f`, failing when any element fails. */
  function ParseArray<T>(vs: seq<Json>, f: Json -> Option<T>): (r: Option<seq<T>>)
    ensures r.Some? <==> forall i :: 0 <= i < |vs| ==> f(vs[i]).Some?
    ensures r.Some? ==> |r.value| == |vs| && forall i :: 0 <= i < |vs| ==> f(vs[i]) == Some(r.value[i])
  {
    if vs == [] then Some([])
    else
      var head := f(vs[0]);
      var tail := ParseArray(vs[1..], f);
      if head.None? || tail.None? then
        assert head.None? ==> f(vs[0]).None?;
        assert tail.None? ==> exists i :: 1 <= i < |vs| && f(vs[i]).None? by {
          if tail.None? {
            var j :| 0 <= j < |vs[1..]| && f(vs[1..][j]).None?;
            assert vs[1..][j] == vs[j + 1];
          }
        }
        None
      else
        var r := [head.value] + tail.value;
        assert forall i :: 1 <= i < |vs| ==> vs[i] == vs[1..][i - 1] && r[i] == tail.value[i - 1];
        Some(r)
  }

  function ParsePosition(v: Json): (r: Option<Position>)
    ensures r.Some? <==> IsNested(v, 0)
  {
    if !IsCoordinate(v) then None
    else if |v.items| == 2 then Some(Position(v.items[0].n, v.items[1].n, None))
    else Some(Position(v.items[0].n, v.items[1].n, Some(v.items[2].n)))
  }

  function ParseBBox(v: Json): (r: Option<BBox>)
    ensures r.Some? <==> IsBBox(v)
  {
    if IsBBox(v) then Some(BBox(v.items[0].n, v.items[1].n, v.items[2].n, v.items[3].n)) else None
  }

  function ParseLine(v: Json): (r: Option<seq<Position>>)
    ensures r.Some? <==> IsNested(v, 1)
  {
    if v.JArray? then ParseArray(v.items, ParsePosition) else None
  }

  function ParseLines(v: Json): (r: Option<seq<seq<Position>>>)
    ensures r.Some? <==> IsNested(v, 2)
  {
    if v.JArray? then ParseArray(v.items, ParseLine) else None
  }

  function ParsePolygons(v: Json): (r: Option<seq<seq<seq<Position>>>>)
    ensures r.Some? <==> IsNested(v, 3)
  {
    if v.JArray? then ParseArray(v.items, ParseLines) else None
  }

  /** Applies `make` to a parsed value. */
  function Lift<A, B>(o: Option<A>, make: A -> B): (r: Option<B>)
    ensures r.Some? <==> o.Some?
    ensures o.Some? ==> r.value == make(o.value)
  {
    match o
    case Some(a) => Some(make(a))
    case None => None
  }

  function ParseGeometry(v: Json): (r: Option<Geometry>)
    ensures r.Some? <==> IsGeometry(v)
  {
    var c := if v.JObject? then Get(v.members, "coordinates") else None;
    if c.None? then None
    else if HasType(v, "Point") then Lift(ParsePosition(c.value), p => Point(p))
    else if HasType(v, "MultiPoint") then Lift(ParseLine(c.value), ps => MultiPoint(ps))
    else if HasType(v, "LineString") then Lift(ParseLine(c.value), ps => LineString(ps))
    else if HasType(v, "MultiLineString") then Lift(ParseLines(c.value), ls => MultiLineString(ls))
    else if HasType(v, "Polygon") then Lift(ParseLines(c.value), ls => Polygon(ls))
    else if HasType(v, "MultiPolygon") then Lift(ParsePolygons(c.value), ps => MultiPolygon(ps))
    else None
  }

  function ParseFeatureGeometry(v: Json): (r: Option<FeatureGeometry>)
    ensures r.Some? <==> IsGeometry(v) || IsGeometryCollection(v)
  {
    if HasType(v, "GeometryCollection") then
      var g := Get(v.members, "geometries");
      if g.Some? && g.value.JArray? then Lift(ParseArray(g.value.items, ParseGeometry), gs => GeometryCollection(gs))
      else None
    else Lift(ParseGeometry(v), g => Simple(g))
  }

  function ParseFeature(v: Json): (r: Option<Feature>)
    ensures r.Some? <==> IsFeature(v)
    ensures r.Some? ==> r.value.properties.Some?
  {
    if !HasType(v, "Feature") then None
    else
      var g := Get(v.members, "geometry");
      var p := Get(v.members, "properties");
      if g.None? || p.None? || !p.value.JObject? then None
      else Lift(ParseFeatureGeometry(g.value), fg => Feature(fg, Some(p.value.members)))
  }

  /** The typed meaning of a request's `featureCollection`, when the schema accepts it. */
  function ParseFeatureCollection(v: Json): (r: Option<FeatureCollection>)
    ensures r.Some? <==> IsFeatureCollection(v)
    ensures r.Some? ==> Valid(r.value)
  {
    if !HasType(v, "FeatureCollection") then None
    else
      var f := Get(v.members, "features");
      var b := Get(v.members, "bbox");
      if f.None? || !f.value.JArray? || |f.value.items| == 0 then None
      else
        var features := ParseArray(f.value.items, ParseFeature);
        var bbox := ParseOptionalBBox(b);
        if features.None? || bbox.None? then None
        else
          assert forall i :: 0 <= i < |features.value| ==> ParseFeature(f.value.items[i]) == Some(features.value[i]);
          Some(FeatureCollection(features.value, bbox.value))
  }

  /** `t.Optional(BBox)`: an absent member is fine, a present one must be a BBox. */
  function ParseOptionalBBox(b: Option<Json>): (r: Option<Option<BBox>>)
    ensures r.Some? <==> b.None? || IsBBox(b.value)
  {
    match b
    case None => Some(None)
    case Some(j) => Lift(ParseBBox(j), bb => Some(bb))
  }

  // ---------------------------------------------------------------- encoding

  function MapSeq<T>(xs: seq<T>, enc: T -> Json): (r: seq<Json>)
    ensures |r| == |xs|
  {
    if xs == [] then [] else [enc(xs[0])] + MapSeq(xs[1..], enc)
  }

  /** Parsing the encodings of elements that each parse back gives the elements back. */
  lemma {:induction false} ParseArrayOfEncoded<T>(xs: seq<T>, enc: T -> Json, f: Json -> Option<T>)
    requires forall i :: 0 <= i < |xs| ==> f(enc(xs[i])) == Some(xs[i])
    ensures ParseArray(MapSeq(xs, enc), f) == Some(xs)
  {
    if xs != [] {
      assert forall i :: 0 <= i < |xs[1..]| ==> xs[1..][i] == xs[i + 1];
      ParseArrayOfEncoded(xs[1..], enc, f);
      assert MapSeq(xs, enc)[1..] == MapSeq(xs[1..], enc);
      assert xs == [xs[0]] + xs[1..];
    }
  }

  function EncodePosition(p: Position): Json {
    JArray([JNumber(p.x), JNumber(p.y)] + if p.z.Some? then [JNumber(p.z.value)] else [])
  }

  function EncodeBBox(b: BBox): Json {
    JArray([JNumber(b.minX), JNumber(b.minY), JNumber(b.maxX), JNumber(b.maxY)])
  }

  function EncodeLine(ps: seq<Position>): Json { JArray(MapSeq(ps, EncodePosition)) }
  function EncodeLines(ls: seq<seq<Position>>): Json { JArray(MapSeq(ls, EncodeLine)) }
  function EncodePolygons(ps: seq<seq<seq<Position>>>): Json { JArray(MapSeq(ps, EncodeLines)) }

  function Shape(t: string, coordinates: Json): Json {
    JObject([("type", JString(t)), ("coordinates", coordinates)])
  }

  function EncodeGeometry(g: Geometry): Json {
    match g
    case Point(p) => Shape("Point", EncodePosition(p))
    case MultiPoint(ps) => Shape("MultiPoint", EncodeLine(ps))
    case LineString(ps) => Shape("LineString", EncodeLine(ps))
    case MultiLineString(ls) => Shape("MultiLineString", EncodeLines(ls))
    case Polygon(ls) => Shape("Polygon", EncodeLines(ls))
    case MultiPolygon(ps) => Shape("MultiPolygon", EncodePolygons(ps))
  }

  function EncodeFeatureGeometry(g: FeatureGeometry): Json {
    match g
    case Simple(s) => EncodeGeometry(s)
    case GeometryCollection(gs) => JObject([("type", JString("GeometryCollection")), ("geometries", JArray(MapSeq(gs, EncodeGeometry)))])
  }

  function EncodeFeature(f: Feature): Json {
    JObject([("type", JString("Feature")), ("geometry", EncodeFeatureGeometry(f.geometry)),
             ("properties", if f.properties.Some? then JObject(f.properties.value) else JNull)])
  }

  /** The JSON text of a feature collection, as JSON.parse would give it back. */
  function EncodeFeatureCollection(fc: FeatureCollection): Json {
    JObject([("type", JString("FeatureCollection")), ("features", JArray(MapSeq(fc.features, EncodeFeature)))]
            + if fc.bbox.Some? then [("bbox", EncodeBBox(fc.bbox.value))] else [])
  }

  // ---------------------------------------------------------------- properties of the schema

  lemma ParseEncodePosition(p: Position)
    ensures ParsePosition(EncodePosition(p)) == Some(p)
  {
    var v := EncodePosition(p);
    if p.z.Some? {
      assert v.items == [JNumber(p.x), JNumber(p.y), JNumber(p.z.value)];
    } else {
      assert v.items == [JNumber(p.x), JNumber(p.y)];
    }
  }

  lemma ParseEncodeLine(ps: seq<Position>)
    ensures ParseLine(EncodeLine(ps)) == Some(ps)
  {
    forall i | 0 <= i < |ps| ensures ParsePosition(EncodePosition(ps[i])) == Some(ps[i]) {
      ParseEncodePosition(ps[i]);
    }
    ParseArrayOfEncoded(ps, EncodePosition, ParsePosition);
  }

  lemma ParseEncodeLines(ls: seq<seq<Position>>)
    ensures ParseLines(EncodeLines(ls)) == Some(ls)
  {
    forall i | 0 <= i < |ls| ensures ParseLine(EncodeLine(ls[i])) == Some(ls[i]) {
      ParseEncodeLine(ls[i]);
    }
    ParseArrayOfEncoded(ls, EncodeLine, ParseLine);
  }

  /** A shape object reads back its `type` and its `coordinates`. */
  lemma ShapeFields(t: string, c: Json)
    ensures Get(Shape(t, c).members, "coordinates") == Some(c)
    ensures forall t' :: HasType(Shape(t, c), t') <==> t' == t
  {
    GetAt(Shape(t, c).members, 1, "coordinates");
  }

  /** The shapes of one to three levels of nesting, each past the `type` tests before its own. */
  lemma ParseEncodeMultiPoint(ps: seq<Position>)
    ensures ParseGeometry(EncodeGeometry(MultiPoint(ps))) == Some(MultiPoint(ps))
    ensures ParseGeometry(EncodeGeometry(LineString(ps))) == Some(LineString(ps))
  {
    ShapeFields("MultiPoint", EncodeLine(ps));
    ShapeFields("LineString", EncodeLine(ps));
    ParseEncodeLine(ps);
  }

  lemma ParseEncodeMultiLineString(ls: seq<seq<Position>>)
    ensures ParseGeometry(EncodeGeometry(MultiLineString(ls))) == Some(MultiLineString(ls))
    ensures ParseGeometry(EncodeGeometry(Polygon(ls))) == Some(Polygon(ls))
  {
    ShapeFields("MultiLineString", EncodeLines(ls));
    ShapeFields("Polygon", EncodeLines(ls));
    ParseEncodeLines(ls);
  }

  lemma ParseEncodeMultiPolygon(ps: seq<seq<seq<Position>>>)
    ensures ParseGeometry(EncodeGeometry(MultiPolygon(ps))) == Some(MultiPolygon(ps))
  {
    ShapeFields("MultiPolygon", EncodePolygons(ps));
    forall i | 0 <= i < |ps| ensures ParseLines(EncodeLines(ps[i])) == Some(ps[i]) {
      ParseEncodeLines(ps[i]);
    }
    ParseArrayOfEncoded(ps, EncodeLines, ParseLines);
  }

  lemma ParseEncodeGeometry(g: Geometry)
    ensures ParseGeometry(EncodeGeometry(g)) == Some(g)
  {
    match g
    case Point(p) =>
      ShapeFields("Point", EncodePosition(p));
      ParseEncodePosition(p);
    case MultiPoint(ps) => ParseEncodeMultiPoint(ps);
    case LineString(ps) => ParseEncodeMultiPoint(ps);
    case MultiLineString(ls) => ParseEncodeMultiLineString(ls);
    case Polygon(ls) => ParseEncodeMultiLineString(ls);
    case MultiPolygon(ps) => ParseEncodeMultiPolygon(ps);
  }

  lemma ParseEncodeFeatureGeometry(g: FeatureGeometry)
    ensures ParseFeatureGeometry(EncodeFeatureGeometry(g)) == Some(g)
  {
    match g
    case Simple(s) =>
      ParseEncodeGeometry(s);
      assert !HasType(EncodeGeometry(s), "GeometryCollection");
    case GeometryCollection(gs) =>
      forall i | 0 <= i < |gs| ensures ParseGeometry(EncodeGeometry(gs[i])) == Some(gs[i]) {
        ParseEncodeGeometry(gs[i]);
      }
      ParseArrayOfEncoded(gs, EncodeGeometry, ParseGeometry);
      var v := EncodeFeatureGeometry(g);
      assert HasType(v, "GeometryCollection");
      assert Get(v.members, "geometries") == Some(JArray(MapSeq(gs, EncodeGeometry)));
  }

  lemma ParseEncodeFeature(f: Feature)
    requires f.properties.Some?
    ensures ParseFeature(EncodeFeature(f)) == Some(f)
  {
    ParseEncodeFeatureGeometry(f.geometry);
    var v := EncodeFeature(f);
    GetAt(v.members, 0, "type");
    GetAt(v.members, 1, "geometry");
    GetAt(v.members, 2, "properties");
  }

  lemma EncodedCollectionMembers(fc: FeatureCollection)
    ensures var v := EncodeFeatureCollection(fc);
      && HasType(v, "FeatureCollection")
      && Get(v.members, "features") == Some(JArray(MapSeq(fc.features, EncodeFeature)))
      && Get(v.members, "bbox") == if fc.bbox.Some? then Some(EncodeBBox(fc.bbox.value)) else None
  {
    var ms := EncodeFeatureCollection(fc).members;
    GetAt(ms, 0, "type");
    GetAt(ms, 1, "features");
    if fc.bbox.Some? {
      GetAt(ms, 2, "bbox");
    } else {
      assert |ms| == 2;
      assert !Has(ms, "bbox");
    }
  }

  lemma ParseEncodeFeatures(fs: seq<Feature>)
    requires forall i :: 0 <= i < |fs| ==> fs[i].properties.Some?
    ensures ParseArray(MapSeq(fs, EncodeFeature), ParseFeature) == Some(fs)
  {
    forall i | 0 <= i < |fs| ensures ParseFeature(EncodeFeature(fs[i])) == Some(fs[i]) {
      ParseEncodeFeature(fs[i]);
    }
    ParseArrayOfEncoded(fs, EncodeFeature, ParseFeature);
  }

  /** Every valid feature collection is accepted by the schema and parses back to itself. */
  lemma ParseEncodeFeatureCollection(fc: FeatureCollection)
    requires Valid(fc)
    ensures IsFeatureCollection(EncodeFeatureCollection(fc))
    ensures ParseFeatureCollection(EncodeFeatureCollection(fc)) == Some(fc)
  {
    var v := EncodeFeatureCollection(fc);
    ParseEncodeFeatures(fc.features);
    EncodedCollectionMembers(fc);
    ParseEncodedBBox(fc.bbox);
    ParseCollectionOf(v, MapSeq(fc.features, EncodeFeature), fc.features, fc.bbox);
  }

  lemma ParseEncodedBBox(bbox: Option<BBox>)
    ensures ParseOptionalBBox(if bbox.Some? then Some(EncodeBBox(bbox.value)) else None) == Some(bbox)
  {
  }

  lemma ParseCollectionOf(v: Json, items: seq<Json>, fs: seq<Feature>, bbox: Option<BBox>)
    requires HasType(v, "FeatureCollection")
    requires Get(v.members, "features") == Some(JArray(items)) && |items| >= 1
    requires ParseArray(items, ParseFeature) == Some(fs)
    requires ParseOptionalBBox(Get(v.members, "bbox")) == Some(bbox)
    ensures ParseFeatureCollection(v) == Some(FeatureCollection(fs, bbox))
  {
  }

  /** A GeometryCollection is not one of the six simple geometries, so none can be nested in another. */
  lemma NestedCollectionRejected(v: Json, i: nat)
    requires HasType(v, "GeometryCollection")
    requires Get(v.members, "geometries").Some? && Get(v.members, "geometries").value.JArray?
    requires i < |Get(v.members, "geometries").value.items|
    requires IsGeometryCollection(Get(v.members, "geometries").value.items[i])
    ensures !IsGeometryCollection(v)
  {
    var w := Get(v.members, "geometries").value.items[i];
    assert !IsGeometry(w);
  }

  /** A non-empty array of coordinates is not a coordinate: a Point does not take a MultiPoint's coordinates. */
  lemma CoordinateListIsNotCoordinate(v: Json)
    requires IsNested(v, 1) && |v.items| >= 1
    ensures !IsNested(v, 0)
  {
    assert IsCoordinate(v.items[0]);
  }

  /** A six-number bounding box, allowed by RFC 7946, is refused. */
  lemma SixNumberBBoxRejected(v: Json)
    requires v.JArray? && |v.items| == 6
    ensures !IsBBox(v) && ParseBBox(v).None?
  {
  }

  /** A feature whose properties are `null` is refused. */
  lemma NullPropertiesRejected(v: Json)
    requires v.JObject? && Get(v.members, "properties") == Some(JNull)
    ensures !IsFeature(v)
  {
  }
}
