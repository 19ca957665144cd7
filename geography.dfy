/** The SingleStore geography column (drizzle-orm/src/singlestore-core/columns/geography.ts):
    classification of a JavaScript value as a point, line string or polygon,
    its encoding as an SQL fragment with the coordinates bound as parameters,
    and the decoding of the driver's well-known-text form. */
module Geography {
  import opened Js
  import opened JsStrings
  import opened Fragments

  /** `getSQLType()`: the column is stored as text. */
  const SqlType: string := "text"

  // ---------------------------------------------------------------------
  // Classification
  // ---------------------------------------------------------------------

  /** `_isPoint`: length 2 and a number first. A point is never also a line
      string or a polygon: its first element is a number, not an array. */
  predicate IsPoint(v: JsValue)
    ensures IsPoint(v) ==> !IsLineString(v) && !IsPolygon(v)
  {
    v.Arr? && |v.items| == 2 && v.items[0].Num?
  }

  /** `_isLineString`: `value[0][0]` is a number; an index that throws counts
      as false. So a line string is an array whose first element is an array
      starting with a number, and it is never also a polygon. */
  predicate IsLineString(v: JsValue)
    ensures IsLineString(v) <==>
      v.Arr? && |v.items| > 0 && v.items[0].Arr? && |v.items[0].items| > 0 && v.items[0].items[0].Num?
    ensures IsLineString(v) ==> !IsPolygon(v)
  {
    var first := Index(v, 0);
    first.Ok? && var x := Index(first.value, 0); x.Ok? && x.value.Num?
  }

  /** `_isPolygon`: `value[0][0][0]` is a number; an index that throws counts
      as false. So a polygon is one array level deeper than a line string. */
  predicate IsPolygon(v: JsValue)
    ensures IsPolygon(v) <==>
      v.Arr? && |v.items| > 0 && v.items[0].Arr? && |v.items[0].items| > 0
      && v.items[0].items[0].Arr? && |v.items[0].items[0].items| > 0 && v.items[0].items[0].items[0].Num?
  {
    var first := Index(v, 0);
    first.Ok? && var second := Index(first.value, 0);
    second.Ok? && var x := Index(second.value, 0); x.Ok? && x.value.Num?
  }

  // ---------------------------------------------------------------------
  // Encoding
  // ---------------------------------------------------------------------

  /** A value interpolated into the `sql` template: `undefined` leaves no chunk. */
  function Interpolate(v: JsValue): Part<JsValue> {
    if v.Undefined? then Absent else Value(v)
  }

  /** sql`${p[0]} ${p[1]}` for one point of a line string or ring. */
  function PointFragment(p: JsValue): (r: Result<Fragment<JsValue>>)
    ensures r.Err? <==> IsNullish(p)
  {
    var lng :- Index(p, 0);
    var lat := Index(p, 1).value;  // cannot throw once p[0] did not
    Ok(Template(["", " ", ""], [Interpolate(lng), Interpolate(lat)]))
  }

  /** sql`(${sql.join(points, sql.raw(', '))})` for one ring of a polygon;
      `ring.map` throws unless the ring is an array: reading `map` of a
      nullish ring, or calling the missing `map` of any other value. */
  function RingFragment(ring: JsValue): (r: Result<Fragment<JsValue>>)
    ensures r.Err? <==> !ring.Arr? || exists k :: 0 <= k < |ring.items| && IsNullish(ring.items[k])
  {
    if IsNullish(ring) then Err(ReadError(ring, "map"))
    else if !ring.Arr? then Err(TypeError("ring.map is not a function"))
    else
      var points :- MapOrFail(ring.items, PointFragment);
      Ok(Template(["(", ")"], [Sub(JoinFragments(points, Raw(", ")))]))
  }

  /** `mapToDriverValue`: the classification tests in order, point first. */
  function MapToDriverValue(v: JsValue): (r: Result<Fragment<JsValue>>)
    ensures r == Err(DrizzleError("value is not Array")) <==>
      !IsNullish(v) && !IsPoint(v) && !IsLineString(v) && !IsPolygon(v)
    ensures r.Err? && r.error.TypeError? ==>
      IsNullish(v)
      || (IsLineString(v) && exists k :: 0 <= k < |v.items| && IsNullish(v.items[k]))
      || (IsPolygon(v) && exists k :: 0 <= k < |v.items| && RingFragment(v.items[k]).Err?)
  {
    if IsNullish(v) then Err(ReadError(v, "length"))
    else if IsPoint(v) then
      Ok(Template(["\"POINT(", " ", ")\""], [Interpolate(v.items[0]), Interpolate(v.items[1])]))
    else if IsLineString(v) then
      var points :- MapOrFail(v.items, PointFragment);
      Ok(Template(["\"LINESTRING(", ")\""], [Sub(JoinFragments(points, Raw(", ")))]))
    else if IsPolygon(v) then
      var rings :- MapOrFail(v.items, RingFragment);
      Ok(Template(["\"POLYGON(", ")\""], [Sub(JoinFragments(rings, Raw(", ")))]))
    else Err(DrizzleError("value is not Array"))
  }

  // ---------------------------------------------------------------------
  // Decoding
  // ---------------------------------------------------------------------

  /** The number JavaScript's `Number(text)` yields, known here only by the
      text it was read from. */
  datatype Number = NumberOf(text: string)

  /** What `mapFromDriverValue` returns for each tag. */
  datatype Decoded =
    | DecodedPoint(coords: seq<Number>)
    | DecodedLineString(points: seq<seq<Number>>)
    | DecodedPolygon(rings: seq<seq<seq<Number>>>)

  /** `_pointToGeographyPoint`: `value.split(' ').map(Number)`, one number
      per space-separated token. */
  function ParsePoint(s: string): (p: seq<Number>)
    ensures |p| == Occurrences(s, " ") + 1
  {
    var tokens := Split(s, " ");
    SplitCount(s, " ");
    seq(|tokens|, k requires 0 <= k < |tokens| => NumberOf(tokens[k]))
  }

  /** `_linestringToGeographyLineString`: split on ', ' and parse each pair,
      one point per segment. */
  function ParseLineString(s: string): (ps: seq<seq<Number>>)
    ensures |ps| == Occurrences(s, ", ") + 1
  {
    var pairs := Split(s, ", ");
    SplitCount(s, ", ");
    seq(|pairs|, k requires 0 <= k < |pairs| => ParsePoint(pairs[k]))
  }

  /** `_polygonToGeographyPolygon`: drop the first and last characters, split
      on '), (' and parse each ring as a line string, one ring per segment. */
  function ParsePolygon(s: string): (rs: seq<seq<seq<Number>>>)
    ensures |rs| == Occurrences(Slice(s, 1, -1), "), (") + 1
  {
    var rings := Split(Slice(s, 1, -1), "), (");
    SplitCount(Slice(s, 1, -1), "), (");
    seq(|rings|, k requires 0 <= k < |rings| => ParseLineString(rings[k]))
  }

  /** The text before the first '(' (`value.slice(0, value.indexOf('('))`).
      It never contains '('; with no '(' in the value, `indexOf` gives -1 and
      the tag is the value without its last character. */
  function TypeTag(value: string): (tag: string)
    ensures '(' !in tag
    ensures '(' in value ==> |tag| < |value| && value[..|tag| + 1] == tag + "("
    ensures '(' !in value ==> tag == if value == "" then "" else value[..|value| - 1]
  {
    IndexOfChar(value, '(');
    Slice(value, 0, IndexOf(value, "("))
  }

  /** The text after the first '(' without the last character
      (`value.slice(value.indexOf('(') + 1, -1)`): the tag, '(', the inner
      text and one last character make up the value, unless that '(' is the
      last character; with no '(' the inner text is the tag. */
  function Inner(value: string): (inner: string)
    ensures '(' in value && |TypeTag(value)| + 1 < |value| ==>
      TypeTag(value) + "(" + inner + [value[|value| - 1]] == value
    ensures '(' in value && |TypeTag(value)| + 1 == |value| ==> inner == ""
    ensures '(' !in value ==> inner == TypeTag(value)
  {
    IndexOfChar(value, '(');
    var i := IndexOf(value, "(");
    assert i != -1 && i + 1 < |value| ==> value == value[..i] + "(" + value[i + 1..|value| - 1] + [value[|value| - 1]] by {
      if i != -1 && i + 1 < |value| {
        assert value[i..i + 1] == "(";
        assert value == value[..i] + value[i..i + 1] + value[i + 1..|value| - 1] + value[|value| - 1..];
      }
    }
    Slice(value, i + 1, -1)
  }

  /** `mapFromDriverValue`. */
  function MapFromDriverValue(value: string): (r: Result<Decoded>)
    ensures r.Err? <==> TypeTag(value) !in {"POINT", "LINESTRING", "POLYGON"}
    ensures r.Err? ==> r.error == DrizzleError("Unexpected Geography type")
    ensures r.Ok? && r.value.DecodedPoint? <==> TypeTag(value) == "POINT"
    ensures r.Ok? && r.value.DecodedLineString? <==> TypeTag(value) == "LINESTRING"
    ensures r.Ok? && r.value.DecodedPolygon? <==> TypeTag(value) == "POLYGON"
  {
    var tag := TypeTag(value);
    var inner := Inner(value);
    if tag == "POINT" then Ok(DecodedPoint(ParsePoint(inner)))
    else if tag == "LINESTRING" then Ok(DecodedLineString(ParseLineString(inner)))
    else if tag == "POLYGON" then Ok(DecodedPolygon(ParsePolygon(inner)))
    else Err(DrizzleError("Unexpected Geography type"))
  }
}
