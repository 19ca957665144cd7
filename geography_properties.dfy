/** What the geography codec guarantees: the decoder loses no text, the
    encoder binds the coordinates in order, and decoding the encoder's text
    (once the SQL string quotes around it are removed, as the database does)
    gives the coordinates back. */
module GeographyProperties {
  import opened Js
  import opened JsStrings
  import opened Fragments
  import opened Geography

  // ---------------------------------------------------------------------
  // Helpers about strings
  // ---------------------------------------------------------------------

  lemma FreeOfSingle(s: string, c: char)
    requires Free(s, [c])
    ensures c !in s
  {
    if c in s {
      var j :| 0 <= j < |s| && s[j] == c;
      assert s[j..j + 1] == [c];
      assert OccursAt(s, [c], j);
    }
  }

  /** A character in neither the pieces nor the separator is not in the join. */
  lemma {:induction false} JoinAvoids(pieces: seq<string>, sep: string, c: char)
    requires c !in sep
    requires forall k :: 0 <= k < |pieces| ==> c !in pieces[k]
    ensures c !in Join(pieces, sep)
    decreases |pieces|
  {
    if |pieces| >= 2 {
      JoinAvoids(pieces[1..], sep, c);
    }
  }

  /** Joining parenthesised pieces with ', ' is the pieces joined with '), ('
      inside one outer pair of parentheses. */
  lemma {:induction false} ParenthesisedJoin(xs: seq<string>)
    requires |xs| > 0
    ensures Join(seq(|xs|, k requires 0 <= k < |xs| => "(" + xs[k] + ")"), ", ")
         == "(" + Join(xs, "), (") + ")"
    decreases |xs|
  {
    var ys := seq(|xs|, k requires 0 <= k < |xs| => "(" + xs[k] + ")");
    if |xs| >= 2 {
      ParenthesisedJoin(xs[1..]);
      assert ys[1..] == seq(|xs[1..]|, k requires 0 <= k < |xs[1..]| => "(" + xs[1..][k] + ")");
      calc {
        Join(ys, ", ");
        ys[0] + ", " + Join(ys[1..], ", ");
        "(" + xs[0] + ")" + ", " + ("(" + Join(xs[1..], "), (") + ")");
        "(" + (xs[0] + "), (" + Join(xs[1..], "), (")) + ")";
      }
    }
  }

  lemma Join2(a: string, b: string, sep: string)
    ensures Join([a, b], sep) == a + sep + b
  {
    assert [a, b][1..] == [b];
  }

  // ---------------------------------------------------------------------
  // Decoding
  // ---------------------------------------------------------------------

  /** With a '(' present, the type tag is the text before the first '(' and
      the inner text is what follows it without the last character. */
  lemma TagAndInner(tag: string, rest: string)
    requires '(' !in tag
    ensures TypeTag(tag + "(" + rest) == tag
    ensures Inner(tag + "(" + rest) == if rest == "" then "" else rest[..|rest| - 1]
  {
    var value := tag + "(" + rest;
    assert OccursAt(value, "(", |tag|) by {
      assert value[|tag|..|tag| + 1] == "(";
    }
    forall j | 0 <= j < |tag| ensures !OccursAt(value, "(", j) {
      assert value[j] == tag[j];
    }
    var i := IndexOf(value, "(");
    assert i == |tag|;
    assert value[..|tag|] == tag;
    if |rest| >= 2 {
      assert value[|tag| + 1..|value| - 1] == rest[..|rest| - 1];
    }
  }

  /** Without a '(', both the tag and the inner text are the value without
      its last character. */
  lemma TagWithoutParenthesis(value: string)
    requires '(' !in value
    ensures TypeTag(value) == Inner(value) == if value == "" then "" else value[..|value| - 1]
  {
    FreeIfFirstCharAbsent(value, "(");
  }

  /** So a value with no '(' whose text minus its last character is a known
      tag still decodes: "POINTS" gives the one-token point ["POINT"]. */
  lemma DecodeWithoutParenthesis(value: string)
    requires '(' !in value && |value| > 0 && value[..|value| - 1] == "POINT"
    ensures MapFromDriverValue(value) == Ok(DecodedPoint([NumberOf("POINT")]))
  {
    TagWithoutParenthesis(value);
    SingleToken("POINT");
  }

  /** Text with no space is a one-number point. */
  lemma SingleToken(t: string)
    requires ' ' !in t
    ensures ParsePoint(t) == [NumberOf(t)]
  {
    SplitJoin([t], " ");
  }

  /** The source text of each number of a point. */
  function PointText(p: seq<Number>): string {
    Join(seq(|p|, k requires 0 <= k < |p| => p[k].text), " ")
  }

  function LineStringText(ps: seq<seq<Number>>): string {
    Join(seq(|ps|, k requires 0 <= k < |ps| => PointText(ps[k])), ", ")
  }

  function PolygonText(rs: seq<seq<seq<Number>>>): string {
    Join(seq(|rs|, k requires 0 <= k < |rs| => LineStringText(rs[k])), "), (")
  }

  /** A point is one number per ' '-separated token, in order: the tokens
      contain no space, there is one more than there are spaces, and joined
      back with ' ' they are the input. */
  lemma PointTokens(s: string)
    ensures PointText(ParsePoint(s)) == s
    ensures |ParsePoint(s)| == Occurrences(s, " ") + 1
    ensures forall k :: 0 <= k < |ParsePoint(s)| ==> ' ' !in ParsePoint(s)[k].text
  {
    var tokens := Split(s, " ");
    var p := ParsePoint(s);
    assert seq(|p|, k requires 0 <= k < |p| => p[k].text) == tokens;
    SplitCount(s, " ");
    forall k | 0 <= k < |p| ensures ' ' !in p[k].text {
      FreeOfSingle(tokens[k], ' ');
    }
  }

  /** "a b" is the point [a, b]. */
  lemma PointOfTwoTokens(a: string, b: string)
    requires ' ' !in a && ' ' !in b
    ensures ParsePoint(a + " " + b) == [NumberOf(a), NumberOf(b)]
  {
    Join2(a, b, " ");
    SplitJoin([a, b], " ");
  }

  /** A line string is one point per ', '-separated segment, in order. */
  lemma LineStringSegments(s: string)
    ensures LineStringText(ParseLineString(s)) == s
    ensures |ParseLineString(s)| == Occurrences(s, ", ") + 1
  {
    var pairs := Split(s, ", ");
    var ps := ParseLineString(s);
    forall k | 0 <= k < |ps| ensures PointText(ps[k]) == pairs[k] {
      PointTokens(pairs[k]);
    }
    assert seq(|ps|, k requires 0 <= k < |ps| => PointText(ps[k])) == pairs;
    SplitCount(s, ", ");
  }

  /** A polygon drops the first and last characters of its text and has one
      ring, parsed as a line string, per '), ('-separated segment. */
  lemma PolygonRings(s: string)
    ensures PolygonText(ParsePolygon(s)) == Slice(s, 1, -1)
    ensures |ParsePolygon(s)| == Occurrences(Slice(s, 1, -1), "), (") + 1
  {
    var rings := Split(Slice(s, 1, -1), "), (");
    var rs := ParsePolygon(s);
    forall k | 0 <= k < |rs| ensures LineStringText(rs[k]) == rings[k] {
      LineStringSegments(rings[k]);
    }
    assert seq(|rs|, k requires 0 <= k < |rs| => LineStringText(rs[k])) == rings;
    SplitCount(Slice(s, 1, -1), "), (");
  }

  // ---------------------------------------------------------------------
  // Encoding
  // ---------------------------------------------------------------------

  /** A point of a line string or ring whose two coordinates are defined. */
  predicate IsPair(p: JsValue) {
    p.Arr? && |p.items| >= 2 && !p.items[0].Undefined? && !p.items[1].Undefined?
  }

  predicate AllPairs(ps: seq<JsValue>) {
    forall k :: 0 <= k < |ps| ==> IsPair(ps[k])
  }

  predicate AllRings(rs: seq<JsValue>) {
    forall r :: 0 <= r < |rs| ==> rs[r].Arr? && AllPairs(rs[r].items)
  }

  function PairText(p: JsValue, show: JsValue -> string): string
    requires IsPair(p)
  {
    show(p.items[0]) + " " + show(p.items[1])
  }

  function PointsText(ps: seq<JsValue>, show: JsValue -> string): string
    requires AllPairs(ps)
  {
    Join(seq(|ps|, k requires 0 <= k < |ps| => PairText(ps[k], show)), ", ")
  }

  function PointsParams(ps: seq<JsValue>): seq<JsValue>
    requires AllPairs(ps)
  {
    Concat(seq(|ps|, k requires 0 <= k < |ps| => [ps[k].items[0], ps[k].items[1]]))
  }

  function RingsText(rs: seq<JsValue>, show: JsValue -> string): string
    requires AllRings(rs)
  {
    Join(seq(|rs|, r requires 0 <= r < |rs| => "(" + PointsText(rs[r].items, show) + ")"), ", ")
  }

  function RingsParams(rs: seq<JsValue>): seq<JsValue>
    requires AllRings(rs)
  {
    Concat(seq(|rs|, r requires 0 <= r < |rs| => PointsParams(rs[r].items)))
  }

  lemma {:induction false} ConcatOfPairsLength(xss: seq<seq<JsValue>>)
    requires forall k :: 0 <= k < |xss| ==> |xss[k]| == 2
    ensures |Concat(xss)| == 2 * |xss|
    decreases |xss|
  {
    if xss != [] {
      ConcatOfPairsLength(xss[1..]);
    }
  }

  lemma PairFragment(p: JsValue, show: JsValue -> string)
    requires IsPair(p)
    ensures PointFragment(p).Ok?
    ensures Text(PointFragment(p).value, show) == PairText(p, show)
    ensures Params(PointFragment(p).value) == [p.items[0], p.items[1]]
  {
    var a, b := p.items[0], p.items[1];
    assert PointFragment(p).value == Template(["", " ", ""], [Value(a), Value(b)]);
    Template2Text<JsValue>("", " ", "", Value(a), Value(b), show);
    ParamText(a, show);
    ParamText(b, show);
  }

  /** The points of a line string or ring, encoded and joined with ', '. */
  lemma PointsFragment(ps: seq<JsValue>, show: JsValue -> string)
    requires AllPairs(ps)
    ensures MapOrFail(ps, PointFragment).Ok?
    ensures Text(JoinFragments(MapOrFail(ps, PointFragment).value, Raw(", ")), show) == PointsText(ps, show)
    ensures Params(JoinFragments(MapOrFail(ps, PointFragment).value, Raw(", "))) == PointsParams(ps)
  {
    forall k | 0 <= k < |ps| ensures PointFragment(ps[k]).Ok? {
      PairFragment(ps[k], show);
    }
    var fs := MapOrFail(ps, PointFragment).value;
    TextJoin(fs, ", ", show);
    ParamsJoin(fs, ", ");
    forall k | 0 <= k < |ps|
      ensures Text(fs[k], show) == PairText(ps[k], show)
      ensures Params(fs[k]) == [ps[k].items[0], ps[k].items[1]]
    {
      PairFragment(ps[k], show);
    }
    assert seq(|fs|, k requires 0 <= k < |fs| => Text(fs[k], show))
        == seq(|ps|, k requires 0 <= k < |ps| => PairText(ps[k], show));
    assert seq(|fs|, k requires 0 <= k < |fs| => Params(fs[k]))
        == seq(|ps|, k requires 0 <= k < |ps| => [ps[k].items[0], ps[k].items[1]]);
  }

  lemma WrapText(open: string, f: Fragment<JsValue>, close: string, show: JsValue -> string)
    ensures Text(Template([open, close], [Sub(f)]), show) == open + Text(f, show) + close
    ensures Params(Template([open, close], [Sub(f)])) == Params(f)
  {
    Template1Text(open, close, Sub(f), show);
  }

  /** Encoding a point binds `lng` then `lat` inside the "POINT( )" literal. */
  lemma EncodePoint(v: JsValue, show: JsValue -> string)
    requires IsPoint(v) && !v.items[1].Undefined?
    ensures MapToDriverValue(v).Ok?
    ensures Params(MapToDriverValue(v).value) == [v.items[0], v.items[1]]
    ensures Text(MapToDriverValue(v).value, show)
         == "\"POINT(" + show(v.items[0]) + " " + show(v.items[1]) + ")\""
  {
    var a, b := v.items[0], v.items[1];
    assert MapToDriverValue(v).value == Template(["\"POINT(", " ", ")\""], [Value(a), Value(b)]);
    Template2Text<JsValue>("\"POINT(", " ", ")\"", Value(a), Value(b), show);
    ParamText(a, show);
    ParamText(b, show);
  }

  /** Encoding a line string of n complete points binds 2n values, each
      point's `lng` then `lat` in point order, with ', ' between points. */
  lemma EncodeLineString(v: JsValue, show: JsValue -> string)
    requires IsLineString(v) && AllPairs(v.items)
    ensures MapToDriverValue(v).Ok?
    ensures Params(MapToDriverValue(v).value) == PointsParams(v.items)
    ensures |Params(MapToDriverValue(v).value)| == 2 * |v.items|
    ensures Text(MapToDriverValue(v).value, show) == "\"LINESTRING(" + PointsText(v.items, show) + ")\""
  {
    PointsFragment(v.items, show);
    var inner := JoinFragments(MapOrFail(v.items, PointFragment).value, Raw(", "));
    assert MapToDriverValue(v).value == Template(["\"LINESTRING(", ")\""], [Sub(inner)]);
    WrapText("\"LINESTRING(", inner, ")\"", show);
    ConcatOfPairsLength(seq(|v.items|, k requires 0 <= k < |v.items| => [v.items[k].items[0], v.items[k].items[1]]));
  }

  /** Encoding a line string fails, with a TypeError, exactly when one of
      its points is null or undefined. */
  lemma EncodeLineStringFails(v: JsValue)
    requires IsLineString(v)
    ensures MapToDriverValue(v).Err? <==> exists k :: 0 <= k < |v.items| && IsNullish(v.items[k])
    ensures MapToDriverValue(v).Err? ==> MapToDriverValue(v).error.TypeError?
  {
    if exists k :: 0 <= k < |v.items| && IsNullish(v.items[k]) {
      var k :| 0 <= k < |v.items| && IsNullish(v.items[k]);
      assert PointFragment(v.items[k]).Err?;
    }
  }

  /** Encoding a polygon wraps each ring's points in parentheses, joins the
      rings with ', ', and binds values in ring order, then point order. */
  lemma EncodePolygon(v: JsValue, show: JsValue -> string)
    requires IsPolygon(v) && AllRings(v.items)
    ensures MapToDriverValue(v).Ok?
    ensures Params(MapToDriverValue(v).value) == RingsParams(v.items)
    ensures Text(MapToDriverValue(v).value, show) == "\"POLYGON(" + RingsText(v.items, show) + ")\""
  {
    var rs := v.items;
    forall r | 0 <= r < |rs|
      ensures RingFragment(rs[r]).Ok?
      ensures Text(RingFragment(rs[r]).value, show) == "(" + PointsText(rs[r].items, show) + ")"
      ensures Params(RingFragment(rs[r]).value) == PointsParams(rs[r].items)
    {
      EncodeRing(rs[r], show);
    }
    var fs := MapOrFail(rs, RingFragment).value;
    TextJoin(fs, ", ", show);
    ParamsJoin(fs, ", ");
    assert seq(|fs|, k requires 0 <= k < |fs| => Text(fs[k], show))
        == seq(|rs|, r requires 0 <= r < |rs| => "(" + PointsText(rs[r].items, show) + ")");
    assert seq(|fs|, k requires 0 <= k < |fs| => Params(fs[k]))
        == seq(|rs|, r requires 0 <= r < |rs| => PointsParams(rs[r].items));
    var inner := JoinFragments(fs, Raw(", "));
    assert MapToDriverValue(v).value == Template(["\"POLYGON(", ")\""], [Sub(inner)]) by {
      assert !IsPoint(v) && !IsLineString(v);
    }
    WrapText("\"POLYGON(", inner, ")\"", show);
  }

  /** One ring of complete points is encoded as its points text in parentheses. */
  lemma EncodeRing(ring: JsValue, show: JsValue -> string)
    requires ring.Arr? && AllPairs(ring.items)
    ensures RingFragment(ring).Ok?
    ensures Text(RingFragment(ring).value, show) == "(" + PointsText(ring.items, show) + ")"
    ensures Params(RingFragment(ring).value) == PointsParams(ring.items)
  {
    PointsFragment(ring.items, show);
    var inner := JoinFragments(MapOrFail(ring.items, PointFragment).value, Raw(", "));
    WrapText("(", inner, ")", show);
  }

  // ---------------------------------------------------------------------
  // Encoding, then decoding
  // ---------------------------------------------------------------------

  /** Number text that contains none of the decoder's separator characters. */
  predicate PlainText(t: string) {
    ' ' !in t && ',' !in t && ')' !in t
  }

  /** A value the encoder accepts with every coordinate defined, and with no
      empty ring (an empty ring would read back as one empty-token point). */
  predicate Encodable(v: JsValue) {
    || (IsPoint(v) && !v.items[1].Undefined?)
    || (IsLineString(v) && AllPairs(v.items))
    || (IsPolygon(v) && AllRings(v.items) && forall r :: 0 <= r < |v.items| ==> |v.items[r].items| > 0)
  }

  function PairNumbers(p: JsValue, show: JsValue -> string): seq<Number>
    requires IsPair(p)
  {
    [NumberOf(show(p.items[0])), NumberOf(show(p.items[1]))]
  }

  function PointsNumbers(ps: seq<JsValue>, show: JsValue -> string): seq<seq<Number>>
    requires AllPairs(ps)
  {
    seq(|ps|, k requires 0 <= k < |ps| => PairNumbers(ps[k], show))
  }

  /** What decoding should give back: the same shape, each coordinate read
      from the text it was written as. */
  function ReadBack(v: JsValue, show: JsValue -> string): Decoded
    requires Encodable(v)
  {
    if IsPoint(v) && !v.items[1].Undefined? then
      DecodedPoint([NumberOf(show(v.items[0])), NumberOf(show(v.items[1]))])
    else if IsLineString(v) && AllPairs(v.items) then
      DecodedLineString(PointsNumbers(v.items, show))
    else
      DecodedPolygon(seq(|v.items|, r requires 0 <= r < |v.items| => PointsNumbers(v.items[r].items, show)))
  }

  lemma ParsePoints(ps: seq<JsValue>, show: JsValue -> string)
    requires AllPairs(ps) && |ps| > 0
    requires forall x :: PlainText(show(x))
    ensures ParseLineString(PointsText(ps, show)) == PointsNumbers(ps, show)
    ensures ')' !in PointsText(ps, show)
  {
    var texts := seq(|ps|, k requires 0 <= k < |ps| => PairText(ps[k], show));
    forall k | 0 <= k < |ps|
      ensures ',' !in texts[k] && ')' !in texts[k]
      ensures ParsePoint(texts[k]) == PairNumbers(ps[k], show)
    {
      assert PlainText(show(ps[k].items[0])) && PlainText(show(ps[k].items[1]));
      PointOfTwoTokens(show(ps[k].items[0]), show(ps[k].items[1]));
    }
    SplitJoin(texts, ", ");
    JoinAvoids(texts, ", ", ')');
  }

  /** `text` is an SQL string literal whose contents decode to `d`. */
  predicate QuotedDecodesTo(text: string, d: Decoded) {
    |text| >= 2 && text[0] == '"' && text[|text| - 1] == '"'
    && MapFromDriverValue(text[1..|text| - 1]) == Ok(d)
  }

  lemma RoundTripPoint(v: JsValue, show: JsValue -> string)
    requires IsPoint(v) && !v.items[1].Undefined?
    requires forall x :: PlainText(show(x))
    ensures MapToDriverValue(v).Ok?
    ensures QuotedDecodesTo(Text(MapToDriverValue(v).value, show),
                            DecodedPoint([NumberOf(show(v.items[0])), NumberOf(show(v.items[1]))]))
  {
    EncodePoint(v, show);
    var a, b := show(v.items[0]), show(v.items[1]);
    assert PlainText(a) && PlainText(b);
    assert Text(MapToDriverValue(v).value, show) == "\"" + "POINT" + "(" + (a + " " + b) + ")\"";
    PointOfTwoTokens(a, b);
    DecodeTagged("POINT", a + " " + b, DecodedPoint([NumberOf(a), NumberOf(b)]));
  }

  lemma RoundTripLineString(v: JsValue, show: JsValue -> string)
    requires IsLineString(v) && AllPairs(v.items)
    requires forall x :: PlainText(show(x))
    ensures MapToDriverValue(v).Ok?
    ensures QuotedDecodesTo(Text(MapToDriverValue(v).value, show), DecodedLineString(PointsNumbers(v.items, show)))
  {
    EncodeLineString(v, show);
    var p := PointsText(v.items, show);
    assert Text(MapToDriverValue(v).value, show) == "\"" + "LINESTRING" + "(" + p + ")\"";
    ParsePoints(v.items, show);
    DecodeTagged("LINESTRING", p, DecodedLineString(PointsNumbers(v.items, show)));
  }

  /** The text of the rings is the inner texts joined with '), (' inside one
      pair of parentheses. */
  lemma RingsTextAsJoin(rs: seq<JsValue>, show: JsValue -> string)
    requires AllRings(rs) && |rs| > 0
    ensures var inners := seq(|rs|, r requires 0 <= r < |rs| => PointsText(rs[r].items, show));
      RingsText(rs, show) == "(" + Join(inners, "), (") + ")"
  {
    var inners := seq(|rs|, r requires 0 <= r < |rs| => PointsText(rs[r].items, show));
    assert seq(|inners|, k requires 0 <= k < |inners| => "(" + inners[k] + ")")
        == seq(|rs|, r requires 0 <= r < |rs| => "(" + PointsText(rs[r].items, show) + ")");
    ParenthesisedJoin(inners);
  }

  /** The rings' text parses back ring by ring. */
  lemma ParseRings(rs: seq<JsValue>, show: JsValue -> string)
    requires AllRings(rs) && |rs| > 0 && forall r :: 0 <= r < |rs| ==> |rs[r].items| > 0
    requires forall x :: PlainText(show(x))
    ensures ParsePolygon(RingsText(rs, show))
         == seq(|rs|, r requires 0 <= r < |rs| => PointsNumbers(rs[r].items, show))
  {
    var inners := seq(|rs|, r requires 0 <= r < |rs| => PointsText(rs[r].items, show));
    var expected := seq(|rs|, r requires 0 <= r < |rs| => PointsNumbers(rs[r].items, show));
    var body := Join(inners, "), (");
    assert Slice(RingsText(rs, show), 1, -1) == body by {
      var joined := RingsText(rs, show);
      RingsTextAsJoin(rs, show);
      assert joined[1..|joined| - 1] == body;
    }
    forall r | 0 <= r < |rs|
      ensures ')' !in inners[r]
      ensures ParseLineString(inners[r]) == expected[r]
    {
      ParsePoints(rs[r].items, show);
    }
    SplitJoin(inners, "), (");
    PolygonOfRings(RingsText(rs, show), inners, expected);
  }

  /** A polygon text whose rings split as `rings` parses ring by ring. */
  lemma PolygonOfRings(text: string, rings: seq<string>, expected: seq<seq<seq<Number>>>)
    requires Split(Slice(text, 1, -1), "), (") == rings
    requires |expected| == |rings| && forall r :: 0 <= r < |rings| ==> ParseLineString(rings[r]) == expected[r]
    ensures ParsePolygon(text) == expected
  {
  }

  /** The encoder's literal "\"TAG(" + body + ")\"", unquoted, has tag TAG
      and inner text `body`. */
  lemma Unquoted(tag: string, body: string)
    requires '(' !in tag
    ensures var text := "\"" + tag + "(" + body + ")\"";
      |text| >= 2 && text[0] == '"' && text[|text| - 1] == '"'
      && TypeTag(text[1..|text| - 1]) == tag && Inner(text[1..|text| - 1]) == body
  {
    var text := "\"" + tag + "(" + body + ")\"";
    assert text[1..|text| - 1] == tag + "(" + (body + ")");
    TagAndInner(tag, body + ")");
    assert (body + ")")[..|body + ")"| - 1] == body;
  }

  /** The encoder's literal for a known tag, unquoted, decodes by that tag's
      parser applied to the body. */
  lemma DecodeTagged(tag: string, body: string, d: Decoded)
    requires tag == "POINT" || tag == "LINESTRING" || tag == "POLYGON"
    requires d == if tag == "POINT" then DecodedPoint(ParsePoint(body))
                  else if tag == "LINESTRING" then DecodedLineString(ParseLineString(body))
                  else DecodedPolygon(ParsePolygon(body))
    ensures QuotedDecodesTo("\"" + tag + "(" + body + ")\"", d)
  {
    Unquoted(tag, body);
  }

  lemma RoundTripPolygon(v: JsValue, show: JsValue -> string)
    requires IsPolygon(v) && AllRings(v.items) && forall r :: 0 <= r < |v.items| ==> |v.items[r].items| > 0
    requires forall x :: PlainText(show(x))
    ensures MapToDriverValue(v).Ok?
    ensures QuotedDecodesTo(Text(MapToDriverValue(v).value, show),
      DecodedPolygon(seq(|v.items|, r requires 0 <= r < |v.items| => PointsNumbers(v.items[r].items, show))))
  {
    EncodePolygon(v, show);
    var joined := RingsText(v.items, show);
    var text := Text(MapToDriverValue(v).value, show);
    assert text == "\"" + "POLYGON" + "(" + joined + ")\"";
    ParseRings(v.items, show);
    DecodeTagged("POLYGON", joined,
      DecodedPolygon(seq(|v.items|, r requires 0 <= r < |v.items| => PointsNumbers(v.items[r].items, show))));
  }

  /** The encoder's text, with the SQL string quotes around it removed,
      decodes to the value's shape with every coordinate read back from its
      text. */
  lemma RoundTrip(v: JsValue, show: JsValue -> string)
    requires Encodable(v)
    requires forall x :: PlainText(show(x))
    ensures MapToDriverValue(v).Ok?
    ensures QuotedDecodesTo(Text(MapToDriverValue(v).value, show), ReadBack(v, show))
  {
    if IsPoint(v) && !v.items[1].Undefined? {
      RoundTripPoint(v, show);
    } else if IsLineString(v) && AllPairs(v.items) {
      RoundTripLineString(v, show);
    } else {
      RoundTripPolygon(v, show);
    }
  }
}
