/** SQL fragments: the flat chunk stream the `sql` template tag builds, with
    embedded fragments inlined, and the two views a renderer takes of it
    (the text with each bound value shown some way, and the bound values in
    order). */
module Fragments {
  import opened Js
  import JsStrings

  /** Literal SQL text, or a value to be bound as a parameter. */
  datatype Chunk<V> = Lit(text: string) | Param(value: V)

  type Fragment<V> = seq<Chunk<V>>

  /** What may be interpolated into a template: a fragment (inlined), a value
      (bound as one parameter), or `undefined` (contributes nothing). */
  datatype Part<V> = Sub(fragment: Fragment<V>) | Value(value: V) | Absent

  function Chunks<V>(p: Part<V>): Fragment<V> {
    match p
    case Sub(f) => f
    case Value(v) => [Param(v)]
    case Absent => []
  }

  /** The tagged template sql`s0${p0}s1${p1}...sn`: the literal segments
      interleaved with the interpolated parts. */
  function Template<V>(strings: seq<string>, parts: seq<Part<V>>): Fragment<V>
    requires |strings| == |parts| + 1
    decreases |parts|
  {
    if parts == [] then [Lit(strings[0])]
    else [Lit(strings[0])] + Chunks(parts[0]) + Template(strings[1..], parts[1..])
  }

  /** `sql.raw(text)`. */
  function Raw<V>(text: string): Fragment<V> {
    [Lit(text)]
  }

  /** `f.if(present)`: the fragment when the condition holds, else `undefined`. */
  function If<V>(f: Fragment<V>, present: bool): Part<V> {
    if present then Sub(f) else Absent
  }

  /** An optional fragment argument interpolated as it is. */
  function Optional<V>(o: Option<Fragment<V>>): Part<V> {
    match o
    case Some(f) => Sub(f)
    case None => Absent
  }

  /** `sql.join(fs, sep)`: the fragments with `sep` between neighbours. */
  function JoinFragments<V>(fs: seq<Fragment<V>>, sep: Fragment<V>): Fragment<V>
    decreases |fs|
  {
    if |fs| == 0 then []
    else if |fs| == 1 then fs[0]
    else fs[0] + sep + JoinFragments(fs[1..], sep)
  }

  /** The SQL text, each bound value shown by `show` (a placeholder, or the
      value's literal text when values are inlined). */
  function Text<V>(f: Fragment<V>, show: V -> string): string
    decreases |f|
  {
    if f == [] then ""
    else
      (match f[0] case Lit(t) => t case Param(v) => show(v)) + Text(f[1..], show)
  }

  /** The bound values, in order. */
  function Params<V>(f: Fragment<V>): seq<V>
    decreases |f|
  {
    if f == [] then []
    else (match f[0] case Lit(_) => [] case Param(v) => [v]) + Params(f[1..])
  }

  function Concat<T>(xss: seq<seq<T>>): seq<T>
    decreases |xss|
  {
    if xss == [] then [] else xss[0] + Concat(xss[1..])
  }

  /** Rendering is compositional: the text of a concatenation is the
      concatenation of the texts. */
  lemma {:induction false} TextAppend<V>(a: Fragment<V>, b: Fragment<V>, show: V -> string)
    ensures Text(a + b, show) == Text(a, show) + Text(b, show)
    decreases |a|
  {
    if a != [] {
      assert (a + b)[1..] == a[1..] + b;
      TextAppend(a[1..], b, show);
    } else {
      assert a + b == b;
    }
  }

  /** The parameters of a concatenation are those of the left part followed
      by those of the right part. */
  lemma {:induction false} ParamsAppend<V>(a: Fragment<V>, b: Fragment<V>)
    ensures Params(a + b) == Params(a) + Params(b)
    decreases |a|
  {
    if a != [] {
      assert (a + b)[1..] == a[1..] + b;
      ParamsAppend(a[1..], b);
    } else {
      assert a + b == b;
    }
  }

  /** Sequence concatenation is associative (stated once, used to regroup
      rendered texts without re-deriving it by extensionality each time). */
  lemma Assoc<T>(a: seq<T>, b: seq<T>, c: seq<T>)
    ensures a + (b + c) == a + b + c
  {
  }

  /** One step of a template: its first literal, its first part, then the rest. */
  lemma TemplateStepText<V>(strings: seq<string>, parts: seq<Part<V>>, show: V -> string)
    requires |strings| == |parts| + 1 && |parts| > 0
    ensures Text(Template(strings, parts), show)
         == strings[0] + Text(Chunks(parts[0]), show) + Text(Template(strings[1..], parts[1..]), show)
  {
    var a, b, c := [Lit(strings[0])], Chunks(parts[0]), Template(strings[1..], parts[1..]);
    assert Template(strings, parts) == a + b + c;
    TextAppend(a + b, c, show);
    TextAppend(a, b, show);
    LitText(strings[0], show);
  }

  lemma TemplateStepParams<V>(strings: seq<string>, parts: seq<Part<V>>)
    requires |strings| == |parts| + 1 && |parts| > 0
    ensures Params(Template(strings, parts))
         == Params(Chunks(parts[0])) + Params(Template(strings[1..], parts[1..]))
  {
    var a, b, c := [Lit(strings[0])], Chunks(parts[0]), Template(strings[1..], parts[1..]);
    assert Template(strings, parts) == a + b + c;
    ParamsAppend(a + b, c);
    ParamsAppend(a, b);
    LitText(strings[0], (_: V) => "");
  }

  /** The text of a one-part template is its literals around the part's text. */
  lemma Template1Text<V>(s0: string, s1: string, p: Part<V>, show: V -> string)
    ensures Text(Template([s0, s1], [p]), show) == s0 + Text(Chunks(p), show) + s1
    ensures Params(Template([s0, s1], [p])) == Params(Chunks(p))
  {
    TemplateStepText([s0, s1], [p], show);
    TemplateStepParams([s0, s1], [p]);
    assert [s0, s1][1..] == [s1];
    assert [p][1..] == [];
    LitText(s1, show);
  }

  lemma Template2Text<V>(s0: string, s1: string, s2: string, p: Part<V>, q: Part<V>, show: V -> string)
    ensures Text(Template([s0, s1, s2], [p, q]), show)
         == s0 + Text(Chunks(p), show) + s1 + Text(Chunks(q), show) + s2
    ensures Params(Template([s0, s1, s2], [p, q])) == Params(Chunks(p)) + Params(Chunks(q))
  {
    TemplateStepText([s0, s1, s2], [p, q], show);
    TemplateStepParams([s0, s1, s2], [p, q]);
    assert [s0, s1, s2][1..] == [s1, s2];
    assert [p, q][1..] == [q];
    Template1Text(s1, s2, q, show);
    var a, y := s0 + Text(Chunks(p), show), Text(Chunks(q), show);
    Assoc(a, s1 + y, s2);
    Assoc(a, s1, y);
  }

  lemma Template3Text<V>(s0: string, s1: string, s2: string, s3: string,
                         p: Part<V>, q: Part<V>, u: Part<V>, show: V -> string)
    ensures Text(Template([s0, s1, s2, s3], [p, q, u]), show)
         == s0 + Text(Chunks(p), show) + s1 + Text(Chunks(q), show) + s2 + Text(Chunks(u), show) + s3
  {
    TemplateStepText([s0, s1, s2, s3], [p, q, u], show);
    assert [s0, s1, s2, s3][1..] == [s1, s2, s3];
    assert [p, q, u][1..] == [q, u];
    Template2Text(s1, s2, s3, q, u, show);
    var a, y, z := s0 + Text(Chunks(p), show), Text(Chunks(q), show), Text(Chunks(u), show);
    Assoc(a, s1 + y + s2 + z, s3);
    Assoc(a, s1 + y + s2, z);
    Assoc(a, s1 + y, s2);
    Assoc(a, s1, y);
  }

  lemma Template3Params<V>(s0: string, s1: string, s2: string, s3: string, p: Part<V>, q: Part<V>, u: Part<V>)
    ensures Params(Template([s0, s1, s2, s3], [p, q, u]))
         == Params(Chunks(p)) + Params(Chunks(q)) + Params(Chunks(u))
  {
    TemplateStepParams([s0, s1, s2, s3], [p, q, u]);
    assert [s0, s1, s2, s3][1..] == [s1, s2, s3];
    assert [p, q, u][1..] == [q, u];
    Template2Text(s1, s2, s3, q, u, (_: V) => "");
    Assoc(Params(Chunks(p)), Params(Chunks(q)), Params(Chunks(u)));
  }

  lemma LitText<V>(t: string, show: V -> string)
    ensures Text([Lit(t)], show) == t && Params<V>([Lit(t)]) == []
  {
  }

  lemma ParamText<V>(v: V, show: V -> string)
    ensures Text([Param(v)], show) == show(v) && Params([Param(v)]) == [v]
  {
  }

  /** Joining fragments with a literal separator renders as the string join
      of their texts. */
  lemma {:induction false} TextJoin<V>(fs: seq<Fragment<V>>, sep: string, show: V -> string)
    ensures Text(JoinFragments(fs, Raw(sep)), show)
         == JsStrings.Join(seq(|fs|, k requires 0 <= k < |fs| => Text(fs[k], show)), sep)
    decreases |fs|
  {
    var texts := seq(|fs|, k requires 0 <= k < |fs| => Text(fs[k], show));
    if |fs| >= 2 {
      TextJoin(fs[1..], sep, show);
      assert texts[1..] == seq(|fs[1..]|, k requires 0 <= k < |fs[1..]| => Text(fs[1..][k], show));
      TextAppend(fs[0] + Raw(sep), JoinFragments(fs[1..], Raw(sep)), show);
      TextAppend(fs[0], Raw(sep), show);
      LitText(sep, show);
    }
  }

  /** Joining fragments with a literal separator binds their parameters one
      fragment after another. */
  lemma {:induction false} ParamsJoin<V>(fs: seq<Fragment<V>>, sep: string)
    ensures Params(JoinFragments(fs, Raw(sep))) == Concat(seq(|fs|, k requires 0 <= k < |fs| => Params(fs[k])))
    decreases |fs|
  {
    var ps := seq(|fs|, k requires 0 <= k < |fs| => Params(fs[k]));
    if |fs| == 1 {
      assert Concat(ps) == ps[0] + Concat(ps[1..]);
      assert ps[1..] == [];
    } else if |fs| >= 2 {
      ParamsJoin(fs[1..], sep);
      assert ps[1..] == seq(|fs[1..]|, k requires 0 <= k < |fs[1..]| => Params(fs[1..][k]));
      ParamsAppend(fs[0] + Raw(sep), JoinFragments(fs[1..], Raw(sep)));
      ParamsAppend(fs[0], Raw<V>(sep));
      LitText<V>(sep, _ => "");
    }
  }
}
