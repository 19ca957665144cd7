/** JavaScript values and outcomes as the modelled code sees them: the dynamic
    values a geography column receives, the errors it can throw, and the two
    ways a promise can settle. */
module Js {

  /** A JavaScript value, as far as the modelled code inspects it.
      Num: a value whose `typeof` is 'number' (its float semantics are not modelled);
      Arr: an array; Undefined: `undefined`; Null: `null`;
      Other: any other value (string, boolean, object), told apart only by identity. */
  datatype JsValue =
    | Num(n: real)
    | Arr(items: seq<JsValue>)
    | Undefined
    | Null
    | Other(ref: nat)

  /** An optional argument: absent (`undefined`) or present. */
  datatype Option<+T> = None | Some(value: T)

  /** An object the modelled code stores and passes on without looking inside. */
  datatype Opaque = Opaque(ref: nat)

  /** What can be thrown. */
  datatype Error =
    | TypeError(message: string)
    | DrizzleError(message: string)

  /** A synchronous computation that either returns a value or throws. */
  datatype Result<+T> = Ok(value: T) | Err(error: Error) {
    predicate IsFailure() { Err? }
    function PropagateFailure<U>(): Result<U> requires Err? { Err(error) }
    function Extract(): T requires Ok? { value }
  }

  /** How a promise settles. */
  datatype Settled<+T> = Fulfilled(value: T) | Rejected(reason: Error)

  /** True when `v` is nullish, so that reading any property of it throws. */
  predicate IsNullish(v: JsValue) {
    v.Undefined? || v.Null?
  }

  /** The decimal digits of `n`, as JavaScript writes an index. */
  function DecimalText(n: nat): string {
    if n < 10 then ['0' + n as char] else DecimalText(n / 10) + ['0' + (n % 10) as char]
  }

  /** The TypeError thrown when property `name` is read from `null` or `undefined`. */
  function ReadError(v: JsValue, name: string): Error {
    TypeError("Cannot read properties of " + (if v.Null? then "null" else "undefined") + " (reading '" + name + "')")
  }

  /** `v[i]`: an array element (or `undefined` past the end); `undefined` for
      any other non-nullish value; a TypeError for `null` and `undefined`. */
  function Index(v: JsValue, i: nat): (r: Result<JsValue>)
    ensures r.Err? <==> IsNullish(v)
    ensures v.Arr? && i < |v.items| ==> r == Ok(v.items[i])
    ensures r.Ok? && !(v.Arr? && i < |v.items|) ==> r.value == Undefined
  {
    match v
    case Undefined | Null => Err(ReadError(v, DecimalText(i)))
    case Arr(items) => Ok(if i < |items| then items[i] else Undefined)
    case _ => Ok(Undefined)
  }

  /** `xs.map(f)` where the callback may throw: the first element whose
      callback throws aborts the whole map with that error. */
  function MapOrFail<A, B>(xs: seq<A>, f: A -> Result<B>): (r: Result<seq<B>>)
    ensures r.Ok? <==> forall k :: 0 <= k < |xs| ==> f(xs[k]).Ok?
    ensures r.Ok? ==> |r.value| == |xs| && forall k :: 0 <= k < |xs| ==> f(xs[k]) == Ok(r.value[k])
    ensures r.Err? ==> exists k :: 0 <= k < |xs| && f(xs[k]) == Err(r.error) && forall j :: 0 <= j < k ==> f(xs[j]).Ok?
  {
    if xs == [] then Ok([])
    else
      match f(xs[0])
      case Err(e) => Err(e)
      case Ok(y) =>
        match MapOrFail(xs[1..], f)
        case Err(e) =>
          assert exists k :: 0 <= k < |xs| - 1 && f(xs[1..][k]) == Err(e) && forall j :: 0 <= j < k ==> f(xs[1..][j]).Ok?;
          var k :| 0 <= k < |xs| - 1 && f(xs[1..][k]) == Err(e) && forall j :: 0 <= j < k ==> f(xs[1..][j]).Ok?;
          assert f(xs[k + 1]) == Err(e);
          assert forall j :: 0 <= j < k + 1 ==> f(xs[j]).Ok? by {
            forall j | 0 <= j < k + 1 ensures f(xs[j]).Ok? {
              if j > 0 { assert xs[j] == xs[1..][j - 1]; }
            }
          }
          Err(e)
        case Ok(ys) =>
          assert forall k :: 0 <= k < |xs| - 1 ==> xs[1..][k] == xs[k + 1];
          Ok([y] + ys)
  }
}
