/**
 * The handful of JavaScript value semantics the application's data rules rely on:
 * optional values, `Math.round`, the `x || fallback` idiom on numbers, the IEEE results
 * of an unguarded division (which the code caps with `Math.min` or maps with `isNaN`),
 * form fields that hold either typed text or a number loaded from the server, and the
 * end index that `Array.prototype.slice(0, n)` uses.
 */
module Js {

  datatype Option<+T> = None | Some(value: T) {
    function GetOr(default: T): T {
      match this
      case Some(v) => v
      case None => default
    }
  }

  datatype Result<+T, +E> = Ok(value: T) | Err(error: E)

  /** `Math.round`: the nearest integer, halves rounded towards +infinity. */
  function Round(x: real): (r: int)
    ensures x - 1.0 / 2.0 < r as real <= x + 1.0 / 2.0
  {
    (x + 1.0 / 2.0).Floor
  }

  /** `Math.ceil(a / b)` for an integer `a` and a positive integer `b`. */
  function CeilDiv(a: int, b: int): (r: int)
    requires b > 0
    ensures b * (r - 1) < a <= b * r
  {
    if a % b == 0 then a / b else a / b + 1
  }

  /** Truncation towards zero, as `parseInt` applied to a non-huge number does. */
  function Trunc(x: real): (r: int)
    ensures 0.0 <= x ==> 0 <= r && r as real <= x < r as real + 1.0
    ensures x < 0.0 ==> r <= 0 && r as real - 1.0 < x <= r as real
  {
    if x >= 0.0 then x.Floor else -((-x).Floor)
  }

  /** `n || fallback` for an optional integer: missing and 0 are falsy. */
  function IntOr(n: Option<int>, fallback: int): (r: int)
    ensures n.Some? && n.value != 0 ==> r == n.value
    ensures (n.None? || n.value == 0) ==> r == fallback
  {
    if n.Some? && n.value != 0 then n.value else fallback
  }

  /** `x || fallback` for an optional number: missing, 0 (and NaN, which the model has no value for) are falsy. */
  function RealOr(x: Option<real>, fallback: real): (r: real)
    ensures x.Some? && x.value != 0.0 ==> r == x.value
    ensures (x.None? || x.value == 0.0) ==> r == fallback
  {
    if x.Some? && x.value != 0.0 then x.value else fallback
  }

  /** Truthiness of an optional number. */
  predicate TruthyReal(x: Option<real>) {
    x.Some? && x.value != 0.0
  }

  /**
   * A JavaScript number as produced by an unguarded division: finite, +Infinity, -Infinity or NaN.
   */
  datatype Num = Fin(r: real) | PosInf | NegInf | NaN

  /** `a / b` in IEEE arithmetic, for finite operands. */
  function Div(a: real, b: real): (q: Num)
    ensures b != 0.0 ==> q == Fin(a / b)
    ensures b == 0.0 ==> (q == PosInf <==> a > 0.0) && (q == NegInf <==> a < 0.0) && (q == NaN <==> a == 0.0)
  {
    if b != 0.0 then Fin(a / b)
    else if a > 0.0 then PosInf
    else if a < 0.0 then NegInf
    else NaN
  }

  /** `q * k` for a positive finite factor `k`. */
  function Scale(q: Num, k: real): (r: Num)
    requires k > 0.0
    ensures q.Fin? <==> r.Fin?
    ensures q.Fin? ==> r.r == q.r * k
    ensures !q.Fin? ==> r == q
  {
    match q
    case Fin(x) => Fin(x * k)
    case _ => q
  }

  /** `Math.round(q)`; infinities and NaN are unchanged. */
  function RoundNum(q: Num): (r: Num)
    ensures q.Fin? <==> r.Fin?
    ensures q.Fin? ==> r.r == Round(q.r) as real
    ensures !q.Fin? ==> r == q
  {
    match q
    case Fin(x) => Fin(Round(x) as real)
    case _ => q
  }

  /** `Math.min(q, cap)`: NaN propagates, +Infinity becomes the cap, -Infinity stays. */
  function MinNum(q: Num, cap: real): (r: Num)
    ensures q == NaN <==> r == NaN
    ensures q == NegInf <==> r == NegInf
    ensures r.Fin? ==> r.r <= cap
    ensures q.Fin? ==> r == Fin(if q.r <= cap then q.r else cap)
    ensures q == PosInf ==> r == Fin(cap)
  {
    match q
    case Fin(x) => Fin(if x <= cap then x else cap)
    case PosInf => Fin(cap)
    case NegInf => NegInf
    case NaN => NaN
  }

  /**
   * A form field: text typed by the user, or a number that a load handler copied from the server.
   */
  datatype FormValue = Text(s: string) | Number(x: real)

  /** Truthiness of a form field: the empty string and the number 0 are falsy. */
  predicate Truthy(v: FormValue) {
    match v
    case Text(s) => s != ""
    case Number(x) => x != 0.0
  }

  /** `parseFloat(v)`: a number is read back as itself, text goes to the given parser (None = NaN). */
  function ParseFloat(v: FormValue, parse: string -> Option<real>): (r: Option<real>)
    ensures v.Number? ==> r == Some(v.x)
    ensures v.Text? ==> r == parse(v.s)
  {
    match v
    case Text(s) => parse(s)
    case Number(x) => Some(x)
  }

  /** `parseInt(v)`: a number is truncated towards zero, text goes to the given parser (None = NaN). */
  function ParseInt(v: FormValue, parse: string -> Option<int>): (r: Option<int>)
    ensures v.Number? ==> r == Some(Trunc(v.x))
    ensures v.Text? ==> r == parse(v.s)
  {
    match v
    case Text(s) => parse(s)
    case Number(x) => Some(Trunc(x))
  }

  /** `value || ''` for a loaded number: 0 and a missing value both leave the field blank. */
  function ValueField(x: Option<real>): (v: FormValue)
    ensures Truthy(v) <==> TruthyReal(x)
    ensures TruthyReal(x) ==> v == Number(x.value)
    ensures !TruthyReal(x) ==> v == Text("")
  {
    if TruthyReal(x) then Number(x.value) else Text("")
  }

  /** `v ? parseFloat(v) : null`: a blank field is sent as null. */
  function FloatOrNull(v: FormValue, parse: string -> Option<real>): (r: Option<real>)
    ensures !Truthy(v) ==> r.None?
    ensures Truthy(v) ==> r == ParseFloat(v, parse)
  {
    if Truthy(v) then ParseFloat(v, parse) else None
  }

  /** `v ? parseInt(v) : null`. */
  function IntOrNull(v: FormValue, parse: string -> Option<int>): (r: Option<int>)
    ensures !Truthy(v) ==> r.None?
    ensures Truthy(v) ==> r == ParseInt(v, parse)
  {
    if Truthy(v) then ParseInt(v, parse) else None
  }

  /** The end position `a.slice(0, n)` uses on an array of length `len`: negative `n` counts from the end. */
  function SliceEnd(len: nat, n: int): (e: nat)
    ensures e <= len
    ensures 0 <= n ==> e == if n <= len then n else len
    ensures n < 0 ==> e == if len + n >= 0 then len + n else 0
  {
    if n >= 0 then (if n <= len then n else len)
    else if len + n >= 0 then len + n
    else 0
  }

  /** `s.slice(0, n)`, for `n >= 0` the first `n` elements (all if there are fewer). */
  function Take<T>(s: seq<T>, n: nat): (r: seq<T>)
    ensures |r| == if n <= |s| then n else |s|
    ensures r == s[..|r|]
  {
    if n <= |s| then s[..n] else s
  }
}
