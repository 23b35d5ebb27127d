/**
 * Values as the JavaScript sources see them: a property that may be
 * `undefined` or `null` is an `Option`, and JavaScript's truthiness test
 * (`if (x)`, `x ? a : b`) is written out per kind of value.
 */
module JsValues {

  datatype Option<+T> = None | Some(value: T)

  /** `if (s)` on a string property: absent and the empty string are falsy. */
  predicate StringTruthy(s: Option<string>)
  {
    s.Some? && s.value != ""
  }

  /** `if (n)` on a number property: absent and 0 are falsy (NaN never arises here). */
  predicate NumberTruthy(n: Option<int>)
  {
    n.Some? && n.value != 0
  }

  /** `String.prototype.toLowerCase`, restricted to the ASCII letters. */
  function LowerChar(c: char): (r: char)
    ensures 'A' <= c <= 'Z' ==> r as int == c as int + 32
    ensures !('A' <= c <= 'Z') ==> r == c
    ensures !('A' <= r <= 'Z')
  {
    if 'A' <= c <= 'Z' then (c as int + 32) as char else c
  }

  function ToLowerAscii(s: string): (r: string)
    ensures |r| == |s|
    ensures forall i :: 0 <= i < |s| ==> r[i] == LowerChar(s[i])
  {
    if s == [] then [] else [LowerChar(s[0])] + ToLowerAscii(s[1..])
  }

  /** Lower-casing twice is lower-casing once. */
  lemma ToLowerIdempotent(s: string)
    ensures ToLowerAscii(ToLowerAscii(s)) == ToLowerAscii(s)
  {
  }

  /** `String(x)` of an attribute value: `getAttribute` yields a string or `null`. */
  function AttributeString(a: Option<string>): string
  {
    if a.Some? then a.value else "null"
  }

  /** A property holding a string or a number (a feature's `begin`, `start`, `end`). */
  datatype JsScalar = JsString(str: string) | JsNumber(num: int)

  /** `if (x)` on such a property. */
  predicate ScalarTruthy(x: Option<JsScalar>)
  {
    match x
    case None => false
    case Some(JsString(s)) => s != ""
    case Some(JsNumber(n)) => n != 0
  }

  /**
   * A property whose absence matters only in how it prints: missing
   * (`undefined`), explicitly `null`, or holding a value.
   */
  datatype Nullable<T> = Undefined | Null | Present(value: T)

  /** An object key copied from an optional property: a missing value stays `undefined`. */
  function AsProperty<T>(x: Option<T>): (r: Nullable<T>)
    ensures !r.Null?
    ensures x.Some? <==> r.Present?
    ensures x.Some? ==> r.value == x.value
  {
    if x.Some? then Present(x.value) else Undefined
  }

  /** `Number.isInteger(x) ? x : none`, for a property holding an integer, `undefined` or `null`. */
  function IntegerOf(x: Nullable<int>): (r: Option<int>)
    ensures r.Some? <==> x.Present?
    ensures r.Some? ==> r.value == x.value
  {
    if x.Present? then Some(x.value) else None
  }

  /** `${x}` in a template literal, for a string property that may be missing or `null`. */
  function TemplateText(x: Nullable<string>): string
  {
    match x
    case Undefined => "undefined"
    case Null => "null"
    case Present(v) => v
  }
}
