/** The slice of JavaScript value semantics the client code relies on:
    the `Number(x)` conversion and truthiness of numbers. */
module Js {
  import Text

  /** A JavaScript number: finite (exact real here), NaN, or +/-Infinity. */
  datatype Number = Finite(value: real) | NaN | Infinity(positive: bool)

  /** A JSON-ish field value as the client receives or holds it. */
  datatype Value = Undefined | Null | Bool(b: bool) | Num(n: Number) | Str(s: string)

  /** Numbers are falsy exactly when they are 0 or NaN. */
  predicate Truthy(n: Number) {
    match n
    case Finite(v) => v != 0.0
    case NaN => false
    case Infinity(_) => true
  }

  /** `Number(v)`. A string of whitespace only (the empty string included)
      converts to 0; parsing any other string (ECMAScript StringToNumber)
      is an opaque parameter of the model. */
  function ToNumber(v: Value, parse: string -> Number): Number {
    match v
    case Undefined => NaN
    case Null => Finite(0.0)
    case Bool(b) => if b then Finite(1.0) else Finite(0.0)
    case Num(n) => n
    case Str(s) => if Text.AllSpace(s) then Finite(0.0) else parse(s)
  }

  /** `Number(v) || 0`: the converted number when it is truthy, otherwise 0.
      The result is never NaN, and it is 0 only when the conversion was falsy. */
  function NumberOrZero(v: Value, parse: string -> Number): (r: Number)
    ensures r.NaN? == false
    ensures Truthy(ToNumber(v, parse)) ==> r == ToNumber(v, parse)
    ensures !Truthy(ToNumber(v, parse)) ==> r == Finite(0.0)
    ensures Truthy(r) || r == Finite(0.0)
  {
    var n := ToNumber(v, parse);
    if Truthy(n) then n else Finite(0.0)
  }

  /** Sanitising a value that is already a sanitised number changes nothing. */
  lemma NumberOrZeroIdempotent(v: Value, parse: string -> Number)
    ensures NumberOrZero(Num(NumberOrZero(v, parse)), parse) == NumberOrZero(v, parse)
  {
  }
}
