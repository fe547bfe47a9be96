/**
 * The few PHP value semantics the permission core relies on: scalar values,
 * `empty()`, string conversion and `implode`.
 */
module Php {

  /** A PHP scalar as configuration values carry them (floats are not modelled). */
  datatype Scalar = Null | Bool(b: bool) | Int(i: int) | Str(s: string)

  /** PHP `empty()` on a scalar: null, false, 0, "" and "0" are empty. */
  predicate Empty(x: Scalar) {
    match x
    case Null => true
    case Bool(b) => !b
    case Int(i) => i == 0
    case Str(s) => s == "" || s == "0"
  }

  function Digit(d: nat): char
    requires d < 10
  {
    "0123456789"[d]
  }

  function NatToString(n: nat): (r: string)
    ensures |r| > 0
    decreases n
  {
    if n < 10 then [Digit(n)] else NatToString(n / 10) + [Digit(n % 10)]
  }

  lemma {:induction false} NatToStringNoDash(n: nat)
    ensures '-' !in NatToString(n)
    decreases n
  {
    if n >= 10 { NatToStringNoDash(n / 10); }
  }

  /** Decimal notation of an integer, as PHP writes it. */
  function IntToString(i: int): string {
    if i < 0 then "-" + NatToString(-i) else NatToString(i)
  }

  /** PHP's conversion of a scalar to a string: null and false give "", true gives "1". */
  function ToString(x: Scalar): string {
    match x
    case Null => ""
    case Bool(b) => if b then "1" else ""
    case Int(i) => IntToString(i)
    case Str(s) => s
  }

  /** PHP `implode(sep, xs)`: the string forms of `xs` with `sep` between them. */
  function Implode(sep: string, xs: seq<Scalar>): string
    decreases |xs|
  {
    if xs == [] then ""
    else if |xs| == 1 then ToString(xs[0])
    else ToString(xs[0]) + sep + Implode(sep, xs[1..])
  }
}
