/** The parts of JavaScript number semantics the statistics depend on: division
    that can produce an infinity or NaN, comparisons against such values, and
    `Math.round`. Quantities are exact reals; rounding error is not modelled. */
module Numbers {

  /** A JavaScript number as far as the application can observe it. */
  datatype JsNumber = Finite(value: real) | PosInfinity | NegInfinity | NaN

  /** `a / b` for finite operands: division by zero gives an infinity carrying the
      sign of the dividend, and `0 / 0` gives NaN. */
  function Divide(a: real, b: real): (r: JsNumber)
    ensures b != 0.0 ==> r.Finite? && r.value * b == a
    ensures b == 0.0 ==> (r.NaN? <==> a == 0.0)
    ensures b == 0.0 ==> (r.PosInfinity? <==> a > 0.0) && (r.NegInfinity? <==> a < 0.0)
  {
    if b != 0.0 then Finite(a / b)
    else if a > 0.0 then PosInfinity
    else if a < 0.0 then NegInfinity
    else NaN
  }

  /** `x * k` for a positive finite factor `k`: infinities and NaN are absorbing. */
  function Scale(x: JsNumber, k: real): (r: JsNumber)
    requires k > 0.0
    ensures r.Finite? <==> x.Finite?
    ensures x.Finite? ==> r.value == x.value * k
    ensures !x.Finite? ==> r == x
  {
    match x
    case Finite(v) => Finite(v * k)
    case _ => x
  }

  /** `x > t`; every comparison with NaN is false. */
  predicate Greater(x: JsNumber, t: real)
  {
    match x
    case Finite(v) => v > t
    case PosInfinity => true
    case NegInfinity => false
    case NaN => false
  }

  /** `x < t`. */
  predicate Less(x: JsNumber, t: real)
  {
    match x
    case Finite(v) => v < t
    case PosInfinity => false
    case NegInfinity => true
    case NaN => false
  }

  /** `x >= t`. */
  predicate AtLeast(x: JsNumber, t: real)
  {
    match x
    case Finite(v) => v >= t
    case PosInfinity => true
    case NegInfinity => false
    case NaN => false
  }

  /** `Math.round(x)`: the nearest integer, halves rounded towards +infinity. */
  function Round(x: real): (r: int)
    ensures r as real - 0.5 <= x < r as real + 0.5
  {
    (x + 0.5).Floor
  }

  /** The rounding is the only integer within half a unit below-inclusive of `x`. */
  lemma RoundUnique(x: real, n: int)
    requires n as real - 0.5 <= x < n as real + 0.5
    ensures Round(x) == n
  {
    var r := Round(x);
    assert r as real - 0.5 <= x < r as real + 0.5;
    assert (r - n) as real < 1.0 && (n - r) as real < 1.0;
  }

  /** `Math.min(a, b)`. */
  function Min(a: real, b: real): (r: real)
    ensures r <= a && r <= b
    ensures r == a || r == b
  {
    if a <= b then a else b
  }

  /** `Math.max(a, b)`. */
  function Max(a: real, b: real): (r: real)
    ensures r >= a && r >= b
    ensures r == a || r == b
  {
    if a >= b then a else b
  }
}
