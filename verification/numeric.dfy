/** Exact-real counterparts of the small numeric helpers the Python code leans on:
    `abs`, `min`/`max` clamping, `math.ceil`, `round(x, 2)`, and IEEE values that are
    not finite (the validators reject them, so they must be representable). */
module Numeric {

  function Abs(x: real): (r: real)
    ensures r >= 0.0
    ensures r == x || r == -x
  {
    if x < 0.0 then -x else x
  }

  function Min(a: real, b: real): (r: real)
    ensures r <= a && r <= b
    ensures r == a || r == b
  {
    if a <= b then a else b
  }

  function Max(a: real, b: real): (r: real)
    ensures r >= a && r >= b
    ensures r == a || r == b
  {
    if a >= b then a else b
  }

  /** `max(lo, min(hi, x))`: the Python idiom used for every clamp in the engine. */
  function Clamp(lo: real, hi: real, x: real): (r: real)
    requires lo <= hi
    ensures lo <= r <= hi
    ensures lo <= x <= hi ==> r == x
    ensures x < lo ==> r == lo
    ensures x > hi ==> r == hi
  {
    Max(lo, Min(hi, x))
  }

  lemma ClampMonotone(lo: real, hi: real, x: real, y: real)
    requires lo <= hi && x <= y
    ensures Clamp(lo, hi, x) <= Clamp(lo, hi, y)
  {
  }

  /** `int(math.ceil(x))`: the least integer not below `x`. */
  function Ceil(x: real): (r: int)
    ensures x <= r as real < x + 1.0
  {
    -((-x).Floor)
  }

  /** Round half to even, the rule Python's `round` follows on ties. */
  function RoundHalfEven(x: real): (r: int)
    ensures x - 0.5 <= r as real <= x + 0.5
    ensures x == x.Floor as real ==> r == x.Floor
  {
    var f := x.Floor;
    var frac := x - f as real;
    if frac < 0.5 then f
    else if frac > 0.5 then f + 1
    else if f % 2 == 0 then f
    else f + 1
  }

  /** `round(x, 2)` on exact reals: the nearest multiple of 1/100, ties to even. */
  function Round2(x: real): (r: real)
    ensures x - 0.005 <= r <= x + 0.005
  {
    RoundHalfEven(x * 100.0) as real / 100.0
  }

  /** A value already on the hundredths grid is left alone by `Round2`. */
  lemma Round2OnGrid(n: int)
    ensures Round2(n as real / 100.0) == n as real / 100.0
  {
    var x := n as real / 100.0;
    assert x * 100.0 == n as real;
    assert (x * 100.0).Floor == n;
  }

  /** `part / whole * 100 if whole > 0 else 0`: the share of a count in percent. */
  function SharePercent(part: nat, whole: nat): (r: real)
    requires part <= whole
    ensures 0.0 <= r <= 100.0
    ensures whole == 0 ==> r == 0.0
    ensures whole > 0 ==> r == part as real / whole as real * 100.0
    ensures part == whole && whole > 0 ==> r == 100.0
  {
    if whole > 0 then
      assert part as real / whole as real <= 1.0;
      part as real / whole as real * 100.0
    else 0.0
  }

  /** A Python float: a finite value, an infinity, or NaN. */
  datatype Float = Finite(value: real) | PosInf | NegInf | NaN {

    /** `math.isfinite`. */
    predicate IsFinite() {
      Finite?
    }

    /** Python's `self < bound`: false for NaN and +inf, true for -inf. */
    predicate Below(bound: real) {
      match this
      case Finite(v) => v < bound
      case NegInf => true
      case PosInf => false
      case NaN => false
    }

    /** Python's `self > bound`. */
    predicate Above(bound: real) {
      match this
      case Finite(v) => v > bound
      case PosInf => true
      case NegInf => false
      case NaN => false
    }
  }
}
