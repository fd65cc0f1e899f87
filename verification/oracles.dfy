/** The transcendental functions the statistics engine calls (`math.sqrt`, the normal
    CDF built from `math.erf`, and `math.asin`) are not computed by the model. They are
    carried as function values, and `Lawful` collects the few facts about them that the
    engine's guarantees depend on. */
module Oracles {

  datatype Oracles = Oracles(
    sqrt: real -> real,  // math.sqrt
    phi: real -> real,   // standard normal CDF, (1 + erf(x / sqrt 2)) / 2
    asin: real -> real   // math.asin
  ) {
    /** The oracles are read through these members, which name one value per
        argument whatever the state a proof is in. */
    function Sqrt(x: real): real {
      sqrt(x)
    }

    function Phi(x: real): real {
      phi(x)
    }

    function Asin(x: real): real {
      asin(x)
    }
  }

  /** `Sqrt` is non-negative and strictly increasing on the non-negative reals, with
      `Sqrt(0) = 0` and `Sqrt(1) = 1`. Nothing here needs more of the square root. */
  ghost predicate SqrtLawful(o: Oracles) {
    && (forall x :: 0.0 <= x ==> 0.0 <= o.Sqrt(x))
    && o.Sqrt(0.0) == 0.0
    && (forall x, y :: 0.0 <= x < y ==> o.Sqrt(x) < o.Sqrt(y))
    && o.Sqrt(1.0) == 1.0
  }

  /** `Phi` is a distribution function: values in [0, 1], monotone, and 1/2 at 0. */
  ghost predicate PhiLawful(o: Oracles) {
    && (forall x :: 0.0 <= o.Phi(x) <= 1.0)
    && (forall x, y :: x <= y ==> o.Phi(x) <= o.Phi(y))
    && o.Phi(0.0) == 0.5
  }

  /** `Asin` is strictly increasing on [0, 1]. */
  ghost predicate AsinLawful(o: Oracles) {
    forall x, y :: 0.0 <= x < y <= 1.0 ==> o.Asin(x) < o.Asin(y)
  }

  ghost predicate Lawful(o: Oracles) {
    SqrtLawful(o) && PhiLawful(o) && AsinLawful(o)
  }

  /** Two-tailed p-value of a standard normal statistic, `2 * (1 - phi(|z|))`. */
  function TwoTailed(o: Oracles, z: real): (p: real)
    requires Lawful(o)
    ensures 0.0 <= p <= 1.0
  {
    var a := if z < 0.0 then -z else z;
    assert o.Phi(0.0) <= o.Phi(a);
    2.0 * (1.0 - o.Phi(a))
  }

  /** A statistic of zero gives a p-value of exactly one. */
  lemma TwoTailedAtZero(o: Oracles)
    requires Lawful(o)
    ensures TwoTailed(o, 0.0) == 1.0
  {
  }

  /** The two-tailed p-value depends on the statistic only through its magnitude,
      and a larger magnitude never raises it. */
  lemma TwoTailedMonotone(o: Oracles, z1: real, z2: real)
    requires Lawful(o)
    requires (if z1 < 0.0 then -z1 else z1) <= (if z2 < 0.0 then -z2 else z2)
    ensures TwoTailed(o, z2) <= TwoTailed(o, z1)
  {
    var a1 := if z1 < 0.0 then -z1 else z1;
    var a2 := if z2 < 0.0 then -z2 else z2;
    assert o.Phi(a1) <= o.Phi(a2);
  }

  lemma TwoTailedSymmetric(o: Oracles, z: real)
    requires Lawful(o)
    ensures TwoTailed(o, -z) == TwoTailed(o, z)
  {
  }
}
