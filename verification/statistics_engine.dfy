/** The hand-rolled paths of the statistics engine: input validation, Welch's degrees
    of freedom, the z-critical table, Cohen's h, power and sample-size estimates, the
    two significance tests and the effect-size bucket of their conclusion. The engine
    is configured only by its confidence level; `alpha` is `1 - confidence_level`. */
module StatisticsEngine {
  import opened Wrappers
  import opened Numeric
  import opened Oracles
  import opened RealArith
  import Seqs

  datatype Engine = Engine(confidenceLevel: real) {
    /** `self.alpha`. The constructor stores the level as given and never validates it. */
    function Alpha(): real {
      1.0 - confidenceLevel
    }
  }

  /** The `ValueError`s raised by validation, naming the offending parameter, and the
      `RuntimeError` that wraps any other failure inside a test. */
  datatype StatError =
    | SizeNotPositive(param: string)
    | StdNegative(param: string)
    | MeanNotFinite(param: string)
    | StdNotFinite(param: string)
    | TotalNotPositive(param: string)
    | SuccessesNegative(param: string)
    | SuccessesExceedTotal(param: string)
    | ConfidenceOutOfRange
    | NotFinite(param: string)
    | OutOfUnitRange(param: string)
    | BelowMinimum(param: string)
    | NewRateOutOfRange
    | MissingKey(key: string)
    | ComputationFailed

  // ---------------------------------------------------------------------------
  // Validation

  /** The sample a t-test accepts: a positive size, a finite mean and a finite,
      non-negative standard deviation. */
  predicate SampleOk(mean: Float, std: Float, size: int) {
    size > 0 && mean.IsFinite() && std.IsFinite() && std.value >= 0.0
  }

  /** `_validate_sample_data`: the first failing check, in the order size, sign of the
      deviation, finiteness of the mean, finiteness of the deviation. */
  function ValidateSampleData(mean: Float, std: Float, size: int, param: string): (r: Option<StatError>)
    ensures r.None? <==> SampleOk(mean, std, size)
    ensures size <= 0 ==> r == Some(SizeNotPositive(param))
    ensures size > 0 && (std == NegInf || (std.Finite? && std.value < 0.0)) ==> r == Some(StdNegative(param))
    ensures size > 0 && (std.Finite? ==> std.value >= 0.0) && std != NegInf && !mean.IsFinite()
      ==> r == Some(MeanNotFinite(param))
    ensures size > 0 && (std == PosInf || std == NaN) && mean.IsFinite() ==> r == Some(StdNotFinite(param))
  {
    if size <= 0 then Some(SizeNotPositive(param))
    else if std.Below(0.0) then Some(StdNegative(param))
    else if !mean.IsFinite() then Some(MeanNotFinite(param))
    else if !std.IsFinite() then Some(StdNotFinite(param))
    else None
  }

  /** `_validate_proportion_data`: total first, then the sign of the successes, then
      successes against total. */
  function ValidateProportionData(successes: int, total: int, param: string): (r: Option<StatError>)
    ensures r.None? <==> 0 < total && 0 <= successes <= total
    ensures total <= 0 ==> r == Some(TotalNotPositive(param))
    ensures 0 < total && successes < 0 ==> r == Some(SuccessesNegative(param))
    ensures 0 < total < successes ==> r == Some(SuccessesExceedTotal(param))
  {
    if total <= 0 then Some(TotalNotPositive(param))
    else if successes < 0 then Some(SuccessesNegative(param))
    else if successes > total then Some(SuccessesExceedTotal(param))
    else None
  }

  /** `_validate_confidence_level`: strictly between 0 and 1. */
  function ValidateConfidenceLevel(level: real): (r: Option<StatError>)
    ensures r.None? <==> 0.0 < level < 1.0
  {
    if !(0.0 < level < 1.0) then Some(ConfidenceOutOfRange) else None
  }

  /** `_validate_rate`: finite, then within [0, 1]. */
  function ValidateRate(rate: Float, param: string): (r: Option<StatError>)
    ensures r.None? <==> rate.IsFinite() && 0.0 <= rate.value <= 1.0
    ensures !rate.IsFinite() ==> r == Some(NotFinite(param))
  {
    if !rate.IsFinite() then Some(NotFinite(param))
    else if !(0.0 <= rate.value <= 1.0) then Some(OutOfUnitRange(param))
    else None
  }

  /** `_validate_numeric`: finite, then not below the optional minimum. */
  function ValidateNumeric(value: Float, param: string, minValue: Option<real>): (r: Option<StatError>)
    ensures r.None? <==> value.IsFinite() && (minValue.Some? ==> value.value >= minValue.value)
    ensures !value.IsFinite() ==> r == Some(NotFinite(param))
  {
    if !value.IsFinite() then Some(NotFinite(param))
    else if minValue.Some? && value.value < minValue.value then Some(BelowMinimum(param))
    else None
  }

  // ---------------------------------------------------------------------------
  // Helpers

  /** The Welch–Satterthwaite ratio before any clamping. */
  function Satterthwaite(std1: real, n1: int, std2: real, n2: int): real
    requires n1 > 1 && n2 > 1
  {
    var a := Sq(std1) / n1 as real;
    var b := Sq(std2) / n2 as real;
    var den := Sq(a) / (n1 - 1) as real + Sq(b) / (n2 - 1) as real;
    if den == 0.0 then 0.0 else Sq(a + b) / den
  }

  /** `_calculate_welch_df`: 1 when either sample has at most one observation,
      `n1 + n2 - 2` when neither varies, otherwise the Satterthwaite ratio clamped to
      [1, n1 + n2 - 2] (1 when its denominator is not positive). */
  function WelchDf(std1: real, n1: int, std2: real, n2: int): (df: real)
    ensures df >= 1.0
    ensures n1 <= 1 || n2 <= 1 ==> df == 1.0
    ensures n1 > 1 && n2 > 1 ==> df <= (n1 + n2 - 2) as real
    ensures n1 > 1 && n2 > 1 && std1 == 0.0 && std2 == 0.0 ==> df == (n1 + n2 - 2) as real
  {
    if n1 <= 1 || n2 <= 1 then 1.0
    else if std1 == 0.0 && std2 == 0.0 then (n1 + n2 - 2) as real
    else
      var a := Sq(std1) / n1 as real;
      var b := Sq(std2) / n2 as real;
      var den := Sq(a) / (n1 - 1) as real + Sq(b) / (n2 - 1) as real;
      if den > 0.0 then Clamp(1.0, (n1 + n2 - 2) as real, Satterthwaite(std1, n1, std2, n2))
      else 1.0
  }

  /** The two expansions behind the bounds below. */
  lemma SatterthwaiteIdentities(k1: real, k2: real, x: real, y: real)
    ensures (k1 + k2) * (k1 * Sq(x) + k2 * Sq(y)) - Sq(k1 * x + k2 * y) == (k1 * k2) * Sq(x - y)
    ensures Sq(k1 * x + k2 * y) == k1 * (k1 * Sq(x)) + k2 * (k2 * Sq(y)) + 2.0 * ((k1 * k2) * (x * y))
  {
  }

  /** `(k1 x + k2 y)^2` lies between `m (k1 x^2 + k2 y^2)` and `(k1 + k2)(k1 x^2 + k2 y^2)`
      for non-negative `x`, `y` and `m = min(k1, k2)`. */
  lemma SatterthwaiteBounds(k1: real, k2: real, x: real, y: real)
    requires k1 >= 1.0 && k2 >= 1.0 && x >= 0.0 && y >= 0.0
    ensures Sq(k1 * x + k2 * y) <= (k1 + k2) * (k1 * Sq(x) + k2 * Sq(y))
    ensures Min(k1, k2) * (k1 * Sq(x) + k2 * Sq(y)) <= Sq(k1 * x + k2 * y)
  {
    SatterthwaiteIdentities(k1, k2, x, y);
    SqNonNeg(x - y);
    MulNonNeg(k1 * k2, Sq(x - y));
    var m := Min(k1, k2);
    var u := k1 * Sq(x);
    var v := k2 * Sq(y);
    assert m * u <= k1 * u && m * v <= k2 * v by {
      SqNonNeg(x);
      SqNonNeg(y);
      MulNonNeg(k1, Sq(x));
      MulNonNeg(k2, Sq(y));
      MulLe(m, k1, u);
      MulLe(m, k2, v);
    }
    assert 0.0 <= (k1 * k2) * (x * y) by {
      MulNonNeg(x, y);
      MulNonNeg(k1 * k2, x * y);
    }
    assert m * (u + v) == m * u + m * v;
  }

  /** The ratio `(a + b)^2 / (a^2 / k1 + b^2 / k2)` for non-negative `a`, `b`, not both
      zero, has a positive denominator and lies within [min(k1, k2), k1 + k2]. */
  lemma RatioBounds(a: real, b: real, k1: real, k2: real)
    requires a >= 0.0 && b >= 0.0 && (a > 0.0 || b > 0.0) && k1 >= 1.0 && k2 >= 1.0
    ensures Sq(a) / k1 + Sq(b) / k2 > 0.0
    ensures Min(k1, k2) <= Sq(a + b) / (Sq(a) / k1 + Sq(b) / k2) <= k1 + k2
  {
    UnscaledBounds(a, b, k1, k2);
    DivBetween(Sq(a + b), Sq(a) / k1 + Sq(b) / k2, Min(k1, k2), k1 + k2);
  }

  /** `SatterthwaiteBounds` for `x = a / k1` and `y = b / k2`, where the denominator is
      also positive. */
  lemma UnscaledBounds(a: real, b: real, k1: real, k2: real)
    requires a >= 0.0 && b >= 0.0 && (a > 0.0 || b > 0.0) && k1 >= 1.0 && k2 >= 1.0
    ensures Sq(a) / k1 + Sq(b) / k2 > 0.0
    ensures Sq(a + b) <= (k1 + k2) * (Sq(a) / k1 + Sq(b) / k2)
    ensures Min(k1, k2) * (Sq(a) / k1 + Sq(b) / k2) <= Sq(a + b)
  {
    UnscaledPositive(a, b, k1, k2);
    UnscaledUpper(a, b, k1, k2);
    UnscaledLower(a, b, k1, k2);
  }

  lemma UnscaledPositive(a: real, b: real, k1: real, k2: real)
    requires a >= 0.0 && b >= 0.0 && (a > 0.0 || b > 0.0) && k1 >= 1.0 && k2 >= 1.0
    ensures Sq(a) / k1 + Sq(b) / k2 > 0.0
  {
    Rescaled(a, b, k1, k2);
    WeightedSquaresPositive(k1, k2, a / k1, b / k2);
  }

  lemma UnscaledUpper(a: real, b: real, k1: real, k2: real)
    requires a >= 0.0 && b >= 0.0 && (a > 0.0 || b > 0.0) && k1 >= 1.0 && k2 >= 1.0
    ensures Sq(a + b) <= (k1 + k2) * (Sq(a) / k1 + Sq(b) / k2)
  {
    Rescaled(a, b, k1, k2);
    SatterthwaiteBounds(k1, k2, a / k1, b / k2);
    MulEqLeft(k1 + k2, Sq(a) / k1 + Sq(b) / k2, k1 * Sq(a / k1) + k2 * Sq(b / k2));
  }

  lemma UnscaledLower(a: real, b: real, k1: real, k2: real)
    requires a >= 0.0 && b >= 0.0 && (a > 0.0 || b > 0.0) && k1 >= 1.0 && k2 >= 1.0
    ensures Min(k1, k2) * (Sq(a) / k1 + Sq(b) / k2) <= Sq(a + b)
  {
    Rescaled(a, b, k1, k2);
    SatterthwaiteBounds(k1, k2, a / k1, b / k2);
    MulEqLeft(Min(k1, k2), Sq(a) / k1 + Sq(b) / k2, k1 * Sq(a / k1) + k2 * Sq(b / k2));
  }

  /** The sum and the weighted squares of `a` and `b` in terms of `a / k1` and `b / k2`. */
  lemma Rescaled(a: real, b: real, k1: real, k2: real)
    requires a >= 0.0 && b >= 0.0 && (a > 0.0 || b > 0.0) && k1 >= 1.0 && k2 >= 1.0
    ensures Sq(a + b) == Sq(k1 * (a / k1) + k2 * (b / k2))
    ensures Sq(a) / k1 + Sq(b) / k2 == k1 * Sq(a / k1) + k2 * Sq(b / k2)
    ensures 0.0 <= a / k1 && 0.0 <= b / k2 && (a / k1 > 0.0 || b / k2 > 0.0)
  {
    ScaledParts(a, k1);
    ScaledParts(b, k2);
    SqEq(a + b, k1 * (a / k1) + k2 * (b / k2));
  }

  /** `a = k (a / k)`, and `a^2 / k = k (a / k)^2`, with `a / k` of the sign of `a`. */
  lemma ScaledParts(a: real, k: real)
    requires a >= 0.0 && k >= 1.0
    ensures a == k * (a / k) && Sq(a) / k == k * Sq(a / k)
    ensures 0.0 <= a / k && (a > 0.0 ==> a / k > 0.0)
  {
    DivCancel(a, k);
    DivNonNeg(a, k);
    ScaledSq(k, a / k);
    if a > 0.0 {
      DivPos(a, k);
    }
  }

  /** `k1 x^2 + k2 y^2` is positive when a weight-one-or-more sum has a nonzero part. */
  lemma WeightedSquaresPositive(k1: real, k2: real, x: real, y: real)
    requires k1 >= 1.0 && k2 >= 1.0 && x >= 0.0 && y >= 0.0 && (x > 0.0 || y > 0.0)
    ensures k1 * Sq(x) + k2 * Sq(y) > 0.0
  {
    SqNonNeg(x);
    SqNonNeg(y);
    MulNonNeg(k1, Sq(x));
    MulNonNeg(k2, Sq(y));
    if x > 0.0 {
      SqPos(x);
      MulPos(k1, Sq(x));
    } else {
      SqPos(y);
      MulPos(k2, Sq(y));
    }
  }

  /** Whenever the Satterthwaite branch is taken, its ratio already lies between
      `min(n1, n2) - 1` and `n1 + n2 - 2`: the clamp never changes it and the
      non-positive-denominator guard never fires on exact values. */
  lemma WelchDfIsSatterthwaite(std1: real, n1: int, std2: real, n2: int)
    requires n1 > 1 && n2 > 1 && !(std1 == 0.0 && std2 == 0.0)
    ensures WelchDf(std1, n1, std2, n2) == Satterthwaite(std1, n1, std2, n2)
    ensures Min((n1 - 1) as real, (n2 - 1) as real) <= WelchDf(std1, n1, std2, n2) <= (n1 + n2 - 2) as real
  {
    var a := Sq(std1) / n1 as real;
    var b := Sq(std2) / n2 as real;
    SqNonNeg(std1);
    SqNonNeg(std2);
    DivNonNeg(Sq(std1), n1 as real);
    DivNonNeg(Sq(std2), n2 as real);
    if std1 != 0.0 {
      SqPos(std1);
      DivPos(Sq(std1), n1 as real);
    } else {
      SqPos(std2);
      DivPos(Sq(std2), n2 as real);
    }
    RatioBounds(a, b, (n1 - 1) as real, (n2 - 1) as real);
  }

  /** `_get_z_critical`: the two-sided critical values for 90, 95 and 99 percent and
      the one-sided value for 80 percent; anything else falls back to 1.96. */
  function ZCritical(confidence: real): (z: real)
    ensures confidence == 0.80 ==> z == 1.282
    ensures confidence == 0.90 ==> z == 1.645
    ensures confidence == 0.95 ==> z == 1.96
    ensures confidence == 0.99 ==> z == 2.576
    ensures confidence !in {0.90, 0.95, 0.99, 0.80} ==> z == 1.96
    ensures 1.282 <= z <= 2.576
  {
    if confidence == 0.90 then 1.645
    else if confidence == 0.95 then 1.96
    else if confidence == 0.99 then 2.576
    else if confidence == 0.80 then 1.282
    else 1.96
  }

  /** Among the tabulated levels a higher confidence needs a larger critical value. */
  lemma ZCriticalIncreasing(c1: real, c2: real)
    requires c1 in {0.80, 0.90, 0.95, 0.99} && c2 in {0.80, 0.90, 0.95, 0.99}
    requires c1 < c2
    ensures ZCritical(c1) < ZCritical(c2)
  {
  }

  /** `_t_to_p_value`: the normal two-tailed value, capped at 1 when `df <= 30`. */
  function TToPValue(o: Oracles, t: real, df: real): (p: real)
    requires Lawful(o)
    ensures 0.0 <= p <= 1.0
  {
    if df > 30.0 then TwoTailed(o, t) else Min(TwoTailed(o, t), 1.0)
  }

  /** The cap never binds, so the degrees of freedom never change the p-value. */
  lemma TToPValueIgnoresDf(o: Oracles, t: real, df1: real, df2: real)
    requires Lawful(o)
    ensures TToPValue(o, t, df1) == TToPValue(o, t, df2) == TwoTailed(o, t)
  {
  }

  /** The square root maps [0, 1] into [0, 1]. */
  lemma SqrtUnit(o: Oracles, p: real)
    requires Lawful(o) && 0.0 <= p <= 1.0
    ensures 0.0 <= o.Sqrt(p) <= 1.0
  {
    if p < 1.0 {
      assert o.Sqrt(p) < o.Sqrt(1.0);
    }
  }

  /** `_cohens_h`: both proportions are clamped into [0, 1] before the arcsine
      transform, and the distance between the transforms is returned. */
  function CohensH(o: Oracles, p1: real, p2: real): (h: real)
    requires Lawful(o)
    ensures h >= 0.0
  {
    var c1 := Clamp(0.0, 1.0, p1);
    var c2 := Clamp(0.0, 1.0, p2);
    Abs(2.0 * o.Asin(o.Sqrt(c1)) - 2.0 * o.Asin(o.Sqrt(c2)))
  }

  lemma CohensHSymmetric(o: Oracles, p1: real, p2: real)
    requires Lawful(o)
    ensures CohensH(o, p1, p2) == CohensH(o, p2, p1)
  {
  }

  /** The arcsine-of-root transform is strictly increasing on [0, 1]. */
  lemma TransformIncreasing(o: Oracles, p: real, q: real)
    requires Lawful(o) && 0.0 <= p < q <= 1.0
    ensures o.Asin(o.Sqrt(p)) < o.Asin(o.Sqrt(q))
  {
    SqrtUnit(o, p);
    SqrtUnit(o, q);
    assert o.Sqrt(p) < o.Sqrt(q);
  }

  /** Cohen's h is zero exactly when the clamped proportions coincide. */
  lemma CohensHZeroIff(o: Oracles, p1: real, p2: real)
    requires Lawful(o)
    ensures CohensH(o, p1, p2) == 0.0 <==> Clamp(0.0, 1.0, p1) == Clamp(0.0, 1.0, p2)
  {
    var c1 := Clamp(0.0, 1.0, p1);
    var c2 := Clamp(0.0, 1.0, p2);
    if c1 < c2 {
      TransformIncreasing(o, c1, c2);
    } else if c2 < c1 {
      TransformIncreasing(o, c2, c1);
    }
  }

  /** Moving one proportion further from the other never shrinks Cohen's h. */
  lemma CohensHMonotone(o: Oracles, p: real, q1: real, q2: real)
    requires Lawful(o)
    requires 0.0 <= p <= q1 <= q2 <= 1.0
    ensures CohensH(o, q1, p) <= CohensH(o, q2, p)
  {
    if p < q1 {
      TransformIncreasing(o, p, q1);
    }
    if q1 < q2 {
      TransformIncreasing(o, q1, q2);
    }
  }

  /** One minus the normal CDF at `z - ncp`, clamped to [0, 1]: the chance that a
      statistic centred at `ncp` clears the critical value `z`. */
  function UpperTail(o: Oracles, z: real, ncp: real): (p: real)
    requires Lawful(o)
    ensures 0.0 <= p <= 1.0
  {
    Clamp(0.0, 1.0, 1.0 - o.Phi(z - ncp))
  }

  /** The non-centrality of a two-sample test with `totalN` observations in all:
      `effect * sqrt(n / 2)`. */
  function Ncp(o: Oracles, effect: real, totalN: int): real {
    effect * o.Sqrt(totalN as real / 2.0)
  }

  /** `_calculate_power`: zero without an effect or without observations; otherwise
      the upper tail at the non-centrality. The total must be non-negative, as
      `math.sqrt` rejects negative arguments. */
  function Power(o: Oracles, eng: Engine, effect: real, totalN: int): (power: real)
    requires Lawful(o) && totalN >= 0
    ensures 0.0 <= power <= 1.0
    ensures effect == 0.0 || totalN == 0 ==> power == 0.0
  {
    if effect == 0.0 || totalN == 0 then 0.0
    else UpperTail(o, ZCritical(eng.confidenceLevel), Ncp(o, effect, totalN))
  }

  /** The square root is monotone on the non-negative reals. */
  lemma SqrtMonotone(o: Oracles, x: real, y: real)
    requires Lawful(o) && 0.0 <= x <= y
    ensures 0.0 <= o.Sqrt(x) <= o.Sqrt(y)
  {
    if x < y {
      assert o.Sqrt(x) < o.Sqrt(y);
    }
  }

  /** The non-centrality grows with both the effect and the number of observations. */
  lemma NcpMonotone(o: Oracles, d1: real, d2: real, n1: int, n2: int)
    requires Lawful(o)
    requires 0.0 < d1 <= d2 && 0 <= n1 <= n2
    ensures Ncp(o, d1, n1) <= Ncp(o, d2, n2)
  {
    SqrtMonotone(o, n1 as real / 2.0, n2 as real / 2.0);
    MulMonotone(d1, d2, o.Sqrt(n1 as real / 2.0), o.Sqrt(n2 as real / 2.0));
  }

  /** The upper tail grows with the non-centrality. */
  lemma UpperTailMonotone(o: Oracles, z: real, a: real, b: real)
    requires Lawful(o) && a <= b
    ensures UpperTail(o, z, a) <= UpperTail(o, z, b)
  {
    assert o.Phi(z - b) <= o.Phi(z - a);
    ClampMonotone(0.0, 1.0, 1.0 - o.Phi(z - a), 1.0 - o.Phi(z - b));
  }

  /** A larger effect, or more observations, never lowers the estimated power. */
  lemma PowerMonotone(o: Oracles, eng: Engine, d1: real, d2: real, n1: int, n2: int)
    requires Lawful(o)
    requires 0.0 < d1 <= d2 && 0 < n1 <= n2
    ensures Power(o, eng, d1, n1) <= Power(o, eng, d2, n2)
  {
    NcpMonotone(o, d1, d2, n1, n2);
    UpperTailMonotone(o, ZCritical(eng.confidenceLevel), Ncp(o, d1, n1), Ncp(o, d2, n2));
  }

  /** `_calculate_power_scipy` with the normal CDF and the foreign critical value
      `zAlpha = |norm.ppf(alpha / 2)|` supplied: two-sided power at the smaller
      sample, clamped; the simple estimate when there is no effect or an empty sample. */
  function PowerScipy(o: Oracles, eng: Engine, effect: real, n1: int, n2: int, zAlpha: real): (power: real)
    requires Lawful(o) && n1 >= 0 && n2 >= 0
    ensures 0.0 <= power <= 1.0
    ensures effect == 0.0 ==> power == 0.0
    ensures n1 == 0 || n2 == 0 ==> power == Power(o, eng, effect, n1 + n2)
  {
    if effect == 0.0 || n1 == 0 || n2 == 0 then Power(o, eng, effect, n1 + n2)
    else
      var n := if n1 <= n2 then n1 else n2;
      var ncp := Ncp(o, effect, n);
      Clamp(0.0, 1.0, 1.0 - o.Phi(zAlpha - ncp) + o.Phi(-zAlpha - ncp))
  }

  /** The planned sample: `max(ceil(n), 100)` per group. */
  function AtLeastHundred(n: real): (r: int)
    ensures r >= 100 && r as real >= n
    ensures n > 100.0 ==> r as real < n + 1.0
    ensures r > 100 ==> n > 100.0
  {
    var c := Ceil(n);
    if c >= 100 then c else 100
  }

  lemma AtLeastHundredMonotone(x: real, y: real)
    requires x <= y
    ensures AtLeastHundred(x) <= AtLeastHundred(y)
  {
  }

  /** `max(ceil(x), 100)` is strictly smaller than `max(ceil(y), 100)` once the former
      is above the floor and `y` exceeds `x` by more than one. */
  lemma AtLeastHundredStrict(x: real, y: real)
    requires AtLeastHundred(x) > 100 && y > x + 1.0
    ensures AtLeastHundred(x) < AtLeastHundred(y)
  {
  }

  /** `_calculate_sample_size_needed`: the sentinel 10000 without an effect, otherwise
      `2 ((z_alpha + z_beta) / d)^2` rounded up and floored at 100. */
  function SampleSizeNeeded(effect: real, power: real, alpha: real): (n: int)
    ensures n >= 100
    ensures effect == 0.0 ==> n == 10000
    ensures effect != 0.0 ==> n as real >= 2.0 * Sq((ZCritical(1.0 - alpha) + ZCritical(power)) / effect)
    ensures effect != 0.0 && n > 100 ==> (n as real) < 2.0 * Sq((ZCritical(1.0 - alpha) + ZCritical(power)) / effect) + 1.0
  {
    if effect == 0.0 then 10000
    else AtLeastHundred(2.0 * Sq((ZCritical(1.0 - alpha) + ZCritical(power)) / effect))
  }

  /** `(z / d)^2` shrinks as the positive effect `d` grows. */
  lemma QuotientSquareAntitone(z: real, d1: real, d2: real)
    requires z > 0.0 && 0.0 < d1 <= d2
    ensures Sq(z / d2) <= Sq(z / d1)
  {
    DivAntitone(z, d1, d2);
    DivPos(z, d2);
    SqLe(z / d2, z / d1);
  }

  /** A larger positive effect never needs more observations. */
  lemma SampleSizeNeededAntitone(d1: real, d2: real, power: real, alpha: real)
    requires 0.0 < d1 <= d2
    ensures SampleSizeNeeded(d2, power, alpha) <= SampleSizeNeeded(d1, power, alpha)
  {
    var z := ZCritical(1.0 - alpha) + ZCritical(power);
    QuotientSquareAntitone(z, d1, d2);
    AtLeastHundredMonotone(2.0 * Sq(z / d2), 2.0 * Sq(z / d1));
  }

  /** `_calculate_sample_size_needed_scipy` with the foreign critical values supplied:
      the same formula, and the simple estimate when there is no effect. */
  function SampleSizeNeededScipy(effect: real, power: real, alpha: real, zAlpha: real, zBeta: real): (n: int)
    ensures n >= 100
    ensures effect == 0.0 ==> n == 10000
    ensures effect != 0.0 ==> n as real >= 2.0 * Sq((zAlpha + zBeta) / effect)
    ensures effect != 0.0 && n > 100 ==> (n as real) < 2.0 * Sq((zAlpha + zBeta) / effect) + 1.0
  {
    if effect == 0.0 then SampleSizeNeeded(effect, power, alpha)
    else AtLeastHundred(2.0 * Sq((zAlpha + zBeta) / effect))
  }

  // ---------------------------------------------------------------------------
  // Minimum sample size planner

  /** A rate `_validate_rate` accepts. */
  predicate RateOk(rate: Float) {
    rate.IsFinite() && 0.0 <= rate.value <= 1.0
  }

  /** A lift `_validate_numeric` accepts with the minimum -1. */
  predicate LiftOk(lift: Float) {
    lift.IsFinite() && lift.value >= -1.0
  }

  /** The inputs `calculate_minimum_sample_size` accepts. */
  predicate PlanInputsOk(baseline: Float, lift: Float, power: Float) {
    && RateOk(baseline) && LiftOk(lift) && RateOk(power)
    && baseline.value * (1.0 + lift.value) <= 1.0
  }

  /** The checks `calculate_minimum_sample_size` runs before sizing: the baseline,
      the lift and the power in that order, then the lifted rate, which must stay
      within [0, 1]. The first failure is reported. */
  function PlanInputError(baseline: Float, lift: Float, power: Float): (e: Option<StatError>)
    ensures e.None? <==> PlanInputsOk(baseline, lift, power)
    ensures !baseline.IsFinite() ==> e == Some(NotFinite("baseline_rate"))
    ensures baseline.IsFinite() && !(0.0 <= baseline.value <= 1.0) ==> e == Some(OutOfUnitRange("baseline_rate"))
    ensures RateOk(baseline) && !lift.IsFinite() ==> e == Some(NotFinite("expected_lift"))
    ensures RateOk(baseline) && lift.IsFinite() && lift.value < -1.0 ==> e == Some(BelowMinimum("expected_lift"))
    ensures RateOk(baseline) && LiftOk(lift) && !power.IsFinite() ==> e == Some(NotFinite("power"))
    ensures (RateOk(baseline) && LiftOk(lift) && power.IsFinite() && !(0.0 <= power.value <= 1.0))
      ==> e == Some(OutOfUnitRange("power"))
    ensures (RateOk(baseline) && LiftOk(lift) && RateOk(power) && baseline.value * (1.0 + lift.value) > 1.0)
      ==> e == Some(NewRateOutOfRange)
  {
    var e1 := ValidateRate(baseline, "baseline_rate");
    if e1.Some? then e1
    else
      var e2 := ValidateNumeric(lift, "expected_lift", Some(-1.0));
      if e2.Some? then e2
      else
        var e3 := ValidateRate(power, "power");
        if e3.Some? then e3
        else
          var newRate := baseline.value * (1.0 + lift.value);
          MulNonNeg(baseline.value, 1.0 + lift.value);
          if newRate < 0.0 || newRate > 1.0 then Some(NewRateOutOfRange) else None
  }

  /** `calculate_minimum_sample_size` on its fallback path: the first failing input
      check, otherwise each group sized as `((z_conf + z_power) / h)^2` rounded up and
      floored at 100 (no factor 2 here), or 10000 when Cohen's h is zero. */
  function MinimumSampleSize(o: Oracles, eng: Engine, baseline: Float, lift: Float, power: Float): (r: Result<int, StatError>)
    requires Lawful(o)
    ensures r.Ok? <==> PlanInputsOk(baseline, lift, power)
    ensures r.Err? ==> Some(r.error) == PlanInputError(baseline, lift, power)
    ensures r.Ok? ==> r.value >= 100
    ensures r.Ok? && (lift.value == 0.0 || baseline.value == 0.0) ==> r.value == 10000
    ensures r.Ok? ==> r.value == PlannedSize(o, eng, baseline.value, baseline.value * (1.0 + lift.value), power.value)
  {
    match PlanInputError(baseline, lift, power)
    case Some(err) => Err(err)
    case None =>
      var b := baseline.value;
      var newRate := b * (1.0 + lift.value);
      MulNonNeg(b, 1.0 + lift.value);
      CohensHZeroIff(o, b, newRate);
      Ok(PlannedSize(o, eng, b, newRate, power.value))
  }

  /** The sizing step of the planner, once the lifted rate is known. */
  function PlannedSize(o: Oracles, eng: Engine, b: real, newRate: real, power: real): (n: int)
    requires Lawful(o)
    ensures n >= 100
    ensures CohensH(o, b, newRate) == 0.0 ==> n == 10000
    ensures CohensH(o, b, newRate) != 0.0 ==>
      n as real >= Sq((ZCritical(eng.confidenceLevel) + ZCritical(power)) / CohensH(o, b, newRate))
    ensures CohensH(o, b, newRate) != 0.0 && n > 100 ==>
      (n as real) < Sq((ZCritical(eng.confidenceLevel) + ZCritical(power)) / CohensH(o, b, newRate)) + 1.0
  {
    var h := CohensH(o, b, newRate);
    if h > 0.0 then AtLeastHundred(Sq((ZCritical(eng.confidenceLevel) + ZCritical(power)) / h))
    else 10000
  }

  /** The arithmetic behind the power comparison: with `A = z + 1.282` and
      `B = z + 1.645` for a tabulated `z`, `(B/h)^2` exceeds `(A/h)^2`, and by more
      than one once `(A/h)^2` is above 99. */
  lemma PowerGap(za: real, h: real)
    requires 1.282 <= za <= 2.576 && h > 0.0
    ensures Sq((za + 1.282) / h) < Sq((za + 1.645) / h)
    ensures Sq((za + 1.282) / h) > 99.0 ==> Sq((za + 1.645) / h) > Sq((za + 1.282) / h) + 1.0
  {
    var a := za + 1.282;
    var q8 := a / h;
    var g := 0.363 / h;
    var q9 := (za + 1.645) / h;
    assert q9 == q8 + g;
    DivPos(a, h);
    DivPos(0.363, h);
    SqLt(q8, q9);
    assert Sq(q9) == Sq(q8) + 2.0 * (q8 * g) + Sq(g);
    SqNonNeg(g);
    var c := 0.363 / a;
    DivChain(0.363, a, h);
    assert g == c * q8;
    assert q8 * g == c * Sq(q8);
    DivGe(0.363, a, 0.09);
    SqNonNeg(q8);
    MulLe(0.09, c, Sq(q8));
  }

  /** Asking for 90 percent power never needs fewer observations than 80 percent,
      and, when the rates differ, strictly more once the 80 percent plan is above the
      floor of 100. */
  lemma PlannedSizeGrowsWithPower(o: Oracles, eng: Engine, b: real, newRate: real)
    requires Lawful(o)
    ensures PlannedSize(o, eng, b, newRate, 0.80) <= PlannedSize(o, eng, b, newRate, 0.90)
    ensures Clamp(0.0, 1.0, b) != Clamp(0.0, 1.0, newRate) && PlannedSize(o, eng, b, newRate, 0.80) > 100
      ==> PlannedSize(o, eng, b, newRate, 0.80) < PlannedSize(o, eng, b, newRate, 0.90)
  {
    var h := CohensH(o, b, newRate);
    CohensHZeroIff(o, b, newRate);
    if h > 0.0 {
      var za := ZCritical(eng.confidenceLevel);
      PowerGap(za, h);
      var x := Sq((za + 1.282) / h);
      var y := Sq((za + 1.645) / h);
      assert PlannedSize(o, eng, b, newRate, 0.80) == AtLeastHundred(x);
      assert PlannedSize(o, eng, b, newRate, 0.90) == AtLeastHundred(y);
      AtLeastHundredMonotone(x, y);
      if AtLeastHundred(x) > 100 {
        assert x > 99.0;
        AtLeastHundredStrict(x, y);
      }
    }
  }

  // ---------------------------------------------------------------------------
  // Tests and conclusions

  datatype EffectBucket = Small | Medium | Large

  /** The effect-size label of `_generate_conclusion`. */
  function Bucket(effect: real): (b: EffectBucket)
    ensures b == Small <==> effect < 0.2
    ensures b == Large <==> effect >= 0.5
  {
    if effect < 0.2 then Small else if effect < 0.5 then Medium else Large
  }

  function BucketRank(b: EffectBucket): nat {
    match b
    case Small => 0
    case Medium => 1
    case Large => 2
  }

  /** A larger effect never gets a smaller label. */
  lemma BucketMonotone(e1: real, e2: real)
    requires e1 <= e2
    ensures BucketRank(Bucket(e1)) <= BucketRank(Bucket(e2))
  {
  }

  /** The direction word of `_generate_conclusion`: "increase" exactly when the
      percentage change from `value2` to `value1` is positive, which needs a nonzero
      `value2`. */
  function ChangeIsIncrease(value1: real, value2: real): (inc: bool)
    ensures value2 > 0.0 ==> (inc <==> value1 > value2)
    ensures value2 < 0.0 ==> (inc <==> value1 < value2)
    ensures value2 == 0.0 ==> !inc
  {
    var change := if value2 != 0.0 then (value1 - value2) / value2 * 100.0 else 0.0;
    assert value2 > 0.0 ==> ((value1 - value2) / value2 > 0.0 <==> value1 - value2 > 0.0);
    assert value2 < 0.0 ==> ((value1 - value2) / value2 > 0.0 <==> value1 - value2 < 0.0);
    change > 0.0
  }

  /** What the conclusion text says: significance, direction and effect label. */
  datatype Conclusion = Conclusion(significant: bool, increase: bool, effect: EffectBucket)

  datatype TestType = WelchTTest | ProportionsZTest

  datatype StatisticalResult = StatisticalResult(
    isSignificant: bool,
    pValue: real,
    confidenceLevel: real,
    effectSize: real,
    power: real,
    sampleSizeNeeded: int,
    testType: TestType,
    conclusion: Conclusion
  )

  /** What both tests promise about a result they return. */
  predicate WellFormed(eng: Engine, r: StatisticalResult) {
    && 0.0 <= r.pValue <= 1.0
    && r.effectSize >= 0.0
    && 0.0 <= r.power <= 1.0
    && r.sampleSizeNeeded >= 100
    && r.confidenceLevel == eng.confidenceLevel
    && (r.isSignificant <==> r.pValue < eng.Alpha())
    && r.conclusion.significant == r.isSignificant
    && r.conclusion.effect == Bucket(r.effectSize)
  }

  /** Cohen's d of the t-test: the absolute mean difference over the pooled standard
      deviation, or 0 when that is 0. Two one-observation samples divide by zero. */
  function CohensD(o: Oracles, m1: real, s1: real, n1: int, m2: real, s2: real, n2: int): (r: Option<real>)
    requires Lawful(o)
    ensures r.None? <==> n1 + n2 - 2 == 0
    ensures r.Some? ==> r.value >= 0.0
    ensures r.Some? && m1 == m2 ==> r.value == 0.0
  {
    if n1 + n2 - 2 == 0 then None
    else
      var pooled := o.Sqrt(((n1 - 1) as real * Sq(s1) + (n2 - 1) as real * Sq(s2)) / (n1 + n2 - 2) as real);
      Some(if pooled > 0.0 then Abs(m1 - m2) / pooled else 0.0)
  }

  /** The pooled deviation does not depend on which sample comes first. */
  lemma CohensDSymmetric(o: Oracles, m1: real, s1: real, n1: int, m2: real, s2: real, n2: int)
    requires Lawful(o)
    ensures CohensD(o, m2, s2, n2, m1, s1, n1) == CohensD(o, m1, s1, n1, m2, s2, n2)
  {
    assert (n1 - 1) as real * Sq(s1) + (n2 - 1) as real * Sq(s2)
        == (n2 - 1) as real * Sq(s2) + (n1 - 1) as real * Sq(s1);
    assert Abs(m1 - m2) == Abs(m2 - m1);
  }

  /** Welch's t statistic: the mean difference over the combined standard error, or 0
      when the error is 0. */
  function TStatistic(o: Oracles, m1: real, s1: real, n1: int, m2: real, s2: real, n2: int): real
    requires n1 > 0 && n2 > 0
  {
    var se := o.Sqrt(Sq(s1) / n1 as real + Sq(s2) / n2 as real);
    if se > 0.0 then (m1 - m2) / se else 0.0
  }

  /** Swapping the samples flips the sign of the statistic. */
  lemma TStatisticAntisymmetric(o: Oracles, m1: real, s1: real, n1: int, m2: real, s2: real, n2: int)
    requires n1 > 0 && n2 > 0
    ensures TStatistic(o, m2, s2, n2, m1, s1, n1) == -TStatistic(o, m1, s1, n1, m2, s2, n2)
  {
    var v := Sq(s1) / n1 as real + Sq(s2) / n2 as real;
    assert Sq(s2) / n2 as real + Sq(s1) / n1 as real == v;
    var se := o.Sqrt(v);
    if se > 0.0 {
      assert (m2 - m1) / se == -((m1 - m2) / se);
    }
  }

  /** The computing half of `t_test_two_sample`, once both samples are valid: the
      statistic, its p-value, Cohen's d, the power over `n1 + n2` observations and the
      size needed for 80 percent power. */
  function TTestFromStats(o: Oracles, eng: Engine, m1: real, s1: real, n1: int, m2: real, s2: real, n2: int)
    : (r: Result<StatisticalResult, StatError>)
    requires Lawful(o) && n1 > 0 && n2 > 0
    ensures r.Ok? <==> !(n1 == 1 && n2 == 1)
    ensures r.Err? ==> r.error == ComputationFailed
    ensures r.Ok? ==> WellFormed(eng, r.value) && r.value.testType == WelchTTest
    ensures r.Ok? ==> r.value.conclusion.increase == ChangeIsIncrease(m1, m2)
    ensures r.Ok? ==> r.value.pValue == TwoTailed(o, TStatistic(o, m1, s1, n1, m2, s2, n2))
    ensures r.Ok? ==> r.value.effectSize == CohensD(o, m1, s1, n1, m2, s2, n2).value
    ensures r.Ok? ==> r.value.power == Power(o, eng, r.value.effectSize, n1 + n2)
    ensures r.Ok? ==> r.value.sampleSizeNeeded == SampleSizeNeeded(r.value.effectSize, 0.80, eng.Alpha())
  {
    var t := TStatistic(o, m1, s1, n1, m2, s2, n2);
    var df := WelchDf(s1, n1, s2, n2);
    var p := TToPValue(o, Abs(t), df);
    TwoTailedSymmetric(o, t);
    match CohensD(o, m1, s1, n1, m2, s2, n2)
    case None => Err(ComputationFailed)
    case Some(d) =>
      var power := Power(o, eng, d, n1 + n2);
      var needed := SampleSizeNeeded(d, 0.80, eng.Alpha());
      var significant := p < eng.Alpha();
      Ok(StatisticalResult(significant, p, eng.confidenceLevel, d, power, needed, WelchTTest,
                           Conclusion(significant, ChangeIsIncrease(m1, m2), Bucket(d))))
  }

  /** Swapping the two samples changes neither the p-value, nor the effect size, the
      power, the planned size or the verdict. */
  lemma TTestFromStatsSymmetric(o: Oracles, eng: Engine, m1: real, s1: real, n1: int, m2: real, s2: real, n2: int)
    requires Lawful(o) && n1 > 0 && n2 > 0
    requires TTestFromStats(o, eng, m1, s1, n1, m2, s2, n2).Ok?
    ensures TTestFromStats(o, eng, m2, s2, n2, m1, s1, n1).Ok?
    ensures var a := TTestFromStats(o, eng, m1, s1, n1, m2, s2, n2).value;
      var b := TTestFromStats(o, eng, m2, s2, n2, m1, s1, n1).value;
      a.pValue == b.pValue && a.effectSize == b.effectSize && a.power == b.power
      && a.sampleSizeNeeded == b.sampleSizeNeeded && a.isSignificant == b.isSignificant
  {
    TStatisticAntisymmetric(o, m1, s1, n1, m2, s2, n2);
    TwoTailedSymmetric(o, TStatistic(o, m1, s1, n1, m2, s2, n2));
    CohensDSymmetric(o, m1, s1, n1, m2, s2, n2);
    assert n1 + n2 == n2 + n1;
  }

  /** `t_test_two_sample` on its fallback path: validate both samples (the first
      first), then compute. */
  function TTest(o: Oracles, eng: Engine, mean1: Float, std1: Float, size1: int,
                 mean2: Float, std2: Float, size2: int): (r: Result<StatisticalResult, StatError>)
    requires Lawful(o)
    ensures ValidateSampleData(mean1, std1, size1, "sample1").Some? ==> r == Err(ValidateSampleData(mean1, std1, size1, "sample1").value)
    ensures SampleOk(mean1, std1, size1) && ValidateSampleData(mean2, std2, size2, "sample2").Some?
      ==> r == Err(ValidateSampleData(mean2, std2, size2, "sample2").value)
    ensures r.Ok? <==> SampleOk(mean1, std1, size1) && SampleOk(mean2, std2, size2) && !(size1 == 1 && size2 == 1)
    ensures SampleOk(mean1, std1, size1) && SampleOk(mean2, std2, size2) && size1 == 1 && size2 == 1
      ==> r == Err(ComputationFailed)
    ensures r.Ok? ==> WellFormed(eng, r.value) && r.value.testType == WelchTTest
    ensures r.Ok? ==> r.value.conclusion.increase == ChangeIsIncrease(mean1.value, mean2.value)
    ensures SampleOk(mean1, std1, size1) && SampleOk(mean2, std2, size2)
      ==> r == TTestFromStats(o, eng, mean1.value, std1.value, size1, mean2.value, std2.value, size2)
    ensures r.Ok? ==> r.value.pValue == TwoTailed(o, TStatistic(o, mean1.value, std1.value, size1, mean2.value, std2.value, size2))
    ensures r.Ok? ==> r.value.effectSize == CohensD(o, mean1.value, std1.value, size1, mean2.value, std2.value, size2).value
  {
    var v1 := ValidateSampleData(mean1, std1, size1, "sample1");
    if v1.Some? then Err(v1.value)
    else
      var v2 := ValidateSampleData(mean2, std2, size2, "sample2");
      if v2.Some? then Err(v2.value)
      else TTestFromStats(o, eng, mean1.value, std1.value, size1, mean2.value, std2.value, size2)
  }

  /** Equal means give a p-value of 1 and an effect of 0; without a negative
      confidence level that is never significant. */
  lemma TTestEqualMeans(o: Oracles, eng: Engine, mean: Float, std1: Float, size1: int, std2: Float, size2: int)
    requires Lawful(o)
    requires TTest(o, eng, mean, std1, size1, mean, std2, size2).Ok?
    ensures var r := TTest(o, eng, mean, std1, size1, mean, std2, size2).value;
      r.pValue == 1.0 && r.effectSize == 0.0 && r.power == 0.0 && r.sampleSizeNeeded == 10000
      && (r.isSignificant <==> eng.confidenceLevel < 0.0)
  {
    TwoTailedAtZero(o);
  }

  /** Swapping the two samples changes neither the p-value, nor the effect size, the
      power, the planned size or the verdict. */
  lemma TTestSymmetric(o: Oracles, eng: Engine, mean1: Float, std1: Float, size1: int,
                       mean2: Float, std2: Float, size2: int)
    requires Lawful(o)
    requires TTest(o, eng, mean1, std1, size1, mean2, std2, size2).Ok?
    ensures TTest(o, eng, mean2, std2, size2, mean1, std1, size1).Ok?
    ensures var a := TTest(o, eng, mean1, std1, size1, mean2, std2, size2).value;
      var b := TTest(o, eng, mean2, std2, size2, mean1, std1, size1).value;
      a.pValue == b.pValue && a.effectSize == b.effectSize && a.power == b.power
      && a.sampleSizeNeeded == b.sampleSizeNeeded && a.isSignificant == b.isSignificant
  {
    TTestFromStatsSymmetric(o, eng, mean1.value, std1.value, size1, mean2.value, std2.value, size2);
  }

  /** The pooled two-proportion z statistic. */
  function ZStatistic(o: Oracles, successes1: int, total1: int, successes2: int, total2: int): real
    requires total1 > 0 && total2 > 0
  {
    var p1 := successes1 as real / total1 as real;
    var p2 := successes2 as real / total2 as real;
    var pool := (successes1 + successes2) as real / (total1 + total2) as real;
    var se := if 0.0 < pool < 1.0
      then o.Sqrt(pool * (1.0 - pool) * (1.0 / total1 as real + 1.0 / total2 as real))
      else 0.0;
    if se > 0.0 then (p1 - p2) / se else 0.0
  }

  /** Swapping the samples flips the sign of the statistic. */
  lemma ZStatisticAntisymmetric(o: Oracles, successes1: int, total1: int, successes2: int, total2: int)
    requires total1 > 0 && total2 > 0
    ensures ZStatistic(o, successes2, total2, successes1, total1) == -ZStatistic(o, successes1, total1, successes2, total2)
  {
    var p1 := successes1 as real / total1 as real;
    var p2 := successes2 as real / total2 as real;
    var pool := (successes1 + successes2) as real / (total1 + total2) as real;
    assert pool == (successes2 + successes1) as real / (total2 + total1) as real;
    var w := 1.0 / total1 as real + 1.0 / total2 as real;
    assert w == 1.0 / total2 as real + 1.0 / total1 as real;
    var se := if 0.0 < pool < 1.0 then o.Sqrt(pool * (1.0 - pool) * w) else 0.0;
    if se > 0.0 {
      assert (p2 - p1) / se == -((p1 - p2) / se);
    }
  }

  /** The computing half of `z_test_proportions`, once both samples are valid: the
      pooled z statistic (0 when the pooled rate is 0 or 1), its two-tailed p-value,
      Cohen's h of the two rates, the power over `total1 + total2` observations and
      the size needed for 80 percent power. */
  function ZTestFromCounts(o: Oracles, eng: Engine, successes1: int, total1: int, successes2: int, total2: int)
    : (r: StatisticalResult)
    requires Lawful(o) && total1 > 0 && total2 > 0
    ensures WellFormed(eng, r) && r.testType == ProportionsZTest
    ensures r.effectSize == CohensH(o, successes1 as real / total1 as real, successes2 as real / total2 as real)
    ensures r.pValue == TwoTailed(o, ZStatistic(o, successes1, total1, successes2, total2))
    ensures r.conclusion.increase == ChangeIsIncrease(successes1 as real / total1 as real * 100.0,
                                                      successes2 as real / total2 as real * 100.0)
    ensures r.power == Power(o, eng, r.effectSize, total1 + total2)
    ensures r.sampleSizeNeeded == SampleSizeNeeded(r.effectSize, 0.80, eng.Alpha())
  {
    var p1 := successes1 as real / total1 as real;
    var p2 := successes2 as real / total2 as real;
    var z := ZStatistic(o, successes1, total1, successes2, total2);
    var p := TwoTailed(o, Abs(z));
    TwoTailedSymmetric(o, z);
    var h := CohensH(o, p1, p2);
    var power := Power(o, eng, h, total1 + total2);
    var needed := SampleSizeNeeded(h, 0.80, eng.Alpha());
    var significant := p < eng.Alpha();
    StatisticalResult(significant, p, eng.confidenceLevel, h, power, needed, ProportionsZTest,
                      Conclusion(significant, ChangeIsIncrease(p1 * 100.0, p2 * 100.0), Bucket(h)))
  }

  /** Swapping the two samples leaves the p-value, effect size, power and verdict as
      they were. */
  lemma ZTestFromCountsSymmetric(o: Oracles, eng: Engine, successes1: int, total1: int, successes2: int, total2: int)
    requires Lawful(o) && total1 > 0 && total2 > 0
    ensures var a := ZTestFromCounts(o, eng, successes1, total1, successes2, total2);
      var b := ZTestFromCounts(o, eng, successes2, total2, successes1, total1);
      a.pValue == b.pValue && a.effectSize == b.effectSize && a.power == b.power
      && a.sampleSizeNeeded == b.sampleSizeNeeded && a.isSignificant == b.isSignificant
  {
    ZStatisticAntisymmetric(o, successes1, total1, successes2, total2);
    TwoTailedSymmetric(o, ZStatistic(o, successes1, total1, successes2, total2));
    CohensHSymmetric(o, successes1 as real / total1 as real, successes2 as real / total2 as real);
    assert total1 + total2 == total2 + total1;
  }

  /** `z_test_proportions` on its fallback path: validate both samples, then compute. */
  function ZTest(o: Oracles, eng: Engine, successes1: int, total1: int, successes2: int, total2: int)
    : (r: Result<StatisticalResult, StatError>)
    requires Lawful(o)
    ensures ValidateProportionData(successes1, total1, "sample1").Some?
      ==> r == Err(ValidateProportionData(successes1, total1, "sample1").value)
    ensures r.Ok? <==> 0 < total1 && 0 <= successes1 <= total1 && 0 < total2 && 0 <= successes2 <= total2
    ensures r.Ok? ==> WellFormed(eng, r.value) && r.value.testType == ProportionsZTest
    ensures r.Ok? ==> r.value.effectSize == CohensH(o, successes1 as real / total1 as real, successes2 as real / total2 as real)
    ensures ValidateProportionData(successes1, total1, "sample1").None?
      && ValidateProportionData(successes2, total2, "sample2").Some?
      ==> r == Err(ValidateProportionData(successes2, total2, "sample2").value)
    ensures r.Ok? ==> r.value == ZTestFromCounts(o, eng, successes1, total1, successes2, total2)
    ensures r.Ok? ==> r.value.pValue == TwoTailed(o, ZStatistic(o, successes1, total1, successes2, total2))
  {
    var v1 := ValidateProportionData(successes1, total1, "sample1");
    if v1.Some? then Err(v1.value)
    else
      var v2 := ValidateProportionData(successes2, total2, "sample2");
      if v2.Some? then Err(v2.value)
      else Ok(ZTestFromCounts(o, eng, successes1, total1, successes2, total2))
  }

  /** With no successes anywhere the test sees no difference at all. */
  lemma ZTestNoSuccesses(o: Oracles, eng: Engine, total1: int, total2: int)
    requires Lawful(o) && total1 > 0 && total2 > 0
    ensures ZTest(o, eng, 0, total1, 0, total2).Ok?
    ensures var r := ZTest(o, eng, 0, total1, 0, total2).value;
      r.pValue == 1.0 && r.effectSize == 0.0 && r.power == 0.0 && r.sampleSizeNeeded == 10000
      && (r.isSignificant <==> eng.confidenceLevel < 0.0)
  {
    TwoTailedAtZero(o);
    CohensHZeroIff(o, 0.0, 0.0);
  }

  /** Swapping the two samples leaves the p-value, effect size, power and verdict as
      they were. */
  lemma ZTestSymmetric(o: Oracles, eng: Engine, successes1: int, total1: int, successes2: int, total2: int)
    requires Lawful(o)
    requires ZTest(o, eng, successes1, total1, successes2, total2).Ok?
    ensures ZTest(o, eng, successes2, total2, successes1, total1).Ok?
    ensures var a := ZTest(o, eng, successes1, total1, successes2, total2).value;
      var b := ZTest(o, eng, successes2, total2, successes1, total1).value;
      a.pValue == b.pValue && a.effectSize == b.effectSize && a.power == b.power
      && a.sampleSizeNeeded == b.sampleSizeNeeded && a.isSignificant == b.isSignificant
  {
    ZTestFromCountsSymmetric(o, eng, successes1, total1, successes2, total2);
  }

  /** One group's data as `analyze_experiment_results` reads it: each key may be
      missing from the dictionary. */
  datatype GroupData = GroupData(
    successes: Option<int>,
    total: Option<int>,
    mean: Option<Float>,
    std: Option<Float>,
    size: Option<int>
  )

  /** The dictionary reads a test's arguments make, in the order Python evaluates
      the keyword arguments: each key with whether the dictionary holds it. */
  function RateKeys(control: GroupData, treatment: GroupData): seq<(string, bool)> {
    [("successes", treatment.successes.Some?), ("total", treatment.total.Some?),
     ("successes", control.successes.Some?), ("total", control.total.Some?)]
  }

  function MeanKeys(control: GroupData, treatment: GroupData): seq<(string, bool)> {
    [("mean", treatment.mean.Some?), ("std", treatment.std.Some?), ("size", treatment.size.Some?),
     ("mean", control.mean.Some?), ("std", control.std.Some?), ("size", control.size.Some?)]
  }

  predicate Absent(key: (string, bool)) {
    !key.1
  }

  /** The key the first failing read names, if any read fails. */
  function FirstMissing(keys: seq<(string, bool)>): (k: Option<string>)
    ensures k.None? <==> forall i :: 0 <= i < |keys| ==> keys[i].1
    ensures k.Some? ==> exists i :: 0 <= i < |keys| && !keys[i].1 && keys[i].0 == k.value
                                    && forall j :: 0 <= j < i ==> keys[j].1
  {
    match Seqs.FindFirst(keys, Absent)
    case None => None
    case Some(i) => Some(keys[i].0)
  }

  lemma FirstMissingCons(keys: seq<(string, bool)>)
    requires |keys| > 0
    ensures FirstMissing(keys) == if keys[0].1 then FirstMissing(keys[1..]) else Some(keys[0].0)
  {
    if keys[0].1 {
      match Seqs.FindFirst(keys[1..], Absent)
      case None =>
      case Some(i) => assert keys[i + 1] == keys[1..][i];
    }
  }

  lemma RateKeysInOrder(control: GroupData, treatment: GroupData)
    ensures FirstMissing(RateKeys(control, treatment))
      == if treatment.successes.None? then Some("successes")
         else if treatment.total.None? then Some("total")
         else if control.successes.None? then Some("successes")
         else if control.total.None? then Some("total")
         else None
  {
    var ks := RateKeys(control, treatment);
    FirstMissingCons(ks);
    FirstMissingCons(ks[1..]);
    FirstMissingCons(ks[2..]);
    FirstMissingCons(ks[3..]);
  }

  lemma MeanKeysInOrder(control: GroupData, treatment: GroupData)
    ensures FirstMissing(MeanKeys(control, treatment))
      == if treatment.mean.None? then Some("mean")
         else if treatment.std.None? then Some("std")
         else if treatment.size.None? then Some("size")
         else if control.mean.None? then Some("mean")
         else if control.std.None? then Some("std")
         else if control.size.None? then Some("size")
         else None
  {
    var ks := MeanKeys(control, treatment);
    FirstMissingCons(ks);
    FirstMissingCons(ks[1..]);
    FirstMissingCons(ks[2..]);
    FirstMissingCons(ks[3..]);
    FirstMissingCons(ks[4..]);
    FirstMissingCons(ks[5..]);
  }

  /** `analyze_experiment_results`: "rate" runs the z-test and anything else the
      t-test, with the treatment as the first sample and the control as the second.
      A missing key is the `KeyError` raised while building the arguments, naming the
      first key read that is absent. */
  function AnalyzeExperimentResults(o: Oracles, eng: Engine, control: GroupData, treatment: GroupData, metricType: string)
    : (r: Result<StatisticalResult, StatError>)
    requires Lawful(o)
    ensures metricType == "rate"
      && (treatment.successes.None? || treatment.total.None? || control.successes.None? || control.total.None?)
      ==> r.Err? && r.error.MissingKey?
    ensures metricType != "rate"
      && (treatment.mean.None? || treatment.std.None? || treatment.size.None?
          || control.mean.None? || control.std.None? || control.size.None?)
      ==> r.Err? && r.error.MissingKey?
    ensures metricType == "rate" && FirstMissing(RateKeys(control, treatment)).Some?
      ==> r == Err(MissingKey(FirstMissing(RateKeys(control, treatment)).value))
    ensures metricType != "rate" && FirstMissing(MeanKeys(control, treatment)).Some?
      ==> r == Err(MissingKey(FirstMissing(MeanKeys(control, treatment)).value))
    ensures metricType == "rate" && treatment.successes.Some? && treatment.total.Some?
      && control.successes.Some? && control.total.Some?
      ==> r == ZTest(o, eng, treatment.successes.value, treatment.total.value,
                     control.successes.value, control.total.value)
    ensures metricType != "rate" && treatment.mean.Some? && treatment.std.Some? && treatment.size.Some?
      && control.mean.Some? && control.std.Some? && control.size.Some?
      ==> r == TTest(o, eng, treatment.mean.value, treatment.std.value, treatment.size.value,
                     control.mean.value, control.std.value, control.size.value)
    ensures metricType == "rate" && treatment.successes.None? ==> r == Err(MissingKey("successes"))
  {
    RateKeysInOrder(control, treatment);
    MeanKeysInOrder(control, treatment);
    if metricType == "rate" then
      if treatment.successes.None? then Err(MissingKey("successes"))
      else if treatment.total.None? then Err(MissingKey("total"))
      else if control.successes.None? then Err(MissingKey("successes"))
      else if control.total.None? then Err(MissingKey("total"))
      else ZTest(o, eng, treatment.successes.value, treatment.total.value,
                 control.successes.value, control.total.value)
    else
      if treatment.mean.None? then Err(MissingKey("mean"))
      else if treatment.std.None? then Err(MissingKey("std"))
      else if treatment.size.None? then Err(MissingKey("size"))
      else if control.mean.None? then Err(MissingKey("mean"))
      else if control.std.None? then Err(MissingKey("std"))
      else if control.size.None? then Err(MissingKey("size"))
      else TTest(o, eng, treatment.mean.value, treatment.std.value, treatment.size.value,
                 control.mean.value, control.std.value, control.size.value)
  }

  /** `calculate_confidence_interval` on its fallback path: `mean ± z · std / sqrt(n)`,
      with a zero margin for a non-positive size. */
  function ConfidenceInterval(o: Oracles, eng: Engine, mean: real, std: real, size: int): (ci: (real, real))
    requires Lawful(o)
    ensures ci.0 + ci.1 == 2.0 * mean
    ensures size > 0 && std >= 0.0 ==> ci.0 <= mean <= ci.1
    ensures size <= 0 ==> ci == (mean, mean)
    ensures size > 0 ==> (ci.1 - mean) * o.Sqrt(size as real) == ZCritical(eng.confidenceLevel) * std
  {
    var se := if size > 0 then std / o.Sqrt(size as real) else 0.0;
    assert size > 0 ==> o.Sqrt(0.0) < o.Sqrt(size as real);
    var margin := ZCritical(eng.confidenceLevel) * se;
    assert size > 0 ==> margin * o.Sqrt(size as real) == ZCritical(eng.confidenceLevel) * std by {
      if size > 0 {
        var d := o.Sqrt(size as real);
        DivCancel(std, d);
        assert margin * d == ZCritical(eng.confidenceLevel) * ((std / d) * d);
      }
    }
    (mean - margin, mean + margin)
  }

  /** More observations never widen the interval of a given deviation. */
  lemma ConfidenceIntervalNarrows(o: Oracles, eng: Engine, mean: real, std: real, n1: int, n2: int)
    requires Lawful(o) && std >= 0.0 && 0 < n1 <= n2
    ensures ConfidenceInterval(o, eng, mean, std, n2).1 <= ConfidenceInterval(o, eng, mean, std, n1).1
  {
    var z := ZCritical(eng.confidenceLevel);
    var s1 := o.Sqrt(n1 as real);
    var s2 := o.Sqrt(n2 as real);
    assert o.Sqrt(0.0) < s1;
    assert s1 <= s2 by {
      if n1 < n2 {
        assert s1 < s2;
      }
    }
    DivAntitone(std, s1, s2);
    MulLeLeft(z, std / s2, std / s1);
  }
}
