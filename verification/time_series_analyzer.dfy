/** The decision helpers of the time-series analyser: whether a trend component is
    significant, its direction, the strength of a component relative to the
    original series, and the trend adjustment. The decomposition itself is not
    modelled; the components are inputs. */
module TimeSeriesAnalyzer {
  import opened Wrappers
  import opened Numeric
  import opened RealArith

  /** `_has_significant_trend`: fewer than two points never make a trend; from a zero
      start the last value must exceed 0.1 in magnitude; otherwise the relative
      change from first to last must exceed 5 percent in magnitude. */
  function HasSignificantTrend(trend: seq<real>): (b: bool)
    ensures |trend| < 2 ==> !b
    ensures |trend| >= 2 && trend[0] == 0.0 ==> (b <==> Abs(trend[|trend| - 1]) > 0.1)
    ensures |trend| >= 2 && trend[0] > 0.0 ==>
      (b <==> trend[|trend| - 1] > 1.05 * trend[0] || trend[|trend| - 1] < 0.95 * trend[0])
    ensures |trend| >= 2 && trend[0] < 0.0 ==>
      (b <==> trend[|trend| - 1] < 1.05 * trend[0] || trend[|trend| - 1] > 0.95 * trend[0])
  {
    if |trend| < 2 then false
    else
      var first := trend[0];
      var last := trend[|trend| - 1];
      if first == 0.0 then Abs(last) > 0.1
      else
        RelativeChangeThresholds(first, last);
        Abs((last - first) / first) > 0.05
  }

  /** The 5 percent thresholds on the relative change `(last - first) / first`,
      restated as bounds on `last`; a negative start reverses the inequalities. */
  lemma RelativeChangeThresholds(first: real, last: real)
    requires first != 0.0
    ensures first > 0.0 ==> ((last - first) / first > 0.05 <==> last > 1.05 * first)
    ensures first > 0.0 ==> ((last - first) / first < -0.05 <==> last < 0.95 * first)
    ensures first < 0.0 ==> ((last - first) / first > 0.05 <==> last < 1.05 * first)
    ensures first < 0.0 ==> ((last - first) / first < -0.05 <==> last > 0.95 * first)
  {
    var c := (last - first) / first;
    DivCancel(last - first, first);
    assert c * first == last - first;
    if first > 0.0 {
      if c > 0.05 { MulLt(0.05, c, first); }
      if c <= 0.05 { MulLe(c, 0.05, first); }
      if c < -0.05 { MulLt(c, -0.05, first); }
      if c >= -0.05 { MulLe(-0.05, c, first); }
    } else {
      if c > 0.05 { MulLt(0.05, c, -first); }
      if c <= 0.05 { MulLe(c, 0.05, -first); }
      if c < -0.05 { MulLt(c, -0.05, -first); }
      if c >= -0.05 { MulLe(-0.05, c, -first); }
    }
  }

  datatype TrendDirection = Increasing | Decreasing | Stable | NoTrend

  /** `_get_trend_direction`: 'none' for fewer than two points; from a zero start,
      increasing exactly when the last value is positive; otherwise increasing above
      a 5 percent relative change, decreasing below -5 percent, stable in between. */
  function GetTrendDirection(trend: seq<real>): (d: TrendDirection)
    ensures d == NoTrend <==> |trend| < 2
    ensures |trend| >= 2 && trend[0] == 0.0 ==> (d == Increasing <==> trend[|trend| - 1] > 0.0) && d != Stable
    ensures |trend| >= 2 && trend[0] > 0.0 ==>
      && (d == Increasing <==> trend[|trend| - 1] > 1.05 * trend[0])
      && (d == Decreasing <==> trend[|trend| - 1] < 0.95 * trend[0])
    ensures |trend| >= 2 && trend[0] < 0.0 ==>
      && (d == Increasing <==> trend[|trend| - 1] < 1.05 * trend[0])
      && (d == Decreasing <==> trend[|trend| - 1] > 0.95 * trend[0])
  {
    if |trend| < 2 then NoTrend
    else
      var first := trend[0];
      var last := trend[|trend| - 1];
      if first == 0.0 then (if last > 0.0 then Increasing else Decreasing)
      else
        var change := (last - first) / first;
        RelativeChangeThresholds(first, last);
        if change > 0.05 then Increasing
        else if change < -0.05 then Decreasing
        else Stable
  }

  /** From a nonzero start the two classifiers agree: the trend is significant
      exactly when its direction is not stable. */
  lemma SignificantIffNotStable(trend: seq<real>)
    requires |trend| >= 2 && trend[0] != 0.0
    ensures HasSignificantTrend(trend) <==> GetTrendDirection(trend) != Stable
  {
  }

  /** From a zero start they can disagree: a last value of 0.05 reads as increasing
      but not significant. */
  lemma ZeroStartDisagreement()
    ensures GetTrendDirection([0.0, 0.05]) == Increasing && !HasSignificantTrend([0.0, 0.05])
  {
  }

  /** The relative change does not depend on the unit: scaling the series by a
      positive factor changes neither the direction nor the significance. */
  lemma TrendScaleInvariant(trend: seq<real>, k: real)
    requires k > 0.0 && |trend| >= 2 && trend[0] != 0.0
    ensures var scaled := seq(|trend|, i requires 0 <= i < |trend| => k * trend[i]);
      GetTrendDirection(scaled) == GetTrendDirection(trend) && HasSignificantTrend(scaled) == HasSignificantTrend(trend)
  {
    var scaled := seq(|trend|, i requires 0 <= i < |trend| => k * trend[i]);
    var f := trend[0];
    var l := trend[|trend| - 1];
    assert scaled[0] == k * f && scaled[|scaled| - 1] == k * l;
    assert k * f != 0.0 by {
      if f > 0.0 { MulPos(k, f); } else { MulPos(k, -f); }
    }
    MulDivCancel(k, l - f);
    assert (k * l - k * f) / (k * f) == (l - f) / f by {
      assert k * l - k * f == k * (l - f);
      DivScale(k, l - f, f);
    }
  }

  // ---------------------------------------------------------------------------
  // Component strength

  function Sum(s: seq<real>): real {
    if |s| == 0 then 0.0 else s[0] + Sum(s[1..])
  }

  /** `np.mean` on a non-empty list. */
  function Mean(s: seq<real>): real
    requires |s| > 0
  {
    Sum(s) / |s| as real
  }

  /** The squared deviations from `m`, summed. */
  function SumSqDev(s: seq<real>, m: real): (r: real)
    ensures r >= 0.0
  {
    if |s| == 0 then 0.0 else (SqNonNeg(s[0] - m); Sq(s[0] - m) + SumSqDev(s[1..], m))
  }

  /** `np.var`: the population variance, never negative. */
  function Variance(s: seq<real>): (v: real)
    requires |s| > 0
    ensures v >= 0.0
  {
    DivNonNeg(SumSqDev(s, Mean(s)), |s| as real);
    SumSqDev(s, Mean(s)) / |s| as real
  }

  lemma {:induction false} SumConstant(s: seq<real>, c: real)
    requires forall i :: 0 <= i < |s| ==> s[i] == c
    ensures Sum(s) == |s| as real * c
  {
    if |s| > 0 {
      SumConstant(s[1..], c);
    }
  }

  lemma {:induction false} SumSqDevConstant(s: seq<real>, c: real)
    requires forall i :: 0 <= i < |s| ==> s[i] == c
    ensures SumSqDev(s, c) == 0.0
  {
    if |s| > 0 {
      SumSqDevConstant(s[1..], c);
    }
  }

  /** A constant series does not vary. */
  lemma VarianceConstant(s: seq<real>, c: real)
    requires |s| > 0 && forall i :: 0 <= i < |s| ==> s[i] == c
    ensures Variance(s) == 0.0
  {
    SumConstant(s, c);
    MulDivCancel(|s| as real, c);
    assert Mean(s) == c;
    SumSqDevConstant(s, c);
  }

  /** `_calculate_seasonal_strength` and `_calculate_trend_strength`, which share
      their text: 0 when either list is empty or the original does not vary,
      otherwise the variance ratio capped at 1. */
  function ComponentStrength(component: seq<real>, original: seq<real>): (r: real)
    ensures 0.0 <= r <= 1.0
    ensures |component| == 0 || |original| == 0 ==> r == 0.0
    ensures |original| > 0 && Variance(original) == 0.0 ==> r == 0.0
    ensures |component| > 0 && |original| > 0 && Variance(original) > 0.0 ==>
      && (r < 1.0 ==> r * Variance(original) == Variance(component))
      && (Variance(component) >= Variance(original) <==> r == 1.0)
  {
    if |component| == 0 || |original| == 0 then 0.0
    else
      var vc := Variance(component);
      var vo := Variance(original);
      if vo == 0.0 then 0.0
      else
        DivNonNeg(vc, vo);
        DivCancel(vc, vo);
        assert vc >= vo <==> vc / vo >= 1.0 by {
          if vc >= vo { DivGe(vc, vo, 1.0); }
          if vc < vo && vc / vo >= 1.0 { MulLe(1.0, vc / vo, vo); }
        }
        Min(vc / vo, 1.0)
  }

  function SeasonalStrength(seasonal: seq<real>, original: seq<real>): real {
    ComponentStrength(seasonal, original)
  }

  function TrendStrength(trend: seq<real>, original: seq<real>): real {
    ComponentStrength(trend, original)
  }

  /** A series explains itself fully, and a flat component explains nothing. */
  lemma StrengthExtremes(original: seq<real>, flat: seq<real>, c: real)
    requires |original| > 0 && Variance(original) != 0.0
    requires |flat| > 0 && forall i :: 0 <= i < |flat| ==> flat[i] == c
    ensures ComponentStrength(original, original) == 1.0
    ensures ComponentStrength(flat, original) == 0.0
  {
    VarianceConstant(flat, c);
  }

  // ---------------------------------------------------------------------------
  // Trend adjustment

  /** `adjust_for_trends`: whether the decomposition library is present, and what
      trend detection on the control series said (`None` when it raised), only
      choose among paths that all hand back both series untouched. */
  function AdjustForTrends(values: seq<real>, controlValues: seq<real>, libraryAvailable: bool,
                           controlHasTrend: Option<bool>): (r: (seq<real>, seq<real>))
    ensures r.0 == values && r.1 == controlValues
  {
    if !libraryAvailable then (values, controlValues)
    else
      match controlHasTrend
      case None => (values, controlValues)
      case Some(hasTrend) =>
        if !hasTrend then (values, controlValues)
        else (values, controlValues)
  }
}
