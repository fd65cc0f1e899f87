/** The enhanced experiment: an experiment with its variants, a sample-size target
    and a significance record, and the queries over them. */
module ExperimentEnhanced {
  import opened Wrappers
  import Seqs
  import opened Variant
  import opened ExperimentManager
  import opened RealArith

  /** The `statistical_significance` dictionary, of which only `is_significant` is
      read. */
  datatype Significance = Significance(isSignificant: Option<bool>)

  datatype EnhancedExperiment = EnhancedExperiment(
    base: Experiment,
    variants: seq<VideoVariant>,
    sampleSizeTarget: Option<int>,
    confidenceLevel: real,
    currentSampleSize: int,
    statisticalSignificance: Option<Significance>,
    winnerVariantId: Option<string>,
    autoStopOnSignificance: bool,
    autoPickWinner: bool
  )

  /** `add_variant`: appends, leaving the earlier variants where they were. */
  function AddVariant(x: EnhancedExperiment, v: VideoVariant): (r: EnhancedExperiment)
    ensures |r.variants| == |x.variants| + 1 && r.variants[|x.variants|] == v
    ensures forall i :: 0 <= i < |x.variants| ==> r.variants[i] == x.variants[i]
    ensures r.(variants := x.variants) == x
  {
    x.(variants := x.variants + [v])
  }

  function HasId(id: string): VideoVariant -> bool {
    (v: VideoVariant) => v.id == id
  }

  /** `get_variant`: the first variant with that id. */
  function GetVariant(x: EnhancedExperiment, id: string): (r: Option<VideoVariant>)
    ensures r.None? <==> forall i :: 0 <= i < |x.variants| ==> x.variants[i].id != id
    ensures r.Some? ==> exists i :: (0 <= i < |x.variants| && x.variants[i] == r.value && r.value.id == id
      && forall j :: 0 <= j < i ==> x.variants[j].id != id)
  {
    match Seqs.FindFirst(x.variants, HasId(id))
    case None => None
    case Some(i) => Some(x.variants[i])
  }

  /** A variant added under a new id is found under that id, and every id found
      before is still found with the same variant. */
  lemma AddVariantThenGet(x: EnhancedExperiment, v: VideoVariant, id: string)
    ensures GetVariant(x, v.id).None? ==> GetVariant(AddVariant(x, v), v.id) == Some(v)
    ensures GetVariant(x, id).Some? ==> GetVariant(AddVariant(x, v), id) == GetVariant(x, id)
  {
    var y := AddVariant(x, v);
    if GetVariant(x, v.id).None? {
      var r := GetVariant(y, v.id);
      assert y.variants[|x.variants|].id == v.id;
      var i :| 0 <= i < |y.variants| && y.variants[i] == r.value && r.value.id == v.id
        && forall j :: 0 <= j < i ==> y.variants[j].id != v.id;
      assert i == |x.variants|;
    }
    if GetVariant(x, id).Some? {
      var a := GetVariant(x, id).value;
      var i :| 0 <= i < |x.variants| && x.variants[i] == a && a.id == id
        && forall j :: 0 <= j < i ==> x.variants[j].id != id;
      var b := GetVariant(y, id).value;
      var k :| 0 <= k < |y.variants| && y.variants[k] == b && b.id == id
        && forall j :: 0 <= j < k ==> y.variants[j].id != id;
      assert y.variants[i] == a;
      assert k == i;
    }
  }

  function IsControl(v: VideoVariant): bool {
    v.isControl
  }

  function IsTreatment(v: VideoVariant): bool {
    !v.isControl
  }

  /** `get_control_variant`: the first control variant. */
  function GetControlVariant(x: EnhancedExperiment): (r: Option<VideoVariant>)
    ensures r.None? <==> forall i :: 0 <= i < |x.variants| ==> !x.variants[i].isControl
    ensures r.Some? ==> r.value.isControl && r.value in x.variants
    ensures r.Some? ==> exists i :: (0 <= i < |x.variants| && x.variants[i] == r.value
      && forall j :: 0 <= j < i ==> !x.variants[j].isControl)
  {
    match Seqs.FindFirst(x.variants, IsControl)
    case None => None
    case Some(i) => Some(x.variants[i])
  }

  /** `get_treatment_variants`: the non-control variants, in order. */
  function GetTreatmentVariants(x: EnhancedExperiment): (r: seq<VideoVariant>)
    ensures forall v :: v in r <==> v in x.variants && !v.isControl
    ensures forall i :: 0 <= i < |r| ==> !r[i].isControl
    ensures forall v :: multiset(r)[v] == if v.isControl then 0 else multiset(x.variants)[v]
  {
    Seqs.Filter(x.variants, IsTreatment)
  }

  /** The comprehension keeps the order of the variants: the treatments of a list
      extended by more variants are the old treatments followed by the new ones. */
  lemma TreatmentVariantsInOrder(x: EnhancedExperiment, more: seq<VideoVariant>)
    ensures GetTreatmentVariants(x.(variants := x.variants + more))
      == GetTreatmentVariants(x) + GetTreatmentVariants(x.(variants := more))
  {
    Seqs.FilterConcat(x.variants, more, IsTreatment);
  }

  /** Control and treatment variants partition the variants. */
  lemma ControlTreatmentPartition(x: EnhancedExperiment)
    ensures Seqs.Count(x.variants, IsControl) + |GetTreatmentVariants(x)| == |x.variants|
    ensures GetControlVariant(x).None? ==> GetTreatmentVariants(x) == x.variants
  {
    Seqs.CountSplits(x.variants, IsControl, IsTreatment);
    if GetControlVariant(x).None? {
      AllPassFilter(x.variants, IsTreatment);
    }
  }

  lemma {:induction false} AllPassFilter(s: seq<VideoVariant>, p: VideoVariant -> bool)
    requires forall i :: 0 <= i < |s| ==> p(s[i])
    ensures Seqs.Filter(s, p) == s
  {
    if |s| > 0 {
      AllPassFilter(s[1..], p);
      assert s == [s[0]] + s[1..];
    }
  }

  /** `has_significant_result`: false without a significance record, otherwise its
      `is_significant` flag, false when missing. */
  function HasSignificantResult(x: EnhancedExperiment): (b: bool)
    ensures x.statisticalSignificance.None? ==> !b
    ensures b <==> x.statisticalSignificance.Some? && x.statisticalSignificance.value.isSignificant == Some(true)
  {
    match x.statisticalSignificance
    case None => false
    case Some(s) => s.isSignificant.GetOr(false)
  }

  /** `get_winning_variant`: nothing without a (non-empty) winner id, otherwise the
      variant under that id. */
  function GetWinningVariant(x: EnhancedExperiment): (r: Option<VideoVariant>)
    ensures x.winnerVariantId.None? || x.winnerVariantId == Some("") ==> r.None?
    ensures r.Some? ==> r.value.id == x.winnerVariantId.value && r.value in x.variants
    ensures (x.winnerVariantId.Some? && x.winnerVariantId.value != ""
             && exists i :: 0 <= i < |x.variants| && x.variants[i].id == x.winnerVariantId.value) ==> r.Some?
    ensures x.winnerVariantId.Some? && x.winnerVariantId.value != "" ==> r == GetVariant(x, x.winnerVariantId.value)
  {
    if x.winnerVariantId.Some? && x.winnerVariantId.value != "" then GetVariant(x, x.winnerVariantId.value)
    else None
  }

  /** Seconds in a day: the dates are day numbers and `now` is in seconds, as
      `fromisoformat` places a date at midnight. */
  const DaySeconds: int := 86400

  /** `calculate_progress`. With a nonzero sample-size target, the share of the
      target reached, capped at 100. Otherwise (no target, or 0) the share of the
      date range elapsed: 0 before the start, 100 after the end. A range that starts
      and ends at the present instant divides by zero, which is `None`. */
  function CalculateProgress(x: EnhancedExperiment, now: int): (r: Option<real>)
    ensures x.sampleSizeTarget.Some? && x.sampleSizeTarget.value != 0 ==> r.Some? && r.value <= 100.0
    ensures r.None? <==> ((x.sampleSizeTarget.None? || x.sampleSizeTarget.value == 0)
      && now == x.base.startDate * DaySeconds && now == x.base.endDate * DaySeconds)
    ensures (x.sampleSizeTarget.None? || x.sampleSizeTarget.value == 0) && r.Some? ==> 0.0 <= r.value <= 100.0
    ensures (x.sampleSizeTarget.None? || x.sampleSizeTarget.value == 0) && now < x.base.startDate * DaySeconds
      ==> r == Some(0.0)
    ensures ((x.sampleSizeTarget.None? || x.sampleSizeTarget.value == 0) && x.base.startDate <= x.base.endDate
      && now > x.base.endDate * DaySeconds) ==> r == Some(100.0)
    ensures ((x.sampleSizeTarget.None? || x.sampleSizeTarget.value == 0) && x.base.startDate < x.base.endDate
      && x.base.startDate * DaySeconds <= now <= x.base.endDate * DaySeconds) ==>
      r.Some? && r.value * ((x.base.endDate - x.base.startDate) * DaySeconds) as real
        == (now - x.base.startDate * DaySeconds) as real * 100.0
    ensures (x.sampleSizeTarget.Some? && x.sampleSizeTarget.value != 0 && r.Some? && r.value < 100.0) ==>
      r.value * x.sampleSizeTarget.value as real == x.currentSampleSize as real * 100.0
    ensures (x.sampleSizeTarget.Some? && x.sampleSizeTarget.value > 0 && r == Some(100.0)) ==>
      x.currentSampleSize >= x.sampleSizeTarget.value
  {
    if x.sampleSizeTarget.None? || x.sampleSizeTarget.value == 0 then
      var start := x.base.startDate * DaySeconds;
      var end := x.base.endDate * DaySeconds;
      if now < start then Some(0.0)
      else if now > end then Some(100.0)
      else
        var total := end - start;
        var elapsed := now - start;
        if total == 0 then None
        else
          assert 0.0 <= elapsed as real / total as real <= 1.0;
          Some((elapsed as real / total as real) * 100.0)
    else
      var progress := (x.currentSampleSize as real / x.sampleSizeTarget.value as real) * 100.0;
      Some(if progress <= 100.0 then progress else 100.0)
  }

  /** With a positive target and a non-negative count, progress is a percentage. */
  lemma SampleProgressIsPercentage(x: EnhancedExperiment, now: int)
    requires x.sampleSizeTarget.Some? && x.sampleSizeTarget.value > 0 && x.currentSampleSize >= 0
    ensures CalculateProgress(x, now).Some? && 0.0 <= CalculateProgress(x, now).value <= 100.0
  {
    var t := x.sampleSizeTarget.value as real;
    assert x.currentSampleSize as real / t >= 0.0;
  }

  /** Date-based progress never goes backwards as time passes. */
  lemma DateProgressMonotone(x: EnhancedExperiment, t1: int, t2: int)
    requires x.sampleSizeTarget.None? && t1 <= t2
    requires CalculateProgress(x, t1).Some? && CalculateProgress(x, t2).Some?
    ensures CalculateProgress(x, t1).value <= CalculateProgress(x, t2).value
  {
    var start := x.base.startDate * DaySeconds;
    var end := x.base.endDate * DaySeconds;
    if start <= t1 <= end && start <= t2 <= end && end != start {
      var total := (end - start) as real;
      DivMonotone((t1 - start) as real, (t2 - start) as real, total);
    }
  }

  /** A target of 0 is treated as no target at all, so the explicit zero-target
      return of the sample branch is never reached. */
  lemma ZeroTargetUsesDates(x: EnhancedExperiment, now: int)
    ensures CalculateProgress(x.(sampleSizeTarget := Some(0)), now) == CalculateProgress(x.(sampleSizeTarget := None), now)
  {
  }
}
