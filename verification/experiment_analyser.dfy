/** The experiment analyser: metric extraction from analytics responses, the
    per-metric comparison record, the compound-growth success rule, the control
    window used when videos are detected automatically, and the assembly of one
    analysis. The analytics client is not called: its responses and the video ids it
    would list are parameters. */
module ExperimentAnalyser {
  import opened Wrappers
  import opened Numeric
  import opened RealArith
  import opened MetricRecords
  import opened ExperimentManager

  // ---------------------------------------------------------------------------
  // Extracting metric values

  /** What one row contributes to a sum: its value for the metric, or nothing when
      the row does not carry the metric. */
  function RowValue(row: Row, metric: string): real {
    if metric in row.values then row.values[metric] else 0.0
  }

  /** The metric summed over all rows. */
  function SumMetric(rows: seq<Row>, metric: string): real {
    if |rows| == 0 then 0.0 else RowValue(rows[0], metric) + SumMetric(rows[1..], metric)
  }

  /** Whether a row belongs to one of the listed videos. */
  predicate RowInVideos(row: Row, ids: seq<string>) {
    row.video.Some? && row.video.value in ids
  }

  /** The metric summed over the rows of the listed videos. */
  function SumForVideos(rows: seq<Row>, metric: string, ids: seq<string>): real {
    if |rows| == 0 then 0.0
    else (if RowInVideos(rows[0], ids) then RowValue(rows[0], metric) else 0.0) + SumForVideos(rows[1..], metric, ids)
  }

  /** A single row contributes its value for the metric, or 0 when it does not
      carry the metric. */
  lemma SumMetricSingle(row: Row, metric: string)
    ensures SumMetric([row], metric) == if metric in row.values then row.values[metric] else 0.0
  {
    assert [row][1..] == [];
  }

  /** A single row contributes to a per-video sum exactly when its video is listed. */
  lemma SumForVideosSingle(row: Row, metric: string, ids: seq<string>)
    ensures SumForVideos([row], metric, ids)
      == if row.video.Some? && row.video.value in ids && metric in row.values then row.values[metric] else 0.0
  {
    assert [row][1..] == [];
  }

  /** Summing over two batches of rows is summing over each. */
  lemma {:induction false} SumMetricAppend(a: seq<Row>, b: seq<Row>, metric: string)
    ensures SumMetric(a + b, metric) == SumMetric(a, metric) + SumMetric(b, metric)
  {
    if |a| > 0 {
      assert (a + b)[1..] == a[1..] + b;
      SumMetricAppend(a[1..], b, metric);
    } else {
      assert a + b == b;
    }
  }

  /** When every row belongs to a listed video, the per-video sum is the plain sum. */
  lemma {:induction false} SumForVideosCoversAll(rows: seq<Row>, metric: string, ids: seq<string>)
    requires forall i :: 0 <= i < |rows| ==> RowInVideos(rows[i], ids)
    ensures SumForVideos(rows, metric, ids) == SumMetric(rows, metric)
  {
    if |rows| > 0 {
      SumForVideosCoversAll(rows[1..], metric, ids);
    }
  }

  /** Two disjoint video lists split the per-video sum of their concatenation. */
  lemma {:induction false} SumForVideosDisjointUnion(rows: seq<Row>, metric: string, a: seq<string>, b: seq<string>)
    requires forall x :: x in a ==> x !in b
    ensures SumForVideos(rows, metric, a + b) == SumForVideos(rows, metric, a) + SumForVideos(rows, metric, b)
  {
    if |rows| > 0 {
      SumForVideosDisjointUnion(rows[1..], metric, a, b);
    }
  }

  /** With non-negative metric values, the rows of some videos never sum to more
      than all rows. */
  lemma {:induction false} SumForVideosAtMostTotal(rows: seq<Row>, metric: string, ids: seq<string>)
    requires forall i :: 0 <= i < |rows| ==> RowValue(rows[i], metric) >= 0.0
    ensures 0.0 <= SumForVideos(rows, metric, ids) <= SumMetric(rows, metric)
  {
    if |rows| > 0 {
      SumForVideosAtMostTotal(rows[1..], metric, ids);
    }
  }

  /** `_extract_metric_value`: 0 for a response without data, otherwise the metric
      summed over the rows that carry it. */
  function ExtractMetricValue(data: Response, metric: string): (v: real)
    ensures data.data.None? ==> v == 0.0
    ensures data.data.Some? ==> v == SumMetric(data.data.value, metric)
    ensures data.data.Some? && (forall i :: 0 <= i < |data.data.value| ==> metric !in data.data.value[i].values)
      ==> v == 0.0
  {
    match data.data
    case None => 0.0
    case Some(rows) =>
      assert (forall i :: 0 <= i < |rows| ==> metric !in rows[i].values) ==> SumMetric(rows, metric) == 0.0 by {
        if forall i :: 0 <= i < |rows| ==> metric !in rows[i].values {
          NoMetricSumsToZero(rows, metric);
        }
      }
      SumMetric(rows, metric)
  }

  lemma {:induction false} NoMetricSumsToZero(rows: seq<Row>, metric: string)
    requires forall i :: 0 <= i < |rows| ==> metric !in rows[i].values
    ensures SumMetric(rows, metric) == 0.0
  {
    if |rows| > 0 {
      NoMetricSumsToZero(rows[1..], metric);
    }
  }

  /** `_extract_metric_for_videos`: 0 for a response without data, otherwise the
      metric summed over the rows whose `video` is listed. */
  function ExtractMetricForVideos(data: Response, metric: string, ids: seq<string>): (v: real)
    ensures data.data.None? || |ids| == 0 ==> v == 0.0
    ensures data.data.Some? ==> v == SumForVideos(data.data.value, metric, ids)
  {
    match data.data
    case None => 0.0
    case Some(rows) =>
      assert |ids| == 0 ==> SumForVideos(rows, metric, ids) == 0.0 by {
        if |ids| == 0 {
          NoVideosSumToZero(rows, metric, ids);
        }
      }
      SumForVideos(rows, metric, ids)
  }

  lemma {:induction false} NoVideosSumToZero(rows: seq<Row>, metric: string, ids: seq<string>)
    requires |ids| == 0
    ensures SumForVideos(rows, metric, ids) == 0.0
  {
    if |rows| > 0 {
      NoVideosSumToZero(rows[1..], metric, ids);
    }
  }

  // ---------------------------------------------------------------------------
  // The comparison record

  /** `round(change / base * 100, 2)`. */
  function PercentChange(value: real, base: real): real
    requires base != 0.0
  {
    Round2((value - base) / base * 100.0)
  }

  /** `_compare_metric`: the experiment-period value; the baseline value when baseline
      data was collected, with the change and rounded percentage only against a
      nonzero baseline; and, when the experiment lists both video groups, the
      treatment and control sums, compared only against a nonzero control. */
  function CompareMetric(metric: string, experimentData: Response, baselineData: Option<Response>,
                         videoIds: Option<VideoGroups>): (r: MetricResult)
    ensures r.metric == metric && r.experimentValue == ExtractMetricValue(experimentData, metric)
    ensures r.baselineValue.Some? <==> baselineData.Some?
    ensures r.change.Some? <==> r.baselineValue.Some? && r.baselineValue.value != 0.0
    ensures r.changePercent.Some? <==> r.change.Some?
    ensures r.change.Some? ==> r.change.value == r.experimentValue - r.baselineValue.value
    ensures r.treatmentValue.Some? <==> videoIds.Some? && videoIds.value.treatment.Some? && videoIds.value.control.Some?
    ensures r.controlValue.Some? <==> r.treatmentValue.Some?
    ensures r.treatmentVsControl.Some? <==> r.controlValue.Some? && r.controlValue.value != 0.0
    ensures r.treatmentVsControl.Some? ==> r.treatmentVsControl.value.change == r.treatmentValue.value - r.controlValue.value
    ensures baselineData.Some? ==> r.baselineValue == Some(ExtractMetricValue(baselineData.value, metric))
    ensures r.changePercent.Some? ==> r.changePercent.value == PercentChange(r.experimentValue, r.baselineValue.value)
    ensures r.treatmentValue.Some? ==>
      r.treatmentValue.value == ExtractMetricForVideos(experimentData, metric, videoIds.value.treatment.value)
    ensures r.controlValue.Some? ==>
      r.controlValue.value == ExtractMetricForVideos(experimentData, metric, videoIds.value.control.value)
    ensures r.treatmentVsControl.Some? ==>
      r.treatmentVsControl.value.changePercent == PercentChange(r.treatmentValue.value, r.controlValue.value)
    ensures r.compoundTarget.None? && r.compoundSuccess.None?
  {
    var expValue := ExtractMetricValue(experimentData, metric);
    var baseValue: Option<real> :=
      if baselineData.Some? then Some(ExtractMetricValue(baselineData.value, metric)) else None;
    var change: Option<real> :=
      if baseValue.Some? && baseValue.value != 0.0 then Some(expValue - baseValue.value) else None;
    var changePercent: Option<real> :=
      if baseValue.Some? && baseValue.value != 0.0 then Some(PercentChange(expValue, baseValue.value)) else None;
    var record := MetricResult(metric, expValue, baseValue, change, changePercent, None, None, None, None, None);
    if videoIds.Some? && videoIds.value.treatment.Some? && videoIds.value.control.Some? then
      var t := ExtractMetricForVideos(experimentData, metric, videoIds.value.treatment.value);
      var c := ExtractMetricForVideos(experimentData, metric, videoIds.value.control.value);
      var tvc: Option<Change> := if c != 0.0 then Some(Change(t - c, PercentChange(t, c))) else None;
      record.(treatmentValue := Some(t), controlValue := Some(c), treatmentVsControl := tvc)
    else record
  }

  // ---------------------------------------------------------------------------
  // The success rule

  /** Whether the record offers something to compare: a treatment-versus-control
      comparison, or else a change against the baseline. */
  predicate HasComparison(r: MetricResult) {
    r.treatmentVsControl.Some? || r.changePercent.Some?
  }

  /** The compared value: the treatment sum when the record compares groups,
      otherwise the experiment-period value (`dict.get(key, 0)`). */
  function Compared(r: MetricResult): real {
    if r.treatmentVsControl.Some? then r.treatmentValue.GetOr(0.0) else r.experimentValue
  }

  /** The value it is compared against: the control sum, otherwise the baseline. */
  function Reference(r: MetricResult): real {
    if r.treatmentVsControl.Some? then r.controlValue.GetOr(0.0) else r.baselineValue.GetOr(0.0)
  }

  /** The percentage the fallback rule reads. */
  function FallbackPercent(r: MetricResult): real
    requires HasComparison(r)
  {
    if r.treatmentVsControl.Some? then r.treatmentVsControl.value.changePercent else r.changePercent.value
  }

  /** `control * (1 + threshold / 100)`: the target every operator except DECREASE uses. */
  function Target(control: real, threshold: real): real {
    control * (1.0 + threshold / 100.0)
  }

  /** `control * (1 - threshold / 100)`: the DECREASE target. */
  function DecreaseTarget(control: real, threshold: real): real {
    control * (1.0 - threshold / 100.0)
  }

  /** The record with the rounded compound target and the outcome written into it. */
  function Annotate(r: MetricResult, target: real, success: bool): MetricResult {
    r.(compoundTarget := Some(Round2(target)), compoundSuccess := Some(success))
  }

  /** The verdict, and the record as the check leaves it. */
  datatype Verdict = Verdict(success: bool, record: MetricResult)

  /** `_check_success_criteria`. Without a comparison the experiment fails. Against a
      zero reference the percentage decides, and only for INCREASE and DECREASE.
      Otherwise INCREASE and DECREASE compare with the compound target and record
      it (rounded) with the outcome, while EQUALS, GREATER_THAN and LESS_THAN all
      compare with `control * (1 + threshold / 100)` and leave the record alone. */
  function CheckSuccessCriteria(r: MetricResult, c: SuccessCriteria): (v: Verdict)
    ensures !HasComparison(r) ==> v == Verdict(false, r)
    ensures HasComparison(r) && Reference(r) == 0.0 ==>
      v.record == r
      && (v.success <==> ((c.operator == Increase && FallbackPercent(r) >= c.threshold)
                       || (c.operator == Decrease && FallbackPercent(r) <= -c.threshold)))
    ensures HasComparison(r) && Reference(r) != 0.0 && c.operator == Increase ==>
      (v.success <==> Compared(r) >= Target(Reference(r), c.threshold))
      && v.record == Annotate(r, Target(Reference(r), c.threshold), v.success)
    ensures HasComparison(r) && Reference(r) != 0.0 && c.operator == Decrease ==>
      (v.success <==> Compared(r) <= DecreaseTarget(Reference(r), c.threshold))
      && v.record == Annotate(r, DecreaseTarget(Reference(r), c.threshold), v.success)
    ensures HasComparison(r) && Reference(r) != 0.0 && c.operator == Equals ==>
      v.record == r
      && (v.success <==> Abs(Compared(r) - Target(Reference(r), c.threshold)) < Reference(r) * 0.01)
    ensures HasComparison(r) && Reference(r) != 0.0 && c.operator == GreaterThan ==>
      v.record == r && (v.success <==> Compared(r) > Target(Reference(r), c.threshold))
    ensures HasComparison(r) && Reference(r) != 0.0 && c.operator == LessThan ==>
      v.record == r && (v.success <==> Compared(r) < Target(Reference(r), c.threshold))
  {
    if !HasComparison(r) then Verdict(false, r)
    else
      var treatment := Compared(r);
      var control := Reference(r);
      var threshold := c.threshold;
      if control == 0.0 then
        var pct := FallbackPercent(r);
        match c.operator
        case Increase => Verdict(pct >= threshold, r)
        case Decrease => Verdict(pct <= -threshold, r)
        case _ => Verdict(false, r)
      else
        match c.operator
        case Increase =>
          var target := Target(control, threshold);
          var success := treatment >= target;
          Verdict(success, Annotate(r, target, success))
        case Decrease =>
          var target := DecreaseTarget(control, threshold);
          var success := treatment <= target;
          Verdict(success, Annotate(r, target, success))
        case Equals =>
          var target := Target(control, threshold);
          var tolerance := control * 0.01;
          Verdict(Abs(treatment - target) < tolerance, r)
        case GreaterThan => Verdict(treatment > Target(control, threshold), r)
        case LessThan => Verdict(treatment < Target(control, threshold), r)
  }

  /** The fields the check writes never feed back into it: checking the annotated
      record again gives the same verdict and the same record. */
  lemma CheckSuccessIdempotent(r: MetricResult, c: SuccessCriteria)
    ensures var v := CheckSuccessCriteria(r, c);
      CheckSuccessCriteria(v.record, c) == v
  {
    var v := CheckSuccessCriteria(r, c);
    assert HasComparison(v.record) == HasComparison(r);
    if HasComparison(r) {
      assert Compared(v.record) == Compared(r) && Reference(v.record) == Reference(r);
      assert FallbackPercent(v.record) == FallbackPercent(r);
      if Reference(r) != 0.0 && c.operator == Increase {
        assert v.record == Annotate(r, Target(Reference(r), c.threshold), v.success);
      } else if Reference(r) != 0.0 && c.operator == Decrease {
        assert v.record == Annotate(r, DecreaseTarget(Reference(r), c.threshold), v.success);
      }
    }
  }

  /** Against a positive reference, the compound INCREASE rule is the percentage rule
      on the exact (unrounded) change: `t >= c (1 + th/100)` exactly when
      `(t - c) / c * 100 >= th`. */
  lemma CompoundIncreaseIsPercentRule(r: MetricResult, c: SuccessCriteria)
    requires HasComparison(r) && Reference(r) > 0.0 && c.operator == Increase
    ensures CheckSuccessCriteria(r, c).success
        <==> (Compared(r) - Reference(r)) / Reference(r) * 100.0 >= c.threshold
  {
    var t := Compared(r);
    var ctl := Reference(r);
    var x := (t - ctl) / ctl;
    var k := c.threshold / 100.0;
    DivCancel(t - ctl, ctl);
    assert x * ctl == t - ctl;
    assert Target(ctl, c.threshold) == ctl + k * ctl;
    if x >= k {
      MulLe(k, x, ctl);
    } else {
      MulLt(x, k, ctl);
    }
  }

  /** A larger treatment value never turns an INCREASE success into a failure. */
  lemma IncreaseMonotone(r: MetricResult, c: SuccessCriteria, t: real)
    requires r.treatmentVsControl.Some? && r.treatmentValue.Some? && c.operator == Increase
    requires r.treatmentValue.value <= t
    ensures CheckSuccessCriteria(r, c).success ==> CheckSuccessCriteria(r.(treatmentValue := Some(t)), c).success
  {
  }

  /** EQUALS asks for a distance below `control * 0.01`, which is negative for a
      negative control, so it then never succeeds. */
  lemma EqualsFailsOnNegativeControl(r: MetricResult, c: SuccessCriteria)
    requires HasComparison(r) && Reference(r) < 0.0 && c.operator == Equals
    ensures !CheckSuccessCriteria(r, c).success
  {
  }

  /** Control 100 and a 5 percent threshold: the target is 105, so 106 passes and 104
      fails, and the record carries the target. */
  lemma IncreaseExample()
    ensures var r := MetricResult("subscribers", 0.0, None, None, None, Some(106.0), Some(100.0),
                                  Some(Change(6.0, 6.0)), None, None);
      var v := CheckSuccessCriteria(r, SuccessCriteria("subscribers", 5.0, Increase));
      v.success && v.record.compoundTarget == Some(105.0)
    ensures var r := MetricResult("subscribers", 0.0, None, None, None, Some(104.0), Some(100.0),
                                  Some(Change(4.0, 4.0)), None, None);
      !CheckSuccessCriteria(r, SuccessCriteria("subscribers", 5.0, Increase)).success
  {
    Round2OnGrid(10500);
  }

  /** LESS_THAN is not the mirror of DECREASE: with control 100 and threshold 5, a
      treatment of 100 is below the LESS_THAN target of 105 but above the DECREASE
      target of 95. */
  lemma LessThanIsNotDecrease()
    ensures var r := MetricResult("views", 0.0, None, None, None, Some(100.0), Some(100.0),
                                  Some(Change(0.0, 0.0)), None, None);
      CheckSuccessCriteria(r, SuccessCriteria("views", 5.0, LessThan)).success
      && !CheckSuccessCriteria(r, SuccessCriteria("views", 5.0, Decrease)).success
  {
  }

  /** A record with neither a group comparison nor a baseline change fails, whatever
      the operator, and the check writes nothing into it. */
  lemma NoComparisonFails(metric: string, experimentData: Response, c: SuccessCriteria)
    ensures var r := CompareMetric(metric, experimentData, None, None);
      CheckSuccessCriteria(r, c) == Verdict(false, r)
  {
  }

  /** End to end for INCREASE: when both video groups are listed and the control sum
      is nonzero, success means the treatment sum reaches the compound target of the
      control sum. */
  lemma IncreaseOnVideoGroups(metric: string, experimentData: Response, baselineData: Option<Response>,
                              treatment: seq<string>, control: seq<string>, threshold: real)
    requires ExtractMetricForVideos(experimentData, metric, control) != 0.0
    ensures var r := CompareMetric(metric, experimentData, baselineData, Some(VideoGroups(Some(treatment), Some(control))));
      var t := ExtractMetricForVideos(experimentData, metric, treatment);
      var ctl := ExtractMetricForVideos(experimentData, metric, control);
      CheckSuccessCriteria(r, SuccessCriteria(metric, threshold, Increase)).success == (t >= ctl * (1.0 + threshold / 100.0))
  {
  }

  // ---------------------------------------------------------------------------
  // Automatic video detection

  /** An inclusive range of day numbers. */
  datatype Window = Window(start: int, end: int)

  /** The control window of `auto_detect_videos`: the last successful experiment's
      dates when there is one, otherwise the period ending the day before the start
      date and spanning as many days as the experiment. */
  function ControlWindow(e: Experiment, lastSuccess: Option<Experiment>): (w: Window)
    ensures lastSuccess.Some? ==> w == Window(lastSuccess.value.startDate, lastSuccess.value.endDate)
    ensures lastSuccess.None? ==> w.end == e.startDate - 1 && w.end - w.start == e.endDate - e.startDate
  {
    match lastSuccess
    case Some(s) => Window(s.startDate, s.endDate)
    case None =>
      var duration := e.endDate - e.startDate;
      var controlEnd := e.startDate - 1;
      Window(controlEnd - duration, controlEnd)
  }

  /** The control window as the analyser finds it: the store, when there is one, is
      asked for the last success that ended before the start date. */
  function ControlWindowFor(store: Option<Manager>, e: Experiment): (w: Window)
    ensures w.end < e.startDate
    ensures store.Some? && GetLastSuccessful(store.value, Some(e.startDate)).Some? ==>
      exists s :: s in Values(store.value) && Qualifies(s, Some(e.startDate)) && w == Window(s.startDate, s.endDate)
  {
    var last := if store.Some? then GetLastSuccessful(store.value, Some(e.startDate)) else None;
    ControlWindow(e, last)
  }

  /** Without a successful predecessor the control period has the experiment's
      inclusive length: June 10–25 gives May 25 – June 9. */
  lemma FallbackWindowSameLength(e: Experiment)
    ensures var w := ControlWindow(e, None);
      w.end - w.start + 1 == e.endDate - e.startDate + 1 && w.end + 1 == e.startDate
  {
  }

  /** A successful predecessor's dates take precedence over the fallback period, and
      among successes the latest ending one is used. */
  lemma LastSuccessTakesPrecedence(store: Manager, e: Experiment, s: Experiment)
    requires s in Values(store) && Qualifies(s, Some(e.startDate))
    ensures var w := ControlWindowFor(Some(store), e);
      exists p :: p in Values(store) && Qualifies(p, Some(e.startDate)) && w == Window(p.startDate, p.endDate)
        && s.endDate <= p.endDate
  {
    var last := GetLastSuccessful(store, Some(e.startDate));
    assert last.Some?;
    assert ControlWindowFor(Some(store), e) == Window(last.value.startDate, last.value.endDate);
  }

  /** The trigger in `analyse_experiment`: no video groups at all, or neither a
      non-empty treatment list nor a non-empty control list. */
  function NeedsAutoDetect(v: Option<VideoGroups>): (b: bool)
    ensures v.None? ==> b
    ensures v.Some? && v.value.treatment.Some? && |v.value.treatment.value| > 0 ==> !b
    ensures v.Some? && v.value.control.Some? && |v.value.control.value| > 0 ==> !b
    ensures (v.Some? && (v.value.treatment.None? || |v.value.treatment.value| == 0)
             && (v.value.control.None? || |v.value.control.value| == 0)) ==> b
  {
    v.None? || (
      (v.value.treatment.None? || |v.value.treatment.value| == 0)
      && (v.value.control.None? || |v.value.control.value| == 0))
  }

  /** The video groups the analysis uses: the detected ones (the ids listed for the
      experiment window and for the control window) when detection is triggered,
      otherwise the experiment's own. */
  function ResolveVideoIds(e: Experiment, detectedTreatment: seq<string>, detectedControl: seq<string>)
    : (v: Option<VideoGroups>)
    ensures NeedsAutoDetect(e.videoIds) ==> v == Some(VideoGroups(Some(detectedTreatment), Some(detectedControl)))
    ensures !NeedsAutoDetect(e.videoIds) ==> v == e.videoIds
  {
    if NeedsAutoDetect(e.videoIds) then Some(VideoGroups(Some(detectedTreatment), Some(detectedControl)))
    else e.videoIds
  }

  // ---------------------------------------------------------------------------
  // One analysis

  /** The parts of the analysis dictionary the model keeps. */
  datatype Analysis = Analysis(
    experimentId: string,
    success: bool,
    metrics: map<string, MetricResult>,
    videoIds: Option<VideoGroups>
  )

  /** The secondary metrics compared one after another into the map; a later entry
      replaces an earlier one with the same name. */
  function CompareAll(metrics: map<string, MetricResult>, names: seq<string>, experimentData: Response,
                      baselineData: Option<Response>, videoIds: Option<VideoGroups>)
    : (m: map<string, MetricResult>)
    ensures m.Keys == metrics.Keys + set n | n in names
    ensures forall n :: n in names ==> m[n] == CompareMetric(n, experimentData, baselineData, videoIds)
    ensures forall k :: k in metrics && k !in names ==> m[k] == metrics[k]
    decreases |names|
  {
    if |names| == 0 then metrics
    else
      var first := names[0];
      var m := CompareAll(metrics[first := CompareMetric(first, experimentData, baselineData, videoIds)],
                          names[1..], experimentData, baselineData, videoIds);
      assert forall n :: n in names <==> n == first || n in names[1..];
      m
  }

  /** `analyse_experiment` once the data is fetched: resolve the video groups,
      compare the primary metric and decide success on it, then compare every
      secondary metric. Baseline data counts only when both baseline dates are set.
      The success criteria's own metric name is never consulted. */
  function AnalyseExperiment(e: Experiment, detectedTreatment: seq<string>, detectedControl: seq<string>,
                             experimentData: Response, baselineData: Response): (a: Analysis)
    ensures a.experimentId == e.id
    ensures a.videoIds == ResolveVideoIds(e, detectedTreatment, detectedControl)
    ensures a.metrics.Keys == {e.metrics.primary} + set n | n in e.metrics.secondary
    ensures var base := if e.baselineStart.Some? && e.baselineEnd.Some? then Some(baselineData) else None;
      var primary := CompareMetric(e.metrics.primary, experimentData, base, a.videoIds);
      var verdict := CheckSuccessCriteria(primary, e.successCriteria);
      && a.success == verdict.success
      && (e.metrics.primary !in e.metrics.secondary ==> a.metrics[e.metrics.primary] == verdict.record)
      && (forall n :: n in e.metrics.secondary ==> a.metrics[n] == CompareMetric(n, experimentData, base, a.videoIds))
  {
    var videoIds := ResolveVideoIds(e, detectedTreatment, detectedControl);
    var base := if e.baselineStart.Some? && e.baselineEnd.Some? then Some(baselineData) else None;
    var primary := CompareMetric(e.metrics.primary, experimentData, base, videoIds);
    var verdict := CheckSuccessCriteria(primary, e.successCriteria);
    var metrics := CompareAll(map[e.metrics.primary := verdict.record], e.metrics.secondary,
                              experimentData, base, videoIds);
    Analysis(e.id, verdict.success, metrics, videoIds)
  }

  /** The experiment as `analyse_experiment` leaves it: when detection is triggered
      the detected groups are assigned to its `video_ids`, and the caller's
      `update_experiment` with the results then saves that assignment too. Nothing
      else about the experiment changes. */
  function AnalysedExperiment(e: Experiment, detectedTreatment: seq<string>, detectedControl: seq<string>)
    : (e2: Experiment)
    ensures e2 == e.(videoIds := e2.videoIds)
    ensures e2.videoIds == ResolveVideoIds(e, detectedTreatment, detectedControl)
    ensures !NeedsAutoDetect(e.videoIds) ==> e2 == e
    ensures NeedsAutoDetect(e.videoIds) ==>
      e2.videoIds == Some(VideoGroups(Some(detectedTreatment), Some(detectedControl)))
  {
    e.(videoIds := ResolveVideoIds(e, detectedTreatment, detectedControl))
  }

  /** The groups an analysis reports are the ones written back, and once a detection
      found any video the written-back experiment is analysed with those groups from
      then on, whatever a later detection would find. */
  lemma DetectedGroupsPersist(e: Experiment, dt: seq<string>, dc: seq<string>, dt2: seq<string>, dc2: seq<string>,
                              experimentData: Response, baselineData: Response)
    requires |dt| > 0 || |dc| > 0
    ensures AnalyseExperiment(e, dt, dc, experimentData, baselineData).videoIds == AnalysedExperiment(e, dt, dc).videoIds
    ensures ResolveVideoIds(AnalysedExperiment(e, dt, dc), dt2, dc2) == AnalysedExperiment(e, dt, dc).videoIds
  {
  }

  /** After automatic detection both group lists are present, even when empty, so the
      primary record always compares treatment with control. */
  lemma DetectedGroupsAreCompared(e: Experiment, detectedTreatment: seq<string>, detectedControl: seq<string>,
                                  experimentData: Response, baselineData: Response)
    requires NeedsAutoDetect(e.videoIds)
    ensures var a := AnalyseExperiment(e, detectedTreatment, detectedControl, experimentData, baselineData);
      e.metrics.primary !in e.metrics.secondary ==> a.metrics[e.metrics.primary].treatmentValue.Some?
  {
  }
}
