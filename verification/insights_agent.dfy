/** The deterministic part of the insights agent: the per-experiment summaries and
    totals handed to the language model, the choice of the best result named in the
    prompt, and the latest analysis date. */
module InsightsAgent {
  import opened Wrappers
  import opened Numeric
  import Seqs
  import opened MetricRecords
  import opened ExperimentManager

  // ---------------------------------------------------------------------------
  // Experiment summaries

  /** One entry of the `experiments` list: the fields the prompt reads. */
  datatype ExperimentSummary = ExperimentSummary(
    id: string,
    name: string,
    success: bool,
    metric: string,
    impactPercent: Option<real>,
    treatmentValue: Option<real>,
    controlValue: Option<real>
  )

  predicate HasResults(e: Experiment) {
    e.results.Some?
  }

  /** The impact of the primary metric: the treatment-vs-control change when the
      record holds one (with the group values), else the baseline change when it is
      present, else nothing. */
  function Summarise(e: Experiment): (s: ExperimentSummary)
    requires e.results.Some?
    ensures s.id == e.id && s.name == e.name && s.metric == e.metrics.primary
    ensures s.success <==> e.results.value.success == Some(true)
    ensures e.metrics.primary !in e.results.value.metrics ==> s.impactPercent.None?
    ensures s.impactPercent.Some? ==> (
      var md := e.results.value.metrics[e.metrics.primary];
      || (md.treatmentVsControl.Some? && s.impactPercent.value == md.treatmentVsControl.value.changePercent)
      || (md.treatmentVsControl.None? && md.changePercent == s.impactPercent))
    ensures s.treatmentValue.Some? || s.controlValue.Some? ==>
      e.metrics.primary in e.results.value.metrics && e.results.value.metrics[e.metrics.primary].treatmentVsControl.Some?
    ensures e.metrics.primary in e.results.value.metrics ==> (
      var md := e.results.value.metrics[e.metrics.primary];
      && (md.treatmentVsControl.None? ==> s.impactPercent == md.changePercent)
      && (md.treatmentVsControl.Some? ==> s.treatmentValue == md.treatmentValue && s.controlValue == md.controlValue))
  {
    var res := e.results.value;
    var base := ExperimentSummary(e.id, e.name, res.success == Some(true), e.metrics.primary, None, None, None);
    if e.metrics.primary in res.metrics then
      var md := res.metrics[e.metrics.primary];
      if md.treatmentVsControl.Some? then
        base.(impactPercent := Some(md.treatmentVsControl.value.changePercent),
              treatmentValue := md.treatmentValue, controlValue := md.controlValue)
      else if md.changePercent.Some? then base.(impactPercent := md.changePercent)
      else base
    else base
  }

  /** A recorded treatment-vs-control change takes precedence over the baseline
      change. */
  lemma TreatmentComparisonPreferred(e: Experiment)
    requires e.results.Some? && e.metrics.primary in e.results.value.metrics
    requires e.results.value.metrics[e.metrics.primary].treatmentVsControl.Some?
    ensures Summarise(e).impactPercent
      == Some(e.results.value.metrics[e.metrics.primary].treatmentVsControl.value.changePercent)
  {
  }

  function SummariseAll(es: seq<Experiment>): (r: seq<ExperimentSummary>)
    requires forall i :: 0 <= i < |es| ==> es[i].results.Some?
    ensures |r| == |es| && forall i :: 0 <= i < |es| ==> r[i] == Summarise(es[i])
  {
    if |es| == 0 then [] else [Summarise(es[0])] + SummariseAll(es[1..])
  }

  /** Every experiment's summary is listed, and nothing else is. */
  lemma SummariseAllMembers(es: seq<Experiment>)
    requires forall i :: 0 <= i < |es| ==> es[i].results.Some?
    ensures forall e :: e in es ==> Summarise(e) in SummariseAll(es)
    ensures forall s :: s in SummariseAll(es) ==> exists e :: e in es && e.results.Some? && s == Summarise(e)
  {
  }

  predicate Succeeded(s: ExperimentSummary) {
    s.success
  }

  predicate NotSucceeded(s: ExperimentSummary) {
    !s.success
  }

  datatype Summary = Summary(total: nat, successful: nat, failed: nat, successRate: real, analyzedCount: nat)

  datatype PreparedData = PreparedData(experiments: seq<ExperimentSummary>, summary: Summary)

  /** `_prepare_experiment_data`: the analysed experiments (those with results)
      summarised in order, with the success counts and the success rate in percent
      (0 when nothing was analysed). */
  function PrepareExperimentData(es: seq<Experiment>): (d: PreparedData)
    ensures |d.experiments| == d.summary.total == d.summary.analyzedCount
    ensures d.summary.successful + d.summary.failed == d.summary.total
    ensures d.summary.successful == Seqs.Count(d.experiments, Succeeded)
    ensures d.summary.failed == Seqs.Count(d.experiments, NotSucceeded)
    ensures 0.0 <= d.summary.successRate <= 100.0
    ensures d.summary.total == 0 ==> d.summary.successRate == 0.0
    ensures d.summary.total > 0 ==> d.summary.successRate == d.summary.successful as real / d.summary.total as real * 100.0
    ensures forall e :: e in es && e.results.Some? ==> Summarise(e) in d.experiments
    ensures forall s :: s in d.experiments ==> exists e :: e in es && e.results.Some? && s == Summarise(e)
  {
    var analysed := Seqs.Filter(es, HasResults);
    var list := SummariseAll(analysed);
    SummariseAllMembers(analysed);
    var successful := Seqs.Count(list, Succeeded);
    var failed := Seqs.Count(list, NotSucceeded);
    Seqs.CountSplits(list, Succeeded, NotSucceeded);
    var rate := SharePercent(successful, |list|);
    assert forall e :: e in es && e.results.Some? ==> e in analysed;
    PreparedData(list, Summary(|list|, successful, failed, rate, |analysed|))
  }

  /** Every experiment without results is left out of the totals. */
  lemma UnanalysedIgnored(es: seq<Experiment>, e: Experiment)
    requires e.results.None?
    ensures PrepareExperimentData(es + [e]).summary == PrepareExperimentData(es).summary
  {
    Seqs.FilterConcat(es, [e], HasResults);
    assert Seqs.Filter([e], HasResults) == [];
    assert Seqs.Filter(es + [e], HasResults) == Seqs.Filter(es, HasResults);
  }

  /** The summaries of the analysed experiments, in order. */
  function AnalysedSummaries(es: seq<Experiment>): seq<ExperimentSummary> {
    SummariseAll(Seqs.Filter(es, HasResults))
  }

  lemma PreparedFromSummaries(es: seq<Experiment>)
    ensures PrepareExperimentData(es).experiments == AnalysedSummaries(es)
  {
  }

  /** Appending an analysed experiment appends its summary. */
  lemma AnalysedSummariesSnoc(es: seq<Experiment>, e: Experiment)
    requires e.results.Some?
    ensures AnalysedSummaries(es + [e]) == AnalysedSummaries(es) + [Summarise(e)]
  {
    var a := Seqs.Filter(es, HasResults);
    Seqs.FilterConcat(es, [e], HasResults);
    assert Seqs.Filter([e], HasResults) == [e];
    SummariseAllSnoc(a, e);
  }

  lemma {:induction false} SummariseAllSnoc(a: seq<Experiment>, e: Experiment)
    requires forall i :: 0 <= i < |a| ==> a[i].results.Some?
    requires e.results.Some?
    ensures SummariseAll(a + [e]) == SummariseAll(a) + [Summarise(e)]
  {
    if |a| > 0 {
      assert (a + [e])[1..] == a[1..] + [e];
      SummariseAllSnoc(a[1..], e);
    }
  }

  /** One more analysed experiment adds one to the total, and one to the successes
      exactly when its record says it succeeded. */
  lemma AnalysedExperimentCounted(es: seq<Experiment>, e: Experiment)
    requires e.results.Some?
    ensures var before := PrepareExperimentData(es).summary;
      var after := PrepareExperimentData(es + [e]).summary;
      && after.total == before.total + 1
      && after.successful == before.successful + (if e.results.value.success == Some(true) then 1 else 0)
  {
    PreparedFromSummaries(es);
    PreparedFromSummaries(es + [e]);
    AnalysedSummariesSnoc(es, e);
    var sa := AnalysedSummaries(es);
    Seqs.FilterConcat(sa, [Summarise(e)], Succeeded);
    assert Seqs.Filter([Summarise(e)], Succeeded) == if Summarise(e).success then [Summarise(e)] else [];
  }

  // ---------------------------------------------------------------------------
  // Best result

  /** The impact the prompt compares, 0 when absent. */
  function Impact(s: ExperimentSummary): real {
    s.impactPercent.GetOr(0.0)
  }

  /** `i` is the experiment the prompt names as best: a success with a positive
      impact, no success has a larger one, and every earlier success has a smaller
      one. */
  ghost predicate IsBest(xs: seq<ExperimentSummary>, i: nat) {
    && i < |xs|
    && xs[i].success && Impact(xs[i]) > 0.0
    && (forall j :: 0 <= j < |xs| && xs[j].success ==> Impact(xs[j]) <= Impact(xs[i]))
    && (forall j :: 0 <= j < i && xs[j].success ==> Impact(xs[j]) < Impact(xs[i]))
  }

  /** The search in `_build_prompt`: the running best starts at 0 and only a strictly
      larger impact replaces it, so the first of equal impacts wins and `None`
      stands for 'Not yet determined'. */
  method BestResult(xs: seq<ExperimentSummary>) returns (best: Option<nat>)
    ensures best.None? <==> forall i :: 0 <= i < |xs| ==> !(xs[i].success && Impact(xs[i]) > 0.0)
    ensures best.Some? ==> IsBest(xs, best.value)
  {
    best := None;
    var bestImpact := 0.0;
    var i := 0;
    while i < |xs|
      invariant 0 <= i <= |xs|
      invariant best.None? ==> bestImpact == 0.0
      invariant best.None? <==> forall j :: 0 <= j < i ==> !(xs[j].success && Impact(xs[j]) > 0.0)
      invariant best.Some? ==> best.value < i && xs[best.value].success && Impact(xs[best.value]) == bestImpact > 0.0
      invariant forall j :: 0 <= j < i && xs[j].success ==> Impact(xs[j]) <= bestImpact
      invariant best.Some? ==> forall j :: 0 <= j < best.value && xs[j].success ==> Impact(xs[j]) < bestImpact
    {
      if xs[i].success && Impact(xs[i]) > bestImpact {
        bestImpact := Impact(xs[i]);
        best := Some(i);
      }
      i := i + 1;
    }
  }

  /** At most one position satisfies the choice, so the search result is the only
      possible one. */
  lemma BestIsUnique(xs: seq<ExperimentSummary>, i: nat, k: nat)
    requires IsBest(xs, i) && IsBest(xs, k)
    ensures i == k
  {
  }

  // ---------------------------------------------------------------------------
  // Latest analysis date

  /** An `analysis_date` value: the empty string a result without one reads as, or
      an instant. The ISO strings of one format order like their instants, and the
      empty string comes before all of them. */
  datatype Stamp = Blank | At(t: int)

  predicate StampLe(a: Stamp, b: Stamp) {
    a.Blank? || (b.At? && a.t <= b.t)
  }

  function StampOf(e: Experiment): Stamp
    requires e.results.Some?
  {
    match e.results.value.analysisDate
    case None => Blank
    case Some(t) => At(t)
  }

  function MaxStamp(a: Stamp, b: Stamp): (m: Stamp)
    ensures StampLe(a, m) && StampLe(b, m) && (m == a || m == b)
  {
    if StampLe(a, b) then b else a
  }

  /** The largest stamp of the experiments with results, from `acc` on. */
  function LatestFrom(es: seq<Experiment>, acc: Stamp): (m: Stamp)
    ensures StampLe(acc, m)
    ensures forall e :: e in es && e.results.Some? ==> StampLe(StampOf(e), m)
    ensures m == acc || exists e :: e in es && e.results.Some? && m == StampOf(e)
  {
    if |es| == 0 then acc
    else
      var next := if es[0].results.Some? then MaxStamp(acc, StampOf(es[0])) else acc;
      var m := LatestFrom(es[1..], next);
      assert forall e :: e in es ==> e == es[0] || e in es[1..];
      assert m != acc && m != next ==> exists e :: e in es[1..] && e.results.Some? && m == StampOf(e);
      m
  }

  /** `_get_latest_analysis_date`: the latest stamp among the experiments with
      results, or the present instant when there are none. */
  function LatestAnalysisDate(es: seq<Experiment>, now: int): (m: Stamp)
    ensures (forall e :: e in es ==> e.results.None?) ==> m == At(now)
    ensures (exists e :: e in es && e.results.Some?) ==> (
      && (forall e :: e in es && e.results.Some? ==> StampLe(StampOf(e), m))
      && (exists e :: e in es && e.results.Some? && m == StampOf(e)))
  {
    match Seqs.FindFirst(es, HasResults)
    case None => At(now)
    case Some(i) =>
      var m := LatestFrom(es, StampOf(es[i]));
      assert es[i] in es;
      m
  }
}
