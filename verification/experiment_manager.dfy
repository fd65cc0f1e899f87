/** Experiment definitions, their date-derived lifecycle, their dictionary form, and
    the in-memory store (`ExperimentManager`) keyed by experiment id. Calendar dates
    are day numbers and creation times are integer timestamps; the YAML file behind
    the store is not modelled. */
module ExperimentManager {
  import opened Wrappers
  import opened MetricRecords
  import Seqs
  import Sorting

  datatype ExperimentStatus = Draft | Active | Completed | Cancelled {
    /** The enum's string value. */
    function Value(): string {
      match this
      case Draft => "draft"
      case Active => "active"
      case Completed => "completed"
      case Cancelled => "cancelled"
    }
  }

  /** `ExperimentStatus(value)`; `None` is the `ValueError` for an unknown value. */
  function StatusFromValue(s: string): (r: Option<ExperimentStatus>)
    ensures r.Some? ==> r.value.Value() == s
  {
    if s == "draft" then Some(Draft)
    else if s == "active" then Some(Active)
    else if s == "completed" then Some(Completed)
    else if s == "cancelled" then Some(Cancelled)
    else None
  }

  lemma StatusValueRoundTrip(st: ExperimentStatus)
    ensures StatusFromValue(st.Value()) == Some(st)
  {
  }

  datatype ComparisonOperator = Increase | Decrease | Equals | GreaterThan | LessThan {
    function Value(): string {
      match this
      case Increase => "increase"
      case Decrease => "decrease"
      case Equals => "equals"
      case GreaterThan => "greater_than"
      case LessThan => "less_than"
    }
  }

  /** `ComparisonOperator(value)`; `None` is the `ValueError` for an unknown value. */
  function OperatorFromValue(s: string): (r: Option<ComparisonOperator>)
    ensures r.Some? ==> r.value.Value() == s
  {
    if s == "increase" then Some(Increase)
    else if s == "decrease" then Some(Decrease)
    else if s == "equals" then Some(Equals)
    else if s == "greater_than" then Some(GreaterThan)
    else if s == "less_than" then Some(LessThan)
    else None
  }

  lemma OperatorValueRoundTrip(op: ComparisonOperator)
    ensures OperatorFromValue(op.Value()) == Some(op)
  {
  }

  /** What makes an experiment successful; `threshold` is a percentage. */
  datatype SuccessCriteria = SuccessCriteria(metric: string, threshold: real, operator: ComparisonOperator)

  /** The `metrics` dictionary: a primary metric and optional secondary ones. */
  datatype MetricsSpec = MetricsSpec(primary: string, secondary: seq<string>)

  /** The stored `results` dictionary, of which the store reads `success`,
      `analysis_date` and `metrics`. `None` in `Experiment.results` stands for a
      missing or empty dictionary. */
  datatype Results = Results(success: Option<bool>, analysisDate: Option<int>, metrics: map<string, MetricResult>)

  datatype Experiment = Experiment(
    id: string,
    name: string,
    hypothesis: string,
    startDate: int,
    endDate: int,
    metrics: MetricsSpec,
    successCriteria: SuccessCriteria,
    status: ExperimentStatus,
    baselineStart: Option<int>,
    baselineEnd: Option<int>,
    videoIds: Option<VideoGroups>,
    notes: string,
    results: Option<Results>,
    createdAt: int
  )

  // ---------------------------------------------------------------------------
  // Date-derived lifecycle

  /** `get_automatic_status`: completed once `today` is past the end date, active
      inside the inclusive date range, draft otherwise. */
  function AutomaticStatus(e: Experiment, today: int): (s: ExperimentStatus)
    ensures s == Completed <==> today > e.endDate
    ensures s == Active <==> e.startDate <= today <= e.endDate
    ensures s == Draft <==> today < e.startDate && today <= e.endDate
  {
    if today > e.endDate then Completed
    else if e.startDate <= today then Active
    else Draft
  }

  /** Position of a status along the date-driven lifecycle. */
  function LifecycleRank(s: ExperimentStatus): nat {
    match s
    case Draft => 0
    case Active => 1
    case Completed => 2
    case Cancelled => 3
  }

  /** As days pass the automatic status only moves forward: draft, then active, then
      completed, and never back. */
  lemma AutomaticStatusMonotone(e: Experiment, t1: int, t2: int)
    requires t1 <= t2
    ensures LifecycleRank(AutomaticStatus(e, t1)) <= LifecycleRank(AutomaticStatus(e, t2))
    ensures AutomaticStatus(e, t1) != Cancelled
  {
  }

  function IsActive(e: Experiment, today: int): (b: bool)
    ensures b <==> e.startDate <= today <= e.endDate
  {
    AutomaticStatus(e, today) == Active
  }

  function IsReadyForAnalysis(e: Experiment, today: int): (b: bool)
    ensures b <==> today > e.endDate
  {
    AutomaticStatus(e, today) == Completed
  }

  /** An experiment is never both running and ready for analysis. */
  lemma NeverActiveAndReady(e: Experiment, today: int)
    ensures !(IsActive(e, today) && IsReadyForAnalysis(e, today))
  {
  }

  // ---------------------------------------------------------------------------
  // Dictionary form

  datatype CriteriaDict = CriteriaDict(metric: string, threshold: real, operator: string)

  /** The serialised experiment. Keys read with `.get` may be missing (`None`). */
  datatype ExperimentDict = ExperimentDict(
    id: string,
    name: string,
    hypothesis: string,
    startDate: int,
    endDate: int,
    metrics: MetricsSpec,
    successCriteria: CriteriaDict,
    status: Option<string>,
    baselineStart: Option<int>,
    baselineEnd: Option<int>,
    videoIds: Option<VideoGroups>,
    notes: Option<string>,
    results: Option<Results>,
    createdAt: Option<int>
  )

  datatype DictError = UnknownOperator(operator: string) | UnknownStatus(status: string)

  /** `to_dict`: every field, with the status replaced by the automatic status and the
      operator written as its string value. */
  function ToDict(e: Experiment, today: int): (d: ExperimentDict)
    ensures d.status == Some(AutomaticStatus(e, today).Value())
    ensures d.successCriteria.operator == e.successCriteria.operator.Value()
  {
    ExperimentDict(
      e.id, e.name, e.hypothesis, e.startDate, e.endDate, e.metrics,
      CriteriaDict(e.successCriteria.metric, e.successCriteria.threshold, e.successCriteria.operator.Value()),
      Some(AutomaticStatus(e, today).Value()),
      e.baselineStart, e.baselineEnd, e.videoIds, Some(e.notes), e.results, Some(e.createdAt))
  }

  /** `from_dict`, with `now` standing for the `datetime.now()` default of
      `created_at`. The operator is parsed before the status, as the constructor's
      keyword arguments are evaluated in that order. */
  function FromDict(d: ExperimentDict, now: int): (r: Result<Experiment, DictError>)
    ensures OperatorFromValue(d.successCriteria.operator).None? ==> r == Err(UnknownOperator(d.successCriteria.operator))
    ensures r.Ok? ==> r.value.status.Value() == d.status.GetOr("draft")
    ensures r.Ok? ==> r.value.notes == d.notes.GetOr("") && r.value.createdAt == d.createdAt.GetOr(now)
  {
    match OperatorFromValue(d.successCriteria.operator)
    case None => Err(UnknownOperator(d.successCriteria.operator))
    case Some(op) =>
      var statusText := d.status.GetOr("draft");
      match StatusFromValue(statusText)
      case None => Err(UnknownStatus(statusText))
      case Some(st) =>
        Ok(Experiment(
          d.id, d.name, d.hypothesis, d.startDate, d.endDate, d.metrics,
          SuccessCriteria(d.successCriteria.metric, d.successCriteria.threshold, op),
          st, d.baselineStart, d.baselineEnd, d.videoIds, d.notes.GetOr(""), d.results,
          d.createdAt.GetOr(now)))
  }

  /** Reading back a written experiment restores every field except the status,
      which becomes the date-derived one. */
  lemma DictRoundTrip(e: Experiment, today: int, now: int)
    ensures FromDict(ToDict(e, today), now) == Ok(e.(status := AutomaticStatus(e, today)))
  {
    OperatorValueRoundTrip(e.successCriteria.operator);
    StatusValueRoundTrip(AutomaticStatus(e, today));
  }

  // ---------------------------------------------------------------------------
  // The store

  /** The `experiments` dictionary, with its keys in insertion order. */
  datatype Manager = Manager(order: seq<string>, experiments: map<string, Experiment>)

  /** The insertion order lists every key exactly once. */
  ghost predicate Valid(m: Manager) {
    && Seqs.Distinct(m.order)
    && (forall k :: k in m.experiments <==> k in m.order)
  }

  function Empty(): (m: Manager)
    ensures Valid(m) && m.experiments == map[]
  {
    Manager([], map[])
  }

  /** `self.experiments.values()`, in insertion order. */
  function Values(m: Manager): seq<Experiment> {
    Seqs.ValuesInOrder(m.order, m.experiments)
  }

  datatype ManagerError = AlreadyExists(id: string) | NotFound(id: string)

  /** `create_experiment`: refuses an id already present; otherwise the store gains
      exactly that id, mapped to the new experiment, appended to the order. */
  function CreateExperiment(m: Manager, e: Experiment): (r: Result<Manager, ManagerError>)
    ensures r.Err? <==> e.id in m.experiments
    ensures r.Err? ==> r.error == AlreadyExists(e.id)
    ensures r.Ok? ==> r.value.experiments.Keys == m.experiments.Keys + {e.id}
    ensures r.Ok? ==> r.value.experiments[e.id] == e
    ensures r.Ok? ==> forall k :: k in m.experiments ==> r.value.experiments[k] == m.experiments[k]
    ensures r.Ok? ==> r.value.order == m.order + [e.id]
  {
    if e.id in m.experiments then Err(AlreadyExists(e.id))
    else Ok(Manager(m.order + [e.id], m.experiments[e.id := e]))
  }

  lemma CreatePreservesValid(m: Manager, e: Experiment)
    requires Valid(m)
    requires CreateExperiment(m, e).Ok?
    ensures Valid(CreateExperiment(m, e).value)
  {
  }

  /** `get_experiment`. */
  function GetExperiment(m: Manager, id: string): (r: Option<Experiment>)
    ensures r.Some? <==> id in m.experiments
    ensures r.Some? ==> r.value == m.experiments[id]
  {
    if id in m.experiments then Some(m.experiments[id]) else None
  }

  function CreatedKey(e: Experiment): real {
    e.createdAt as real
  }

  function HasStatus(status: ExperimentStatus): Experiment -> bool {
    (e: Experiment) => e.status == status
  }

  /** `list_experiments`: optionally keeps the experiments whose STORED status
      matches (the date-derived status plays no part), newest `created_at` first. */
  function ListExperiments(m: Manager, status: Option<ExperimentStatus>): (r: seq<Experiment>)
    ensures Sorting.SortedDesc(r, CreatedKey)
    ensures status.None? ==> multiset(r) == multiset(Values(m))
    ensures status.Some? ==> multiset(r) == multiset(Seqs.Filter(Values(m), HasStatus(status.value)))
    ensures status.Some? ==> forall e :: e in r ==> e.status == status.value
  {
    var vs := Values(m);
    var kept := if status.Some? then Seqs.Filter(vs, HasStatus(status.value)) else vs;
    var r := Sorting.SortDesc(kept, CreatedKey);
    assert forall e :: e in r ==> e in multiset(kept);
    r
  }

  /** Experiments created at the same moment keep their insertion order among
      themselves, as Python's stable `sorted` keeps them. */
  lemma ListKeepsTiesInOrder(m: Manager, status: Option<ExperimentStatus>, createdAt: real)
    ensures var kept := if status.Some? then Seqs.Filter(Values(m), HasStatus(status.value)) else Values(m);
      Seqs.Filter(ListExperiments(m, status), Sorting.KeyIs(CreatedKey, createdAt))
        == Seqs.Filter(kept, Sorting.KeyIs(CreatedKey, createdAt))
  {
    var kept := if status.Some? then Seqs.Filter(Values(m), HasStatus(status.value)) else Values(m);
    Sorting.SortDescStable(kept, CreatedKey, createdAt);
  }

  /** One `key: value` pair of the `updates` dictionary. `NoSuchAttribute` is a key
      the experiment has no attribute for, which `update_experiment` skips. */
  datatype Patch =
    | SetId(id: string)
    | SetName(name: string)
    | SetHypothesis(hypothesis: string)
    | SetStartDate(startDate: int)
    | SetEndDate(endDate: int)
    | SetMetrics(metrics: MetricsSpec)
    | SetSuccessCriteria(successCriteria: SuccessCriteria)
    | SetStatus(status: ExperimentStatus)
    | SetBaselineStart(baselineStart: Option<int>)
    | SetBaselineEnd(baselineEnd: Option<int>)
    | SetVideoIds(videoIds: Option<VideoGroups>)
    | SetNotes(notes: string)
    | SetResults(results: Option<Results>)
    | SetCreatedAt(createdAt: int)
    | NoSuchAttribute(key: string)

  function ApplyPatch(e: Experiment, p: Patch): Experiment {
    match p
    case SetId(v) => e.(id := v)
    case SetName(v) => e.(name := v)
    case SetHypothesis(v) => e.(hypothesis := v)
    case SetStartDate(v) => e.(startDate := v)
    case SetEndDate(v) => e.(endDate := v)
    case SetMetrics(v) => e.(metrics := v)
    case SetSuccessCriteria(v) => e.(successCriteria := v)
    case SetStatus(v) => e.(status := v)
    case SetBaselineStart(v) => e.(baselineStart := v)
    case SetBaselineEnd(v) => e.(baselineEnd := v)
    case SetVideoIds(v) => e.(videoIds := v)
    case SetNotes(v) => e.(notes := v)
    case SetResults(v) => e.(results := v)
    case SetCreatedAt(v) => e.(createdAt := v)
    case NoSuchAttribute(_) => e
  }

  /** `setattr` for each pair in turn; a later pair for the same key wins. */
  function ApplyPatches(e: Experiment, ps: seq<Patch>): Experiment
    decreases |ps|
  {
    if |ps| == 0 then e else ApplyPatches(ApplyPatch(e, ps[0]), ps[1..])
  }

  /** Keys that are not attributes of the experiment change nothing. */
  lemma {:induction false} UnknownKeysIgnored(e: Experiment, ps: seq<Patch>)
    requires forall i :: 0 <= i < |ps| ==> ps[i].NoSuchAttribute?
    ensures ApplyPatches(e, ps) == e
    decreases |ps|
  {
    if |ps| > 0 {
      UnknownKeysIgnored(e, ps[1..]);
    }
  }

  /** `update_experiment`: refuses an unknown id; otherwise only that entry changes,
      and it changes by the given patches. */
  function UpdateExperiment(m: Manager, id: string, ps: seq<Patch>): (r: Result<Manager, ManagerError>)
    ensures r.Err? <==> id !in m.experiments
    ensures r.Err? ==> r.error == NotFound(id)
    ensures r.Ok? ==> r.value.order == m.order && r.value.experiments.Keys == m.experiments.Keys
    ensures r.Ok? ==> r.value.experiments[id] == ApplyPatches(m.experiments[id], ps)
    ensures r.Ok? ==> forall k :: k in m.experiments && k != id ==> r.value.experiments[k] == m.experiments[k]
  {
    if id !in m.experiments then Err(NotFound(id))
    else Ok(m.(experiments := m.experiments[id := ApplyPatches(m.experiments[id], ps)]))
  }

  /** `update_status`. */
  function UpdateStatus(m: Manager, id: string, status: ExperimentStatus): (r: Result<Manager, ManagerError>)
    ensures r.Err? <==> id !in m.experiments
    ensures r.Ok? ==> (id in m.experiments && id in r.value.experiments
                       && r.value.experiments[id] == m.experiments[id].(status := status))
  {
    var ps := [SetStatus(status)];
    assert id in m.experiments ==> ApplyPatches(m.experiments[id], ps) == ApplyPatches(m.experiments[id].(status := status), []);
    UpdateExperiment(m, id, ps)
  }

  /** Setting `id` through an update renames the experiment but not its key: after
      it the stored experiment's id no longer matches the key it is stored under. */
  lemma UpdateIdDetachesKey(m: Manager, id: string, newId: string)
    requires id in m.experiments && newId != id
    ensures UpdateExperiment(m, id, [SetId(newId)]).Ok?
    ensures var m' := UpdateExperiment(m, id, [SetId(newId)]).value;
      id in m'.experiments && newId !in m'.experiments.Keys - m.experiments.Keys
      && m'.experiments[id].id == newId
  {
    var ps := [SetId(newId)];
    assert ApplyPatches(m.experiments[id], ps) == ApplyPatches(m.experiments[id].(id := newId), []);
  }

  /** Every position of `order` other than those holding `id`. */
  function Without(order: seq<string>, id: string): (r: seq<string>)
    ensures forall k :: k in r <==> k in order && k != id
    ensures Seqs.Distinct(order) ==> Seqs.Distinct(r)
  {
    Seqs.FilterDistinct(order, k => k != id);
    Seqs.Filter(order, k => k != id)
  }

  /** `delete_experiment`: an unknown id is a no-op; otherwise exactly that id goes. */
  function DeleteExperiment(m: Manager, id: string): (r: Manager)
    ensures id !in m.experiments ==> r == m
    ensures id in m.experiments ==> r.experiments.Keys == m.experiments.Keys - {id}
    ensures forall k :: k in r.experiments ==> r.experiments[k] == m.experiments[k]
    ensures Valid(m) ==> Valid(r)
  {
    if id in m.experiments then Manager(Without(m.order, id), m.experiments - {id}) else m
  }

  function ActiveOn(today: int): Experiment -> bool {
    e => IsActive(e, today)
  }

  function ReadyOn(today: int): Experiment -> bool {
    e => IsReadyForAnalysis(e, today)
  }

  /** `get_active_experiments`: one entry per stored experiment running today. */
  function GetActiveExperiments(m: Manager, today: int): (r: seq<Experiment>)
    ensures forall e :: e in r <==> e in Values(m) && e.startDate <= today <= e.endDate
    ensures Valid(m) ==> |r| == |Seqs.KeysWhere(m.experiments, ActiveOn(today))|
  {
    FilterCountsStored(m, ActiveOn(today));
    Seqs.Filter(Values(m), ActiveOn(today))
  }

  /** `get_ready_for_analysis`: one entry per stored experiment that has ended. */
  function GetReadyForAnalysis(m: Manager, today: int): (r: seq<Experiment>)
    ensures forall e :: e in r <==> e in Values(m) && today > e.endDate
    ensures Valid(m) ==> |r| == |Seqs.KeysWhere(m.experiments, ReadyOn(today))|
  {
    FilterCountsStored(m, ReadyOn(today));
    Seqs.Filter(Values(m), ReadyOn(today))
  }

  /** Under `Valid` the order lists each stored id once, so a comprehension over
      `values()` has one element per stored id whose experiment passes. */
  lemma FilterCountsStored(m: Manager, p: Experiment -> bool)
    ensures Valid(m) ==> |Seqs.Filter(Values(m), p)| == |Seqs.KeysWhere(m.experiments, p)|
  {
    if Valid(m) {
      Seqs.CountHeldKeys(m.order, m.experiments, p);
    }
  }

  // ---------------------------------------------------------------------------
  // Last successful experiment

  /** Stored results say `success == True`, and the experiment ended strictly before
      `before` when a date is given. */
  predicate Qualifies(e: Experiment, before: Option<int>) {
    && e.results.Some?
    && e.results.value.success == Some(true)
    && (before.Some? ==> e.endDate < before.value)
  }

  function EndKey(e: Experiment): real {
    e.endDate as real
  }

  /** `get_last_successful_experiment`: filter the successful experiments (and those
      that ended before `before`), sort by end date, latest first, take the head. */
  function GetLastSuccessful(m: Manager, before: Option<int>): (r: Option<Experiment>)
    ensures r.None? <==> forall e :: e in Values(m) ==> !Qualifies(e, before)
    ensures r.Some? ==> r.value in Values(m) && Qualifies(r.value, before)
    ensures r.Some? ==> forall e :: e in Values(m) && Qualifies(e, before) ==> e.endDate <= r.value.endDate
  {
    var candidates := Seqs.Filter(Values(m), e => Qualifies(e, before));
    if |candidates| == 0 then None
    else
      var sorted := Sorting.SortDesc(candidates, EndKey);
      Sorting.SortDescHeadMax(candidates, EndKey);
      Some(sorted[0])
  }

  /** The first qualifying experiment, in order, among those with the latest end
      date: the reference reading of "most recent success, earlier entry on a tie". */
  function FirstLatest(vs: seq<Experiment>, before: Option<int>): Option<Experiment> {
    if |vs| == 0 then None
    else
      var rest := FirstLatest(vs[1..], before);
      if !Qualifies(vs[0], before) then rest
      else if rest.None? || rest.value.endDate <= vs[0].endDate then Some(vs[0])
      else rest
  }

  /** The head of a stable latest-first sort is the first element with the largest key. */
  lemma SortHeadIsFirstLatest(cs: seq<Experiment>, before: Option<int>)
    requires forall e :: e in cs ==> Qualifies(e, before)
    requires |cs| > 0
    ensures Some(Sorting.SortDesc(cs, EndKey)[0]) == FirstLatest(cs, before)
  {
    Sorting.SortDescHead(cs, EndKey);
    FirstMaxIsFirstLatest(cs, before);
  }

  /** On qualifying experiments the reference reading is the first of the latest. */
  lemma {:induction false} FirstMaxIsFirstLatest(cs: seq<Experiment>, before: Option<int>)
    requires forall e :: e in cs ==> Qualifies(e, before)
    requires |cs| > 0
    ensures FirstLatest(cs, before) == Some(Sorting.FirstMax(cs, EndKey))
  {
    assert cs[0] in cs;
    if |cs| > 1 {
      assert forall e :: e in cs[1..] ==> e in cs;
      FirstMaxIsFirstLatest(cs[1..], before);
    }
  }

  lemma {:induction false} FirstLatestSkipsUnqualified(vs: seq<Experiment>, before: Option<int>)
    ensures FirstLatest(vs, before) == FirstLatest(Seqs.Filter(vs, e => Qualifies(e, before)), before)
  {
    if |vs| > 0 {
      FirstLatestSkipsUnqualified(vs[1..], before);
    }
  }

  /** On a tie for the latest end date the experiment stored first wins, because the
      sort keeps equal keys in their original order. */
  lemma LastSuccessfulBreaksTiesByOrder(m: Manager, before: Option<int>)
    ensures GetLastSuccessful(m, before) == FirstLatest(Values(m), before)
  {
    var candidates := Seqs.Filter(Values(m), e => Qualifies(e, before));
    FirstLatestSkipsUnqualified(Values(m), before);
    if |candidates| > 0 {
      SortHeadIsFirstLatest(candidates, before);
    } else {
      assert FirstLatest(candidates, before) == None;
    }
  }
}
