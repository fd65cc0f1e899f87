/** The arithmetic behind the web API's endpoints: the next experiment id, the
    dashboard counts and success rate, the channel's engagement rate, the count of
    Shorts from video durations, and the sample-size answer. Routing, JSON and the
    analytics services are not modelled; their answers are parameters. */
module ApiServer {
  import opened Wrappers
  import Seqs
  import opened Digits
  import opened Numeric
  import opened RealArith
  import opened Oracles
  import opened ExperimentManager
  import StatisticsEngine

  // ---------------------------------------------------------------------------
  // Next experiment id

  /** The largest of the present values. */
  function MaxPresent(xs: seq<Option<int>>): (r: Option<int>)
    ensures r.None? <==> forall i :: 0 <= i < |xs| ==> xs[i].None?
    ensures r.Some? ==> exists i :: 0 <= i < |xs| && xs[i] == r
    ensures r.Some? ==> forall i :: 0 <= i < |xs| && xs[i].Some? ==> xs[i].value <= r.value
  {
    if |xs| == 0 then None
    else
      var rest := MaxPresent(xs[1..]);
      assert forall i :: 1 <= i < |xs| ==> xs[i] == xs[1..][i - 1];
      if xs[0].None? then rest
      else if rest.None? || rest.value <= xs[0].value then xs[0]
      else rest
  }

  /** `int(id)` for every id, `None` where it raises. */
  function ParsedIds(ids: seq<string>): (r: seq<Option<int>>)
    ensures |r| == |ids| && forall i :: 0 <= i < |ids| ==> r[i] == ParseInt(ids[i])
  {
    seq(|ids|, i requires 0 <= i < |ids| => ParseInt(ids[i]))
  }

  /** The largest id that `int()` accepts, `None` when none does. */
  function MaxNumericId(ids: seq<string>): (r: Option<int>)
    ensures r.None? <==> forall i :: 0 <= i < |ids| ==> ParseInt(ids[i]).None?
    ensures r.Some? ==> exists i :: 0 <= i < |ids| && ParseInt(ids[i]) == r
    ensures r.Some? ==> forall i :: 0 <= i < |ids| && ParseInt(ids[i]).Some? ==> ParseInt(ids[i]).value <= r.value
  {
    MaxPresent(ParsedIds(ids))
  }

  /** `get_next_experiment_id`: '1' when there are no experiments or none has an
      integer id, otherwise one more than the largest integer id; other ids are
      skipped. */
  function NextExperimentId(ids: seq<string>): (next: string)
    ensures MaxNumericId(ids).None? ==> next == "1"
    ensures MaxNumericId(ids).Some? ==> next == IntToString(MaxNumericId(ids).value + 1)
  {
    if |ids| == 0 then "1"
    else
      match MaxNumericId(ids)
      case None => "1"
      case Some(m) => IntToString(m + 1)
  }

  /** The next id is new: it reads back as an integer above every integer id, so it
      equals none of the existing ids. */
  lemma NextIdFresh(ids: seq<string>)
    ensures ParseInt(NextExperimentId(ids)).Some?
    ensures forall i :: (0 <= i < |ids| && ParseInt(ids[i]).Some?
      ==> ParseInt(ids[i]).value < ParseInt(NextExperimentId(ids)).value)
    ensures NextExperimentId(ids) !in ids
  {
    var next := NextExperimentId(ids);
    match MaxNumericId(ids)
    case None =>
      ParseIntToString(1);
      assert IntToString(1) == "1";
    case Some(m) =>
      ParseIntToString(m + 1);
  }

  /** Values 1, 2, ..., n in order have n as their largest. */
  lemma MaxOfCounting(xs: seq<Option<int>>)
    requires |xs| > 0 && forall i :: 0 <= i < |xs| ==> xs[i] == Some(i + 1)
    ensures MaxPresent(xs) == Some(|xs|)
  {
    var r := MaxPresent(xs);
    var last := |xs| - 1;
    assert xs[last] == Some(|xs|);
    assert r.Some? && r.value >= |xs| by {
      assert xs[last].Some? && xs[last].value == |xs|;
    }
    var k :| 0 <= k < |xs| && xs[k] == r;
    assert r.value == k + 1 <= |xs|;
  }

  /** Experiment ids handed out one after another from an empty store read 1, 2, 3,
      and so on. */
  lemma NextIdCounts(n: nat)
    ensures NextExperimentId(seq(n, i requires 0 <= i < n => NatToString(i + 1))) == NatToString(n + 1)
  {
    var ids := seq(n, i requires 0 <= i < n => NatToString(i + 1));
    if n > 0 {
      forall i | 0 <= i < n
        ensures ParseInt(ids[i]) == Some(i + 1)
      {
        ParseNatToString(i + 1);
        assert ParseInt(NatToString(i + 1)) == Some(i + 1);
      }
      MaxOfCounting(ParsedIds(ids));
    } else {
      assert NatToString(1) == "1";
    }
  }

  // ---------------------------------------------------------------------------
  // Dashboard

  datatype RecentEntry = RecentEntry(id: string, name: string, status: string, createdAt: int)

  datatype Dashboard = Dashboard(
    totalExperiments: nat,
    active: nat,
    completed: nat,
    successful: nat,
    successRate: real,
    readyForAnalysis: nat,
    recent: seq<RecentEntry>
  )

  predicate IsActiveStatus(e: Experiment) {
    e.status == Active
  }

  predicate IsCompletedStatus(e: Experiment) {
    e.status == Completed
  }

  /** Completed, with stored results whose `success` is true. */
  predicate IsSuccessful(e: Experiment) {
    e.status == Completed && e.results.Some? && e.results.value.success == Some(true)
  }

  function Recent(e: Experiment): RecentEntry {
    RecentEntry(e.id, e.name, e.status.Value(), e.createdAt)
  }

  function RecentEntries(es: seq<Experiment>): (r: seq<RecentEntry>)
    ensures |r| == |es| && forall i :: 0 <= i < |es| ==> r[i] == Recent(es[i])
  {
    if |es| == 0 then [] else [Recent(es[0])] + RecentEntries(es[1..])
  }

  /** Two conditions that never hold together count no more than the list holds. */
  lemma {:induction false} CountDisjoint<T(!new)>(s: seq<T>, p: T -> bool, q: T -> bool)
    requires forall x :: !(p(x) && q(x))
    ensures Seqs.Count(s, p) + Seqs.Count(s, q) <= |s|
  {
    if |s| > 0 {
      CountDisjoint(s[1..], p, q);
    }
  }

  /** The dashboard counts over a list: the counts by stored status and the
      successes among the completed. */
  function StatusCounts(all: seq<Experiment>): (r: (nat, nat, nat))
    ensures r.0 + r.1 <= |all| && r.2 <= r.1
    ensures r.0 == Seqs.Count(all, IsActiveStatus) && r.1 == Seqs.Count(all, IsCompletedStatus)
    ensures r.2 == Seqs.Count(all, IsSuccessful)
  {
    CountDisjoint(all, IsActiveStatus, IsCompletedStatus);
    Seqs.CountMonotone(all, IsSuccessful, IsCompletedStatus);
    (Seqs.Count(all, IsActiveStatus), Seqs.Count(all, IsCompletedStatus), Seqs.Count(all, IsSuccessful))
  }

  lemma ListedAll(m: Manager)
    ensures |ListExperiments(m, None)| == |Values(m)|
  {
    assert |multiset(ListExperiments(m, None))| == |multiset(Values(m))|;
  }

  /** `dashboard_summary`, on the stored statuses: the success rate is the share of
      completed experiments that succeeded, 0 when none is completed, and the recent
      list is the five newest. */
  function DashboardSummary(m: Manager, today: int): (d: Dashboard)
    ensures d.totalExperiments == |Values(m)|
    ensures d.active + d.completed <= d.totalExperiments
    ensures d.successful <= d.completed
    ensures 0.0 <= d.successRate <= 100.0
    ensures d.completed == 0 ==> d.successRate == 0.0
    ensures d.completed > 0 ==> d.successRate == d.successful as real / d.completed as real * 100.0
    ensures d.readyForAnalysis == |GetReadyForAnalysis(m, today)|
    ensures |d.recent| == if d.totalExperiments < 5 then d.totalExperiments else 5
    ensures forall i :: 0 <= i < |d.recent| ==> d.recent[i] == Recent(ListExperiments(m, None)[i])
  {
    var all := ListExperiments(m, None);
    ListedAll(m);
    var counts := StatusCounts(all);
    var n := if |all| < 5 then |all| else 5;
    Dashboard(|all|, counts.0, counts.1, counts.2, SharePercent(counts.2, counts.1),
              |GetReadyForAnalysis(m, today)|, RecentEntries(all[..n]))
  }

  /** A dashboard where every completed experiment succeeded shows a 100 percent
      success rate. */
  lemma AllCompletedSucceeded(m: Manager, today: int)
    requires forall e :: e in Values(m) && e.status == Completed ==> e.results.Some? && e.results.value.success == Some(true)
    requires exists e :: e in Values(m) && e.status == Completed
    ensures DashboardSummary(m, today).successRate == 100.0
  {
    var all := ListExperiments(m, None);
    assert forall i :: 0 <= i < |all| ==> all[i] in multiset(Values(m));
    var e :| e in Values(m) && e.status == Completed;
    assert e in multiset(all);
    FullSuccessRate(all, e);
  }

  lemma FullSuccessRate(all: seq<Experiment>, e: Experiment)
    requires forall i :: 0 <= i < |all| && all[i].status == Completed ==> all[i].results.Some? && all[i].results.value.success == Some(true)
    requires e in all && e.status == Completed
    ensures SharePercent(StatusCounts(all).2, StatusCounts(all).1) == 100.0
  {
    SameCount(all, IsSuccessful, IsCompletedStatus);
    CountPositive(all, IsCompletedStatus, e);
  }

  /** Two conditions that agree on every element of a list count the same. */
  lemma {:induction false} SameCount<T(!new)>(s: seq<T>, p: T -> bool, q: T -> bool)
    requires forall i :: 0 <= i < |s| ==> p(s[i]) == q(s[i])
    ensures Seqs.Count(s, p) == Seqs.Count(s, q)
  {
    if |s| > 0 {
      SameCount(s[1..], p, q);
    }
  }

  lemma {:induction false} CountPositive<T(!new)>(s: seq<T>, p: T -> bool, x: T)
    requires x in s && p(x)
    ensures Seqs.Count(s, p) > 0
  {
    assert x in Seqs.Filter(s, p);
  }

  // ---------------------------------------------------------------------------
  // Engagement over the last 28 days

  /** The analytics report: its rows, an absent `rows` key read as no rows, or the
      call raised. */
  datatype Report = Raised | Rows(rows: seq<seq<real>>)

  datatype Engagement = Engagement(views: Option<real>, rate: Option<real>)

  /** `row[k] if len(row) > k else 0`. */
  function Cell(row: seq<real>, k: nat): real {
    if k < |row| then row[k] else 0.0
  }

  /** The engagement block of `get_channel_stats`: views and the interactions per
      hundred views from the first report row, the rate 0 unless views are positive,
      and both `None` when the report call raised. */
  function EngagementFromReport(report: Report): (r: Engagement)
    ensures report.Raised? <==> r == Engagement(None, None)
    ensures r.rate.Some? ==> r.views.Some?
    ensures r.views.Some? && r.views.value <= 0.0 ==> r.rate == Some(0.0)
    ensures report.Rows? && |report.rows| == 0 ==> r == Engagement(Some(0.0), Some(0.0))
    ensures report.Rows? && |report.rows| > 0 ==> r.views == Some(Cell(report.rows[0], 0))
    ensures report.Rows? && |report.rows| > 0 && Cell(report.rows[0], 0) > 0.0 ==>
      var row := report.rows[0];
      r.rate.Some? && r.rate.value * Cell(row, 0) / 100.0 == Cell(row, 1) + Cell(row, 2) + Cell(row, 3)
  {
    match report
    case Raised => Engagement(None, None)
    case Rows(rows) =>
      if |rows| == 0 then Engagement(Some(0.0), Some(0.0))
      else
        var row := rows[0];
        var views := Cell(row, 0);
        var interactions := Cell(row, 1) + Cell(row, 2) + Cell(row, 3);
        if views > 0.0 then
          assert (interactions / views) * 100.0 * views / 100.0 == interactions;
          Engagement(Some(views), Some((interactions / views) * 100.0))
        else Engagement(Some(views), Some(0.0))
  }

  /** The rate does not depend on the scale: multiplying every count by the same
      positive factor leaves it unchanged. */
  lemma EngagementScaleInvariant(views: real, likes: real, comments: real, shares: real, k: real)
    requires views > 0.0 && k > 0.0
    ensures EngagementFromReport(Rows([[k * views, k * likes, k * comments, k * shares]])).rate
      == EngagementFromReport(Rows([[views, likes, comments, shares]])).rate
  {
    var i := likes + comments + shares;
    var row := [k * views, k * likes, k * comments, k * shares];
    assert Cell(row, 0) == k * views && Cell(row, 1) + Cell(row, 2) + Cell(row, 3) == k * i;
    var base := [views, likes, comments, shares];
    assert Cell(base, 0) == views && Cell(base, 1) + Cell(base, 2) + Cell(base, 3) == i;
    MulPos(k, views);
    DivScale(k, i, views);
  }

  // ---------------------------------------------------------------------------
  // Shorts from ISO 8601 durations

  /** The length of the run of ASCII digits `s` starts with. */
  function DigitRun(s: string): (n: nat)
    ensures n <= |s| && AllDigits(s[..n])
    ensures n < |s| ==> !IsDigit(s[n])
  {
    if |s| > 0 && IsDigit(s[0]) then
      var k := DigitRun(s[1..]);
      assert s[..k + 1] == [s[0]] + s[1..][..k];
      k + 1
    else 0
  }

  /** The optional group `(?:(\d+)U)?` at the front of `s`: the greedy digit run
      followed by the unit letter, giving the number and what follows the letter;
      otherwise the group matches nothing, reads as 0, and `s` is left as it was. */
  function TakeField(s: string, unit: char): (r: (nat, string))
    requires !IsDigit(unit)
    ensures |r.1| <= |s|
  {
    var n := DigitRun(s);
    if 0 < n < |s| && s[n] == unit then (DigitsValue(s[..n]), s[n + 1..]) else (0, s)
  }

  /** The two optional groups after "PT": minutes then seconds. */
  function MinutesSeconds(rest: string): nat {
    var (minutes, afterM) := TakeField(rest, 'M');
    var (seconds, _) := TakeField(afterM, 'S');
    minutes * 60 + seconds
  }

  /** The duration check of `get_channel_stats` as written: `re.match` of
      `PT(?:(\d+)M)?(?:(\d+)S)?` anchors only at the start, so anything beginning
      with "PT" matches and yields minutes times 60 plus seconds; anything else does
      not match. */
  function DurationSecondsAsWritten(d: string): (r: Option<nat>)
    ensures r.Some? <==> |d| >= 2 && d[..2] == "PT"
    ensures r.Some? ==> r.value == MinutesSeconds(d[2..])
  {
    if |d| >= 2 && d[..2] == "PT" then Some(MinutesSeconds(d[2..])) else None
  }

  /** The three optional groups after "PT" once the hour field is added. */
  function HoursMinutesSecondsOf(rest: string): nat {
    var (hours, afterH) := TakeField(rest, 'H');
    hours * 3600 + MinutesSeconds(afterH)
  }

  /** The duration with the hour field the pattern omits:
      `PT(?:(\d+)H)?(?:(\d+)M)?(?:(\d+)S)?`, still anchored only at the start. */
  function DurationSeconds(d: string): (r: Option<nat>)
    ensures r.Some? <==> |d| >= 2 && d[..2] == "PT"
    ensures r.Some? ==> r.value == HoursMinutesSecondsOf(d[2..])
  {
    if |d| >= 2 && d[..2] == "PT" then Some(HoursMinutesSecondsOf(d[2..])) else None
  }

  /** A video counts as a Short when its duration matches and is at most 60 s. */
  predicate IsShortAsWritten(d: string) {
    DurationSecondsAsWritten(d).Some? && DurationSecondsAsWritten(d).value <= 60
  }

  predicate IsShort(d: string) {
    DurationSeconds(d).Some? && DurationSeconds(d).value <= 60
  }

  /** The `shorts_count` loop of `get_channel_stats` as written: one per duration
      that matches and reads as at most 60 s. */
  function ShortsCountAsWritten(durations: seq<string>): (n: nat)
    ensures n == Seqs.Count(durations, IsShortAsWritten)
    ensures n == |durations| <==> forall i :: 0 <= i < |durations| ==> IsShortAsWritten(durations[i])
  {
    Seqs.CountLoop(durations, IsShortAsWritten)
  }

  /** The same loop counting with the hour field. */
  function ShortsCount(durations: seq<string>): (n: nat)
    ensures n == Seqs.Count(durations, IsShort)
    ensures n == |durations| <==> forall i :: 0 <= i < |durations| ==> IsShort(durations[i])
  {
    Seqs.CountLoop(durations, IsShort)
  }

  /** Without the hour field a duration never reads longer: a leading hour group
      stops both minute and second groups, which then read 0. */
  lemma AsWrittenNeverLonger(rest: string)
    ensures MinutesSeconds(rest) <= HoursMinutesSecondsOf(rest)
  {
    var n := DigitRun(rest);
    if 0 < n < |rest| && rest[n] == 'H' {
      assert TakeField(rest, 'M') == (0, rest);
      assert TakeField(rest, 'S') == (0, rest);
    }
  }

  /** Every Short is also a Short as written. */
  lemma ShortIsShortAsWritten(d: string)
    requires IsShort(d)
    ensures IsShortAsWritten(d)
  {
    AsWrittenNeverLonger(d[2..]);
  }

  /** So the count as written never misses a Short; it can only add long videos. */
  lemma ShortsCountAsWrittenOvercounts(durations: seq<string>)
    ensures ShortsCount(durations) <= ShortsCountAsWritten(durations)
  {
    forall d | IsShort(d)
      ensures IsShortAsWritten(d)
    {
      ShortIsShortAsWritten(d);
    }
    Seqs.CountMonotone(durations, IsShort, IsShortAsWritten);
  }

  /** The digits of a number, then a letter, then anything: the digit run is the
      number's text. */
  lemma {:induction false} DigitRunStopsAtLetter(digits: string, c: char, rest: string)
    requires AllDigits(digits) && !IsDigit(c)
    ensures DigitRun(digits + [c] + rest) == |digits|
  {
    if |digits| > 0 {
      assert (digits + [c] + rest)[1..] == digits[1..] + [c] + rest;
      DigitRunStopsAtLetter(digits[1..], c, rest);
    }
  }

  /** A field written as `<n><unit>` is read back as `n`, and reading continues after
      the unit. */
  lemma TakeFieldWritten(n: nat, unit: char, rest: string)
    requires !IsDigit(unit)
    ensures TakeField(NatToString(n) + [unit] + rest, unit) == (n, rest)
  {
    var t := NatToString(n);
    var s := t + [unit] + rest;
    DigitRunStopsAtLetter(t, unit, rest);
    assert s[..|t|] == t;
    assert s[|t| + 1..] == rest;
    ParseNatToString(n);
  }

  /** A field whose unit is another letter is skipped: it reads as 0 and consumes
      nothing. */
  lemma TakeFieldSkipsOtherUnit(n: nat, other: char, unit: char, rest: string)
    requires !IsDigit(unit) && !IsDigit(other) && other != unit
    ensures TakeField(NatToString(n) + [other] + rest, unit) == (0, NatToString(n) + [other] + rest)
  {
    DigitRunStopsAtLetter(NatToString(n), other, rest);
  }

  /** The text after "PT" is what the groups read. */
  lemma AfterPT(rest: string)
    ensures ("PT" + rest)[..2] == "PT" && ("PT" + rest)[2..] == rest
  {
  }

  /** `<m>M<s>S`. */
  function MinutesSecondsText(m: nat, s: nat): string {
    NatToString(m) + ['M'] + (NatToString(s) + ['S'])
  }

  /** `PT<m>M<s>S`: the durations the pattern was written for. */
  function DurationText(m: nat, s: nat): string {
    "PT" + MinutesSecondsText(m, s)
  }

  /** `PT<h>H<m>M<s>S`: a duration with an hour field. */
  function HourDurationText(h: nat, m: nat, s: nat): string {
    "PT" + (NatToString(h) + ['H'] + MinutesSecondsText(m, s))
  }

  /** `<m>M<s>S` reads as `60 m + s`. */
  lemma MinutesSecondsWritten(m: nat, s: nat)
    ensures MinutesSeconds(MinutesSecondsText(m, s)) == m * 60 + s
  {
    TakeFieldWritten(m, 'M', NatToString(s) + ['S']);
    assert NatToString(s) + ['S'] == NatToString(s) + ['S'] + [];
    TakeFieldWritten(s, 'S', []);
  }

  /** `PT<m>M<s>S` reads as `60 m + s` under the pattern as written. */
  lemma MinutesSecondsAsWritten(m: nat, s: nat)
    ensures DurationSecondsAsWritten(DurationText(m, s)) == Some(m * 60 + s)
  {
    AfterPT(MinutesSecondsText(m, s));
    MinutesSecondsWritten(m, s);
  }

  /** As written, an hour-long video `PT<h>H<m>M<s>S` reads as 0 seconds and so
      counts as a Short. */
  lemma HoursIgnoredAsWritten(h: nat, m: nat, s: nat)
    ensures DurationSecondsAsWritten(HourDurationText(h, m, s)) == Some(0)
    ensures IsShortAsWritten(HourDurationText(h, m, s))
  {
    var tail := MinutesSecondsText(m, s);
    AfterPT(NatToString(h) + ['H'] + tail);
    TakeFieldSkipsOtherUnit(h, 'H', 'M', tail);
    TakeFieldSkipsOtherUnit(h, 'H', 'S', tail);
  }

  lemma NinetyMinutesText()
    ensures HourDurationText(1, 30, 0) == "PT1H30M0S"
  {
    assert NatToString(1) == "1";
    assert NatToString(3) == "3";
    assert NatToString(30) == NatToString(3) + "0";
    assert NatToString(0) == "0";
    assert MinutesSecondsText(30, 0) == "30M0S";
  }

  /** `PT1H30M0S`, a ninety-minute video, is a Short as written. */
  lemma NinetyMinutesIsShortAsWritten()
    ensures DurationSecondsAsWritten("PT1H30M0S") == Some(0) && IsShortAsWritten("PT1H30M0S")
  {
    NinetyMinutesText();
    HoursIgnoredAsWritten(1, 30, 0);
  }

  /** `<h>H<rest>` reads the hours and then the minutes and seconds of `rest`. */
  lemma HoursField(h: nat, afterH: string)
    ensures HoursMinutesSecondsOf(NatToString(h) + ['H'] + afterH) == h * 3600 + MinutesSeconds(afterH)
  {
    TakeFieldWritten(h, 'H', afterH);
  }

  /** With the hour field, `PT<h>H<m>M<s>S` reads as `3600 h + 60 m + s`. */
  lemma HoursMinutesSeconds(h: nat, m: nat, s: nat)
    ensures DurationSeconds(HourDurationText(h, m, s)) == Some(h * 3600 + m * 60 + s)
  {
    HoursMinutesSecondsFields(h, m, s);
    DurationOfFields(NatToString(h) + ['H'] + MinutesSecondsText(m, s), h * 3600 + m * 60 + s);
  }

  lemma HoursMinutesSecondsFields(h: nat, m: nat, s: nat)
    ensures HoursMinutesSecondsOf(NatToString(h) + ['H'] + MinutesSecondsText(m, s)) == h * 3600 + m * 60 + s
  {
    MinutesSecondsWritten(m, s);
    HoursField(h, MinutesSecondsText(m, s));
  }

  /** A duration reads as what its groups read after "PT". */
  lemma DurationOfFields(rest: string, v: nat)
    requires HoursMinutesSecondsOf(rest) == v
    ensures DurationSeconds("PT" + rest) == Some(v)
  {
    AfterPT(rest);
  }

  /** With the hour field, a video of an hour or more is never a Short. */
  lemma HourLongIsNotShort(h: nat, m: nat, s: nat)
    requires h >= 1
    ensures !IsShort(HourDurationText(h, m, s))
  {
    HoursMinutesSeconds(h, m, s);
  }

  /** The hour field changes nothing for the durations the pattern was written for:
      `PT<m>M<s>S` reads the same with and without it. */
  lemma HourFieldKeepsMinutesSeconds(m: nat, s: nat)
    ensures DurationSeconds(DurationText(m, s)) == DurationSecondsAsWritten(DurationText(m, s))
  {
    AfterPT(MinutesSecondsText(m, s));
    TakeFieldSkipsOtherUnit(m, 'M', 'H', NatToString(s) + ['S']);
  }

  // ---------------------------------------------------------------------------
  // Sample size

  datatype SampleSizeAnswer = SampleSizeAnswer(perVariant: int, total: int)

  datatype SampleSizeError = MissingKey(key: string) | Invalid(error: StatisticsEngine.StatError)

  /** `calculate_sample_size`: the per-variant size of an engine at the default 95 %
      confidence, with the power defaulting to 0.80, and twice that in total; a
      missing key or a rejected input is a 400 answer. */
  function CalculateSampleSize(o: Oracles, baseline: Option<Float>, lift: Option<Float>, power: Option<Float>)
    : (r: Result<SampleSizeAnswer, SampleSizeError>)
    requires Lawful(o)
    ensures baseline.None? ==> r == Err(MissingKey("baseline_rate"))
    ensures baseline.Some? && lift.None? ==> r == Err(MissingKey("expected_lift"))
    ensures baseline.Some? && lift.Some? ==>
      (r.Ok? <==> StatisticsEngine.PlanInputsOk(baseline.value, lift.value, power.GetOr(Finite(0.80))))
    ensures r.Ok? ==> r.value.total == 2 * r.value.perVariant && r.value.perVariant >= 100
  {
    if baseline.None? then Err(MissingKey("baseline_rate"))
    else if lift.None? then Err(MissingKey("expected_lift"))
    else
      match StatisticsEngine.MinimumSampleSize(o, StatisticsEngine.Engine(0.95), baseline.value, lift.value,
                                               power.GetOr(Finite(0.80)))
      case Err(e) => Err(Invalid(e))
      case Ok(n) => Ok(SampleSizeAnswer(n, n * 2))
  }

  /** The total is the per-variant size the engine computes, for both groups. */
  lemma SampleSizeAnswerSplits(o: Oracles, baseline: Float, lift: Float, power: Option<Float>)
    requires Lawful(o)
    requires StatisticsEngine.PlanInputsOk(baseline, lift, power.GetOr(Finite(0.80)))
    ensures var r := CalculateSampleSize(o, Some(baseline), Some(lift), power);
      r.Ok? && r.value.perVariant == StatisticsEngine.MinimumSampleSize(o, StatisticsEngine.Engine(0.95),
        baseline, lift, power.GetOr(Finite(0.80))).value
      && r.value.total % 2 == 0 && r.value.total >= 200
  {
  }
}
