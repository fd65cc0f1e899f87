/** The query agent once the language model has turned a question into a function
    call: dispatch to the two query functions, the joining, ranking and truncation
    of per-video rows, the aggregate statistics, and how errors reach the answer.
    The analytics client's answers are parameters; `None` stands for a call that
    raised. */
module QueryAgent {
  import opened Wrappers
  import opened MetricRecords
  import Sorting
  import Seqs

  // ---------------------------------------------------------------------------
  // Inputs

  /** The `parameters` of a parsed call. The three required keys may be missing
      (a `KeyError`), `sort_by` defaults to 'views' and `limit` to 10. */
  datatype Params = Params(
    startDate: Option<string>,
    endDate: Option<string>,
    metrics: Option<seq<string>>,
    sortBy: Option<string>,
    limit: Option<int>
  )

  /** What `_parse_query_with_llm` returns: an error dictionary or a call. */
  datatype ParsedQuery =
    | ParseFailed(error: string, explanation: Option<string>)
    | Call(functionName: Option<string>, parameters: Params)

  /** One video of the channel listing; `title` and `published_at` may be missing. */
  datatype VideoInfo = VideoInfo(videoId: string, title: Option<string>, publishedAt: Option<string>)

  /** The analytics client's answers: the listing, the per-video metrics and the
      aggregate metrics, each `None` when the call raised. */
  datatype Api = Api(listing: Option<seq<VideoInfo>>, videoMetrics: Option<Response>, aggregate: Option<Response>)

  // ---------------------------------------------------------------------------
  // Outputs

  /** A joined row: the id from the metrics row, the title and publication date from
      the listing, and the row's metrics. */
  datatype VideoRow = VideoRow(videoId: Option<string>, title: string, publishedAt: string, values: map<string, real>)

  datatype DateRange = DateRange(start: string, end: string)

  /** What `_execute_query` returns: an error dictionary or one of the two result
      shapes. */
  datatype RawData =
    | Failed(error: string, explanation: Option<string>)
    | VideoPerformance(videos: seq<VideoRow>, totalVideos: nat, dateRange: DateRange, metrics: seq<string>)
    | AggregateStats(statistics: map<string, real>, dateRange: DateRange, metrics: seq<string>)

  /** What `process_query` returns; the formatted text is left out. */
  datatype Answer =
    | Success(data: RawData, queryInfo: ParsedQuery)
    | Failure(error: string, explanation: string)

  const Unknown: string := "Unknown"
  const DefaultSortBy: string := "views"
  const DefaultLimit: int := 10

  // ---------------------------------------------------------------------------
  // Python slicing

  /** `s[:n]`: a non-negative `n` keeps at most `n` elements, a negative one drops
      `-n` from the end. */
  function SliceTo<T>(s: seq<T>, n: int): (r: seq<T>)
    ensures |r| <= |s| && r == s[..|r|]
    ensures n >= 0 ==> |r| == if n < |s| then n else |s|
    ensures n < 0 ==> |r| == if |s| + n > 0 then |s| + n else 0
  {
    if n >= 0 then (if n < |s| then s[..n] else s)
    else if |s| + n > 0 then s[..|s| + n]
    else []
  }

  // ---------------------------------------------------------------------------
  // Joining rows with the listing

  function HasVideoId(id: string): VideoInfo -> bool {
    (v: VideoInfo) => v.videoId == id
  }

  /** `video_info_map.get(video_id, {})`: the dictionary built from the listing keeps
      the last video under each id. */
  function LookupInfo(listing: seq<VideoInfo>, id: Option<string>): (r: Option<VideoInfo>)
    ensures r.None? <==> id.None? || forall i :: 0 <= i < |listing| ==> listing[i].videoId != id.value
    ensures r.Some? ==> r.value.videoId == id.value && r.value in listing
    ensures r.Some? ==> exists i :: (0 <= i < |listing| && listing[i] == r.value
      && forall j :: i < j < |listing| ==> listing[j].videoId != id.value)
  {
    if id.None? then None
    else
      match Seqs.FindLast(listing, HasVideoId(id.value))
      case None => None
      case Some(i) => Some(listing[i])
  }

  /** The row for one metrics item; fields the listing does not supply read
      'Unknown'. */
  function JoinRow(listing: seq<VideoInfo>, item: Row): (r: VideoRow)
    ensures r.videoId == item.video && r.values == item.values
    ensures r.title == match LookupInfo(listing, item.video)
      case None => Unknown
      case Some(v) => v.title.GetOr(Unknown)
    ensures r.publishedAt == match LookupInfo(listing, item.video)
      case None => Unknown
      case Some(v) => v.publishedAt.GetOr(Unknown)
  {
    match LookupInfo(listing, item.video)
    case None => VideoRow(item.video, Unknown, Unknown, item.values)
    case Some(v) => VideoRow(item.video, v.title.GetOr(Unknown), v.publishedAt.GetOr(Unknown), item.values)
  }

  function JoinRows(listing: seq<VideoInfo>, items: seq<Row>): (r: seq<VideoRow>)
    ensures |r| == |items| && forall i :: 0 <= i < |items| ==> r[i] == JoinRow(listing, items[i])
  {
    if |items| == 0 then [] else [JoinRow(listing, items[0])] + JoinRows(listing, items[1..])
  }

  /** A metrics row for a video the listing does not hold keeps its id and metrics
      and reads 'Unknown' for title and publication date. */
  lemma UnlistedRowReadsUnknown(listing: seq<VideoInfo>, item: Row)
    requires forall i :: 0 <= i < |listing| ==> Some(listing[i].videoId) != item.video
    ensures JoinRow(listing, item) == VideoRow(item.video, Unknown, Unknown, item.values)
  {
  }

  /** A listed video lends its title to the row. */
  lemma ListedRowTakesTitle(listing: seq<VideoInfo>, item: Row, title: string)
    requires |listing| > 0 && item.video == Some(listing[|listing| - 1].videoId)
    requires listing[|listing| - 1].title == Some(title)
    ensures JoinRow(listing, item).title == title
  {
  }

  // ---------------------------------------------------------------------------
  // Ranking

  /** `x.get(sort_by, 0)`. */
  function SortKey(sortBy: string): VideoRow -> real {
    (r: VideoRow) => if sortBy in r.values then r.values[sortBy] else 0.0
  }

  /** The rows in the order they are shown: sorted by descending `sort_by` when it is
      one of the requested metrics, in arrival order otherwise. */
  function Rank(rows: seq<VideoRow>, sortBy: string, metrics: seq<string>): (r: seq<VideoRow>)
    ensures multiset(r) == multiset(rows) && |r| == |rows|
    ensures sortBy in metrics ==> Sorting.SortedDesc(r, SortKey(sortBy))
    ensures sortBy !in metrics ==> r == rows
  {
    if sortBy in metrics && |rows| > 0 then Sorting.SortDesc(rows, SortKey(sortBy)) else rows
  }

  /** The effective parameters after defaults, `None` when a required key is
      missing. */
  datatype Request = Request(start: string, end: string, metrics: seq<string>, sortBy: string, limit: int)

  function Resolve(p: Params): (r: Option<Request>)
    ensures r.Some? <==> p.startDate.Some? && p.endDate.Some? && p.metrics.Some?
    ensures r.Some? ==> r.value.sortBy == p.sortBy.GetOr(DefaultSortBy) && r.value.limit == p.limit.GetOr(DefaultLimit)
  {
    if p.startDate.Some? && p.endDate.Some? && p.metrics.Some? then
      Some(Request(p.startDate.value, p.endDate.value, p.metrics.value, p.sortBy.GetOr(DefaultSortBy), p.limit.GetOr(DefaultLimit)))
    else None
  }

  function ApiError(): RawData {
    Failed("api_error", Some("YouTube API error"))
  }

  /** `_get_video_performance`, with `_execute_query`'s conversion of a raised
      exception into 'api_error'. An empty listing is 'no_videos_found'; otherwise
      every metrics row is joined, ranked and cut to `limit`, and the total counts
      the rows before the cut. */
  function GetVideoPerformance(p: Params, api: Api): (r: RawData)
    ensures r.Failed? || r.VideoPerformance?
    ensures Resolve(p).None? || api.listing.None? ==> r == ApiError()
    ensures Resolve(p).Some? && api.listing == Some([]) ==> r.Failed? && r.error == "no_videos_found"
    ensures Resolve(p).Some? && api.listing.Some? && |api.listing.value| > 0 && api.videoMetrics.None? ==> r == ApiError()
    ensures r.VideoPerformance? ==> (
      var q := Resolve(p).value;
      var rows := JoinRows(api.listing.value, api.videoMetrics.value.data.GetOr([]));
      && r.totalVideos == |rows|
      && r.videos == SliceTo(Rank(rows, q.sortBy, q.metrics), q.limit)
      && r.dateRange == DateRange(q.start, q.end) && r.metrics == q.metrics)
  {
    match Resolve(p)
    case None => ApiError()
    case Some(q) =>
      match api.listing
      case None => ApiError()
      case Some(videos) =>
        if |videos| == 0 then Failed("no_videos_found", Some("No videos found between " + q.start + " and " + q.end))
        else
          match api.videoMetrics
          case None => ApiError()
          case Some(data) =>
            var rows := JoinRows(videos, data.data.GetOr([]));
            VideoPerformance(SliceTo(Rank(rows, q.sortBy, q.metrics), q.limit), |rows|, DateRange(q.start, q.end), q.metrics)
  }

  /** Rows with equal `sort_by` values keep their arrival order, so which tied rows
      survive the limit is decided by the order the report returned them in. */
  lemma RankKeepsTiesInOrder(rows: seq<VideoRow>, sortBy: string, metrics: seq<string>, k: real)
    ensures Seqs.Filter(Rank(rows, sortBy, metrics), Sorting.KeyIs(SortKey(sortBy), k))
         == Seqs.Filter(rows, Sorting.KeyIs(SortKey(sortBy), k))
  {
    if sortBy in metrics && |rows| > 0 {
      Sorting.SortDescStable(rows, SortKey(sortBy), k);
    }
  }

  /** When ranking applies, every shown row scores at least as high as every row
      the limit cut off. */
  lemma ShownRowsDominate(rows: seq<VideoRow>, sortBy: string, metrics: seq<string>, limit: int, shown: VideoRow, hidden: VideoRow)
    requires sortBy in metrics
    requires var ranked := Rank(rows, sortBy, metrics); exists i, j :: (0 <= i < |SliceTo(ranked, limit)| <= j < |ranked|
      && ranked[i] == shown && ranked[j] == hidden)
    ensures SortKey(sortBy)(shown) >= SortKey(sortBy)(hidden)
  {
    var ranked := Rank(rows, sortBy, metrics);
    var i, j :| 0 <= i < |SliceTo(ranked, limit)| <= j < |ranked| && ranked[i] == shown && ranked[j] == hidden;
    assert i < j;
  }

  /** A non-negative limit at least the number of rows shows every row. */
  lemma LargeLimitShowsAll(rows: seq<VideoRow>, sortBy: string, metrics: seq<string>, limit: int)
    requires limit >= |rows|
    ensures multiset(SliceTo(Rank(rows, sortBy, metrics), limit)) == multiset(rows)
  {
  }

  /** Three videos with 500, 1500 and 1000 views, ranked by views with a limit of 2,
      show the 1500 one, then the 1000 one. */
  lemma RankingExample(v1: VideoRow, v2: VideoRow, v3: VideoRow)
    requires v1.values == map["views" := 500.0]
    requires v2.values == map["views" := 1500.0]
    requires v3.values == map["views" := 1000.0]
    ensures SliceTo(Rank([v1, v2, v3], "views", ["views"]), 2) == [v2, v3]
  {
    var rows := [v1, v2, v3];
    assert SortKey("views")(rows[1]) > SortKey("views")(rows[2]) > SortKey("views")(rows[0]) by {
      assert SortKey("views")(v1) == 500.0;
      assert SortKey("views")(v2) == 1500.0;
      assert SortKey("views")(v3) == 1000.0;
    }
    assert "views" in ["views"];
    RankThree(rows, "views", ["views"]);
  }

  /** Three rows with distinct keys, ranked by a requested metric, come out in key
      order. */
  lemma RankThree(rows: seq<VideoRow>, sortBy: string, metrics: seq<string>)
    requires |rows| == 3 && sortBy in metrics
    requires SortKey(sortBy)(rows[1]) > SortKey(sortBy)(rows[2]) > SortKey(sortBy)(rows[0])
    ensures Rank(rows, sortBy, metrics) == [rows[1], rows[2], rows[0]]
  {
    SortedThree(Rank(rows, sortBy, metrics), rows, SortKey(sortBy));
  }

  /** A list sorted by descending key that holds three rows with distinct keys holds
      them in key order. */
  lemma SortedThree(s: seq<VideoRow>, rows: seq<VideoRow>, key: VideoRow -> real)
    requires |rows| == 3 && multiset(s) == multiset(rows) && Sorting.SortedDesc(s, key)
    requires key(rows[1]) > key(rows[2]) > key(rows[0])
    ensures s == [rows[1], rows[2], rows[0]]
  {
    assert |s| == |multiset(rows)| == 3;
    assert rows[0] in multiset(s) && rows[1] in multiset(s) && rows[2] in multiset(s);
    var i0 :| 0 <= i0 < 3 && s[i0] == rows[0];
    var i1 :| 0 <= i1 < 3 && s[i1] == rows[1];
    var i2 :| 0 <= i2 < 3 && s[i2] == rows[2];
    assert i1 < i2 < i0;
  }

  // ---------------------------------------------------------------------------
  // Aggregate statistics

  /** `_get_aggregate_stats`: the first aggregate row's metrics, or nothing when the
      response has no rows. */
  function GetAggregateStats(p: Params, api: Api): (r: RawData)
    ensures r.Failed? || r.AggregateStats?
    ensures r.Failed? <==> Resolve(p).None? || api.aggregate.None?
    ensures r.Failed? ==> r == ApiError()
    ensures r.AggregateStats? ==> (
      var rows := api.aggregate.value.data.GetOr([]);
      && (|rows| == 0 ==> r.statistics == map[])
      && (|rows| > 0 ==> r.statistics == rows[0].values)
      && r.dateRange == DateRange(Resolve(p).value.start, Resolve(p).value.end)
      && r.metrics == Resolve(p).value.metrics)
  {
    match Resolve(p)
    case None => ApiError()
    case Some(q) =>
      match api.aggregate
      case None => ApiError()
      case Some(data) =>
        var rows := data.data.GetOr([]);
        var stats := if |rows| > 0 then rows[0].values else map[];
        AggregateStats(stats, DateRange(q.start, q.end), q.metrics)
  }

  // ---------------------------------------------------------------------------
  // Dispatch and the answer

  function FunctionName(name: Option<string>): string {
    name.GetOr("None")
  }

  /** `_execute_query`: the two known function names are dispatched, any other is
      'unknown_function'. */
  function ExecuteQuery(name: Option<string>, p: Params, api: Api): (r: RawData)
    ensures name == Some("get_video_performance") ==> r == GetVideoPerformance(p, api)
    ensures name == Some("get_aggregate_stats") ==> r == GetAggregateStats(p, api)
    ensures name != Some("get_video_performance") && name != Some("get_aggregate_stats")
      ==> r == Failed("unknown_function", Some("Unknown function: " + FunctionName(name)))
  {
    if name == Some("get_video_performance") then GetVideoPerformance(p, api)
    else if name == Some("get_aggregate_stats") then GetAggregateStats(p, api)
    else Failed("unknown_function", Some("Unknown function: " + FunctionName(name)))
  }

  /** `process_query` without the formatting: a parse error or an execution error
      becomes a failed answer carrying the same error key, with a default
      explanation when none was given; anything else succeeds with the data. */
  function ProcessQuery(parsed: ParsedQuery, api: Api): (a: Answer)
    ensures parsed.ParseFailed? ==> a == Failure(parsed.error, parsed.explanation.GetOr("Could not parse query"))
    ensures parsed.Call? ==> (
      var raw := ExecuteQuery(parsed.functionName, parsed.parameters, api);
      && (raw.Failed? ==> a == Failure(raw.error, raw.explanation.GetOr("Failed to fetch data")))
      && (!raw.Failed? ==> a == Success(raw, parsed)))
  {
    match parsed
    case ParseFailed(error, explanation) => Failure(error, explanation.GetOr("Could not parse query"))
    case Call(name, params) =>
      var raw := ExecuteQuery(name, params, api);
      if raw.Failed? then Failure(raw.error, raw.explanation.GetOr("Failed to fetch data"))
      else Success(raw, parsed)
  }

  /** A successful answer always holds one of the two result shapes, never an error
      dictionary, and an unknown function name can never succeed. */
  lemma SuccessCarriesData(parsed: ParsedQuery, api: Api)
    ensures ProcessQuery(parsed, api).Success? ==> !ProcessQuery(parsed, api).data.Failed?
    ensures parsed.Call? && parsed.functionName != Some("get_video_performance") && parsed.functionName != Some("get_aggregate_stats")
      ==> ProcessQuery(parsed, api).Failure? && ProcessQuery(parsed, api).error == "unknown_function"
  {
  }
}
