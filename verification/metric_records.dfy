/** The dictionaries that flow between the analytics client, the analyser and the
    experiment store, as typed records. A key that may be missing, or may hold `None`,
    is an `Option`. */
module MetricRecords {
  import opened Wrappers

  /** One row of an analytics response: the `video` id when the report is per video,
      and the named numeric metrics. */
  datatype Row = Row(video: Option<string>, values: map<string, real>)

  /** An analytics response; `data` is `None` when the dictionary has no `data` key. */
  datatype Response = Response(data: Option<seq<Row>>)

  /** The `video_ids` dictionary of an experiment: the `treatment` and `control` lists,
      either of which may be absent. */
  datatype VideoGroups = VideoGroups(treatment: Option<seq<string>>, control: Option<seq<string>>)

  /** The nested `treatment_vs_control` dictionary. */
  datatype Change = Change(change: real, changePercent: real)

  /** The per-metric comparison record built by the analyser and annotated by the
      success-criteria check. */
  datatype MetricResult = MetricResult(
    metric: string,
    experimentValue: real,
    baselineValue: Option<real>,
    change: Option<real>,
    changePercent: Option<real>,
    treatmentValue: Option<real>,
    controlValue: Option<real>,
    treatmentVsControl: Option<Change>,
    compoundTarget: Option<real>,
    compoundSuccess: Option<bool>
  )
}
