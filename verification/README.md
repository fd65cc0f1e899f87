# YETi experiment core in Dafny

YETi runs A/B experiments on a YouTube channel. It records experiments with dates,
metrics and a success criterion. It then compares the experiment's numbers with a
baseline period or a control group of videos, and decides whether the experiment
passed. Around that decision sit four more parts:

- a statistics engine: significance tests, effect sizes, power and sample sizes;
- lifecycle and selection helpers for experiments and their variants;
- the deterministic parts of the insights and query agents;
- the arithmetic behind the web API.

This project models those parts as pure functions over immutable datatypes and
proves what each promises. There is one module per source file:

- `ExperimentAnalyser`, `StatisticsEngine`, `ExperimentManager`, `Variant`, `ExperimentEnhanced`;
- `TimeSeriesAnalyzer`, `InsightsAgent`, `QueryAgent`, `ApiServer`.

Shared helper modules:

- `Wrappers`: `Option` and `Result`;
- `Numeric`: absolute value, clamping, ceiling, round-half-even, percentages, and a `Float` with NaN and infinities;
- `Oracles`: `sqrt`, the normal CDF and `asin` as function values constrained by laws;
- `Digits`: decimal text and integer parsing;
- `Sorting`: a stable descending sort by key, matching Python's `sorted(..., reverse=True)`;
- `MetricRecords`: metric rows, API responses and the comparison record;
- `Seqs` and `RealArith`: sequence and real-arithmetic lemmas.

Modelling conventions:

- Dates are day numbers and timestamps are integers.
- "Today" and "now" are parameters.
- A manager is a map next to its insertion order, which stands for Python's dict ordering.
- A call into a library or a web service becomes a parameter: its answer, or `None` where the call raised.

## Model

| member | source | states |
|---|---|---|
| ExperimentAnalyser.ExtractMetricValue | experiment_analyser.py:304-315 | missing data gives 0; otherwise the metric summed over the rows, rows without it adding nothing |
| ExperimentAnalyser.SumMetricSingle | experiment_analyser.py:310-314 | one row adds its value for the metric, or 0 when it lacks the metric |
| ExperimentAnalyser.NoMetricSumsToZero | experiment_analyser.py:304-315 | rows that lack the metric contribute nothing, so their sum is 0 |
| ExperimentAnalyser.SumMetricAppend | experiment_analyser.py:304-315 | the metric sum is additive over concatenated row lists |
| ExperimentAnalyser.ExtractMetricForVideos | experiment_analyser.py:317-333 | missing data or an empty video list gives 0; otherwise the metric summed over the rows of the listed videos |
| ExperimentAnalyser.SumForVideosSingle | experiment_analyser.py:325-332 | one row adds its value exactly when its video is listed and it carries the metric |
| ExperimentAnalyser.NoVideosSumToZero | experiment_analyser.py:317-333 | summing over no videos gives 0, whatever the rows |
| ExperimentAnalyser.SumForVideosCoversAll | experiment_analyser.py:317-333 | when every row belongs to the listed videos, the per-video sum is the plain sum |
| ExperimentAnalyser.SumForVideosDisjointUnion | experiment_analyser.py:317-333 | for disjoint id lists, the sum over their union is the sum of the two sums |
| ExperimentAnalyser.SumForVideosAtMostTotal | experiment_analyser.py:317-333 | with non-negative values, a per-video sum lies between 0 and the total |
| ExperimentAnalyser.CompareMetric | experiment_analyser.py:248-302 | a baseline change exists exactly when a baseline is given and nonzero; the group values exist exactly when both groups are listed; a treatment-vs-control change exists exactly when the control value is nonzero; the baseline value is the baseline sum, the treatment and control values are the per-group sums, and both percentages are the rounded change against their reference; no compound fields are written |
| ExperimentAnalyser.CheckSuccessCriteria | experiment_analyser.py:335-425 | pair selection keys on `treatment_vs_control`. A zero or missing control falls back to the percent rule for INCREASE and DECREASE and fails otherwise. INCREASE and DECREASE compare with the compound target and annotate the record. EQUALS, GREATER_THAN and LESS_THAN all use `control·(1+t/100)` and leave the record untouched |
| ExperimentAnalyser.CheckSuccessIdempotent | experiment_analyser.py:335-425 | checking the annotated record again gives the same verdict and the same record |
| ExperimentAnalyser.CompoundIncreaseIsPercentRule | experiment_analyser.py:390-399 | for a positive control, the compound INCREASE rule is the exact percent-change rule |
| ExperimentAnalyser.IncreaseMonotone | experiment_analyser.py:390-399 | raising the treatment value never turns an INCREASE success into a failure |
| ExperimentAnalyser.IncreaseExample | experiment_analyser.py:390-399 | control 100 with threshold 5: a treatment of 106 passes with a target of 105, and 104 fails |
| ExperimentAnalyser.EqualsFailsOnNegativeControl | experiment_analyser.py:411-415 | EQUALS can never succeed when the control value is negative |
| ExperimentAnalyser.LessThanIsNotDecrease | experiment_analyser.py:401-423 | LESS_THAN is not the mirror of DECREASE: equal values pass one and fail the other |
| ExperimentAnalyser.NoComparisonFails | experiment_analyser.py:356-363 | with neither a baseline nor video groups, every operator fails and nothing is written into the record |
| ExperimentAnalyser.IncreaseOnVideoGroups | experiment_analyser.py:278-300 | end to end, from rows to verdict: INCREASE succeeds exactly when the treatment sum reaches `control sum·(1+t/100)` |
| ExperimentAnalyser.ControlWindow | experiment_analyser.py:39-60 | the last success's dates are used when there is one; otherwise the window ends the day before the start and spans the experiment's length |
| ExperimentAnalyser.ControlWindowFor | experiment_analyser.py:39-60 | the control window always ends before the experiment starts, and comes from a qualifying success when one exists |
| ExperimentAnalyser.FallbackWindowSameLength | experiment_analyser.py:52-60 | the fallback window has the experiment's inclusive length and ends the day before it starts |
| ExperimentAnalyser.LastSuccessTakesPrecedence | experiment_analyser.py:39-50 | when any success ended before the start, the window is that of a qualifying success ending no earlier than any other |
| ExperimentAnalyser.NeedsAutoDetect | experiment_analyser.py:123-127 | detection runs exactly when there are no video ids or both groups are absent or empty |
| ExperimentAnalyser.ResolveVideoIds | experiment_analyser.py:123-127 | detected groups replace the ids exactly when detection is needed |
| ExperimentAnalyser.CompareAll | experiment_analyser.py:141-187 | the result gains exactly the named metrics, each compared, and keeps every other entry |
| ExperimentAnalyser.AnalyseExperiment | experiment_analyser.py:115-190 | the verdict is that of the primary metric; every secondary metric is compared; a baseline is used only when both baseline dates are set |
| ExperimentAnalyser.AnalysedExperiment | experiment_analyser.py:122-134 | the analysed experiment keeps every field but `video_ids`, which become the detected groups exactly when detection runs |
| ExperimentAnalyser.DetectedGroupsPersist | experiment_analyser.py:122-134 | the reported groups are the written-back ones, and once detection found a video later analyses reuse them |
| ExperimentAnalyser.DetectedGroupsAreCompared | experiment_analyser.py:123-127 | after detection, the primary record always carries group values |
| StatisticsEngine.ValidateSampleData | statistics_engine.py:86-115 | accepts exactly a positive size with a finite mean and a finite non-negative deviation; otherwise reports the first failing check in source order: size, then a negative deviation, then a non-finite mean, then a non-finite deviation |
| StatisticsEngine.ValidateProportionData | statistics_engine.py:117-143 | accepts exactly `0 < total` and `0 <= successes <= total`, reporting the first failing check: total, then negative successes, then successes above total |
| StatisticsEngine.ValidateConfidenceLevel | statistics_engine.py:145-159 | accepts exactly the levels strictly between 0 and 1 |
| StatisticsEngine.ValidateRate | statistics_engine.py:161-179 | accepts exactly the finite rates in [0, 1]; a non-finite rate is reported as such |
| StatisticsEngine.ValidateNumeric | statistics_engine.py:181-200 | accepts exactly the finite values at or above the optional minimum |
| StatisticsEngine.WelchDf | statistics_engine.py:609-639 | never below 1; 1 for a group of at most one; `n1+n2-2` for two zero deviations; never above `n1+n2-2` |
| StatisticsEngine.WelchDfIsSatterthwaite | statistics_engine.py:620-639 | away from the edge cases, the clamp is inactive: the result is the Satterthwaite value, between `min(n1,n2)-1` and `n1+n2-2` |
| StatisticsEngine.RatioBounds | statistics_engine.py:628-636 | the Satterthwaite ratio lies between the smaller weight and the sum of the weights, so its denominator is positive |
| StatisticsEngine.ZCritical | statistics_engine.py:659-668 | the table value for 0.80/0.90/0.95/0.99 and 1.96 for anything else, always within [1.282, 2.576] |
| StatisticsEngine.ZCriticalIncreasing | statistics_engine.py:659-668 | the critical value grows strictly with the tabled confidence |
| StatisticsEngine.TToPValue | statistics_engine.py:641-648 | a probability |
| StatisticsEngine.TToPValueIgnoresDf | statistics_engine.py:641-648 | the value is the two-tailed normal p-value, whatever the degrees of freedom |
| StatisticsEngine.CohensH | statistics_engine.py:670-692 | never negative |
| StatisticsEngine.CohensHSymmetric | statistics_engine.py:670-692 | swapping the proportions does not change h |
| StatisticsEngine.CohensHZeroIff | statistics_engine.py:678-684 | h is 0 exactly when the clamped proportions are equal |
| StatisticsEngine.CohensHMonotone | statistics_engine.py:678-684 | h grows as one proportion moves away from the other |
| StatisticsEngine.Power | statistics_engine.py:694-704 | within [0, 1], and 0 for a zero effect or a zero total |
| StatisticsEngine.PowerMonotone | statistics_engine.py:699-704 | a larger effect or a larger total never lowers the power |
| StatisticsEngine.PowerScipy | statistics_engine.py:706-726 | within [0, 1]; 0 for a zero effect; the hand-rolled power on `n1+n2` when a group is empty |
| StatisticsEngine.SampleSizeNeeded | statistics_engine.py:728-742 | 10000 for a zero effect; otherwise `max(⌈2((zα+zβ)/d)²⌉, 100)`, stated as: at least 100, at least `2((zα+zβ)/d)²`, and above 100 only by less than one over it |
| StatisticsEngine.SampleSizeNeededAntitone | statistics_engine.py:735-742 | a larger effect never needs more samples |
| StatisticsEngine.SampleSizeNeededScipy | statistics_engine.py:744-765 | the same characterisation, with the library's critical values given |
| StatisticsEngine.PlanInputError | statistics_engine.py:524-537 | no error exactly on valid inputs; otherwise the first failure in the order baseline, lift, power, lifted rate |
| StatisticsEngine.MinimumSampleSize | statistics_engine.py:502-571 | succeeds exactly on valid inputs, else reports the first failing check; the answer is the planned size for the lifted rate, at least 100, and 10000 when the rates coincide |
| StatisticsEngine.PlannedSize | statistics_engine.py:553-564 | 10000 when Cohen's h is 0; otherwise `max(⌈((z_conf+z_power)/h)²⌉, 100)`, stated as lower bound plus less-than-one excess above 100 |
| StatisticsEngine.PlannedSizeGrowsWithPower | statistics_engine.py:555-564 | the planner asks for at least as many samples at power 0.90 as at 0.80, and strictly more once the answer leaves the floor of 100 |
| StatisticsEngine.Bucket | statistics_engine.py:812-817 | small exactly below 0.2, large exactly from 0.5, medium in between |
| StatisticsEngine.BucketMonotone | statistics_engine.py:812-817 | a larger effect never gets a smaller label |
| StatisticsEngine.ChangeIsIncrease | statistics_engine.py:793-801 | an increase means the first value exceeds the second for a positive second, and lies below it for a negative one; never for a zero second value |
| StatisticsEngine.CohensD | statistics_engine.py:279-284 | undefined exactly when `n1+n2-2` is 0; otherwise non-negative, and 0 for equal means |
| StatisticsEngine.CohensDSymmetric | statistics_engine.py:279-284 | swapping the samples does not change d |
| StatisticsEngine.TStatisticAntisymmetric | statistics_engine.py:247-257 | swapping the samples negates the t statistic |
| StatisticsEngine.TTestFromStats | statistics_engine.py:247-352 | fails only for two single observations. Otherwise it returns a result whose significance is `p < alpha`, with p the two-tailed value of t, the effect Cohen's d, and the conclusion's direction and bucket derived from these; the power is `Power` of d over n1 + n2 and the planned size is `SampleSizeNeeded(d, 0.80, alpha)` |
| StatisticsEngine.TTestFromStatsSymmetric | statistics_engine.py:247-352 | swapping the samples keeps the p-value, the effect, the power, the planned size and the significance |
| StatisticsEngine.TTest | statistics_engine.py:202-352 | validates sample 1 and then sample 2 before computing, reporting the first invalid one; succeeds exactly on two valid samples that are not both single observations, and on two valid samples returns the computed result, with its p-value and Cohen's d |
| StatisticsEngine.TTestEqualMeans | statistics_engine.py:202-352 | equal means give p 1, effect 0, power 0 and the 10000 sentinel, and are significant only for a negative confidence level |
| StatisticsEngine.TTestSymmetric | statistics_engine.py:202-352 | swapping the samples keeps the p-value, the effect, the power, the planned size and the significance |
| StatisticsEngine.ZStatisticAntisymmetric | statistics_engine.py:388-392 | swapping the samples negates the z statistic |
| StatisticsEngine.ZTestFromCounts | statistics_engine.py:388-474 | a well-formed result with effect Cohen's h of the two rates, p the two-tailed value of z, direction from the percentage rates, the power over total1 + total2 and the planned size for 80 % power |
| StatisticsEngine.ZTestFromCountsSymmetric | statistics_engine.py:388-474 | swapping the samples keeps the p-value, the effect, the power, the planned size and the significance |
| StatisticsEngine.ZTest | statistics_engine.py:354-474 | validates sample 1 and then sample 2, reporting sample 2's error when only it is invalid; succeeds exactly on valid counts, returning the computed result with its p-value |
| StatisticsEngine.ZTestNoSuccesses | statistics_engine.py:354-474 | two groups without successes are accepted and give p 1, effect 0, power 0 and the 10000 sentinel, significant only for a negative confidence level |
| StatisticsEngine.ZTestSymmetric | statistics_engine.py:354-474 | swapping the samples keeps the p-value, the effect, the power, the planned size and the significance |
| StatisticsEngine.AnalyzeExperimentResults | statistics_engine.py:573-605 | "rate" runs the z-test and anything else the t-test, with the treatment first; any missing key of the chosen test is a `KeyError`, naming the first absent key in argument order (treatment, then control) |
| StatisticsEngine.FirstMissing | statistics_engine.py:590-605 | the key of the first failing read, `None` exactly when every key is present |
| StatisticsEngine.ConfidenceInterval | statistics_engine.py:476-500 | the interval is centred on the mean, contains it, and is a point for a non-positive size; its half-width times `sqrt(n)` is `z·std` |
| StatisticsEngine.ConfidenceIntervalNarrows | statistics_engine.py:494-500 | more observations never widen the interval |
| Oracles.TwoTailed | statistics_engine.py:650-657 | the two-tailed normal p-value is a probability |
| Oracles.TwoTailedAtZero | statistics_engine.py:650-657 | a zero statistic gives p = 1 |
| Oracles.TwoTailedMonotone | statistics_engine.py:650-657 | a larger statistic in magnitude never gives a larger p |
| Oracles.TwoTailedSymmetric | statistics_engine.py:650-657 | the sign of the statistic does not matter |
| Numeric.Clamp | statistics_engine.py:703-704 | the value moved into the range, and unchanged when already inside |
| Numeric.SharePercent | insights_agent.py:102 | a percentage: 0 for an empty whole, part/whole·100 otherwise, 100 when all count |
| ExperimentManager.StatusFromValue | experiment_manager.py:10-15 | a parsed status prints back as the text it came from |
| ExperimentManager.StatusValueRoundTrip | experiment_manager.py:10-15 | every status parses back from its value |
| ExperimentManager.OperatorFromValue | experiment_manager.py:18-24 | a parsed operator prints back as the text it came from |
| ExperimentManager.OperatorValueRoundTrip | experiment_manager.py:35-40 | every operator parses back from its value |
| ExperimentManager.AutomaticStatus | experiment_manager.py:89-110 | completed exactly after the end, active exactly within the dates, draft otherwise |
| ExperimentManager.AutomaticStatusMonotone | experiment_manager.py:101-110 | as time passes the status only moves forward, and is never cancelled |
| ExperimentManager.IsActive | experiment_manager.py:112-115 | true exactly within the dates |
| ExperimentManager.IsReadyForAnalysis | experiment_manager.py:117-120 | true exactly after the end |
| ExperimentManager.NeverActiveAndReady | experiment_manager.py:112-120 | never both active and ready |
| ExperimentManager.ToDict | experiment_manager.py:81-87 | writes the date-derived status and the operator's value |
| ExperimentManager.FromDict | experiment_manager.py:62-79 | an unknown operator is an error; defaults fill the missing status, notes and creation time |
| ExperimentManager.DictRoundTrip | experiment_manager.py:62-87 | reading back what was written gives the experiment, with the status replaced by the date-derived one |
| ExperimentManager.CreateExperiment | experiment_manager.py:157-164 | fails exactly on an existing id; otherwise adds exactly that entry and changes nothing else |
| ExperimentManager.CreatePreservesValid | experiment_manager.py:157-164 | creation keeps the map and the insertion order in step |
| ExperimentManager.GetExperiment | experiment_manager.py:166-168 | the stored experiment exactly when the id is present |
| ExperimentManager.ListExperiments | experiment_manager.py:170-177 | newest created first; a permutation of all experiments or of those with the stored status |
| ExperimentManager.ListKeepsTiesInOrder | experiment_manager.py:172-177 | experiments with the same `created_at` keep their insertion order |
| ExperimentManager.UpdateExperiment | experiment_manager.py:179-190 | fails exactly on an unknown id; otherwise changes only that entry, by the patches |
| ExperimentManager.UnknownKeysIgnored | experiment_manager.py:186-188 | keys that are not attributes change nothing |
| ExperimentManager.UpdateStatus | experiment_manager.py:192-194 | fails exactly on an unknown id; otherwise sets only that status |
| ExperimentManager.UpdateIdDetachesKey | experiment_manager.py:186-188 | setting `id` changes the stored record but not the key it is stored under |
| ExperimentManager.DeleteExperiment | experiment_manager.py:196-200 | no change for an unknown id; otherwise removes exactly that key and keeps the map and the order in step |
| ExperimentManager.GetActiveExperiments | experiment_manager.py:202-204 | exactly the stored experiments running today; under the store invariant, one entry per stored id whose experiment is running |
| ExperimentManager.GetReadyForAnalysis | experiment_manager.py:206-208 | exactly the stored experiments that ended before today; under the store invariant, one entry per stored id whose experiment has ended |
| ExperimentManager.GetLastSuccessful | experiment_manager.py:210-246 | none exactly when nothing qualifies; otherwise a qualifying experiment that no other qualifying one outlasts |
| ExperimentManager.SortHeadIsFirstLatest | experiment_manager.py:240-246 | the head of the stable sort is the first of the latest-ending candidates |
| ExperimentManager.FirstMaxIsFirstLatest | experiment_manager.py:240-246 | the independent first-maximum scan agrees with the first-latest definition |
| ExperimentManager.FirstLatestSkipsUnqualified | experiment_manager.py:224-235 | filtering first does not change the choice |
| ExperimentManager.LastSuccessfulBreaksTiesByOrder | experiment_manager.py:224-246 | among equal end dates, the earliest inserted success wins |
| Variant.VariantTypeFromValue | models/variant.py:9-19 | a parsed type prints back as the text it came from |
| Variant.VariantTypeRoundTrip | models/variant.py:9-19 | every variant type parses back from its value |
| Variant.NewVariant | models/variant.py:182-189 | a new variant has the given fields, the defaults (empty description and data, 50 % traffic, zero counters), and is neither control nor active |
| Variant.GetCtr | models/variant.py:84-88 | 0 without impressions; otherwise `ctr·impressions = clicks·100` |
| Variant.GetViewRate | models/variant.py:90-94 | 0 without clicks; otherwise `rate·clicks = views·100` |
| Variant.CtrIsPercentage | models/variant.py:84-88 | with clicks at most the impressions, the rate lies in [0, 100] |
| Variant.Activated | models/variant.py:208-212 | active afterwards, stamped now, nothing else changed |
| Variant.Deactivated | models/variant.py:214-217 | inactive afterwards, stamped now, nothing else changed |
| Variant.LastTransitionDecides | models/variant.py:96-98 | the last transition decides activity, and re-activation only moves the stamp |
| Variant.ToDict | models/variant.py:78-82 | the type is carried by its string value |
| Variant.FromDict | models/variant.py:57-76 | succeeds exactly on a known type value |
| Variant.DictRoundTrip | models/variant.py:57-82 | reading back what was written gives the variant |
| Variant.FromMinimalDict | models/variant.py:57-76 | a dictionary with only the required keys gives the documented defaults |
| Variant.PostInit | models/variant.py:138-146 | sets the length only when it was 0; `has_numbers` exactly when there is an ASCII digit; `has_question` exactly when `?` occurs; `has_emoji` exactly when a character is outside words, spaces and `,.-!?` |
| Variant.PostInitIdempotent | models/variant.py:138-146 | running it twice changes nothing, and the stored flags do not affect it |
| Variant.TitleExample | models/variant.py:138-146 | "Top 10 Tips?" has 12 characters, numbers and a question |
| Variant.VariantIdCount | models/variant.py:180 | the id ends in `_` followed by the count in decimal |
| Variant.CreateVariant | models/variant.py:171-192 | builds the variant under `{experiment}_{type}_{count}` and stores it under that id |
| Variant.Store | models/variant.py:191 | puts the variant under its id, extending the order only for a new id |
| Variant.VariantIdFresh | models/variant.py:180 | the generated id is never already present |
| Variant.StoreFreshKeepsValid | models/variant.py:191 | storing a fresh id adds exactly one key, keeps the others, and keeps the id numbering |
| Variant.CreateVariantFresh | models/variant.py:171-192 | creation adds exactly one variant and leaves the others unchanged |
| Variant.CreateVariantKeepsValid | models/variant.py:171-192 | creation keeps the store invariant (map, order and `_<count>` numbering in step), so every later generated id is fresh as well |
| Variant.GetVariantsForExperiment | models/variant.py:194-199 | exactly the stored variants of that experiment; under the store invariant, one entry per stored id of that experiment |
| Variant.GetActiveVariants | models/variant.py:201-206 | exactly the active ones among them; under the store invariant, one entry per stored id that is active and of that experiment |
| Variant.VariantsForExperimentComplete | models/variant.py:194-199 | every stored variant of the experiment is listed |
| Variant.ActivateVariant | models/variant.py:208-212 | no change for an unknown id; otherwise only that variant changes, and it becomes active |
| Variant.DeactivateVariant | models/variant.py:214-217 | no change for an unknown id; otherwise only that variant changes, and it becomes inactive |
| Variant.ActivatedIsListed | models/variant.py:201-212 | after activation the variant is among the experiment's active variants |
| Variant.DeactivatedIsNotListed | models/variant.py:201-217 | after deactivation it is not |
| ExperimentEnhanced.AddVariant | models/experiment_enhanced.py:38-40 | appends at the end and changes nothing else |
| ExperimentEnhanced.GetVariant | models/experiment_enhanced.py:42-47 | the first variant with that id, none exactly when there is none |
| ExperimentEnhanced.AddVariantThenGet | models/experiment_enhanced.py:38-47 | a new id is found after adding it, and earlier finds are unchanged |
| ExperimentEnhanced.GetControlVariant | models/experiment_enhanced.py:49-54 | the first control variant, none exactly when there is none |
| ExperimentEnhanced.GetTreatmentVariants | models/experiment_enhanced.py:56-58 | exactly the non-control variants, each as often as it is listed |
| ExperimentEnhanced.TreatmentVariantsInOrder | models/experiment_enhanced.py:56-58 | the comprehension keeps list order: extending the variants extends the treatments in the same order |
| ExperimentEnhanced.ControlTreatmentPartition | models/experiment_enhanced.py:49-58 | control and treatment variants add up to all variants; without a control, all are treatments, in order |
| ExperimentEnhanced.HasSignificantResult | models/experiment_enhanced.py:60-64 | true exactly when a record exists whose flag is true |
| ExperimentEnhanced.GetWinningVariant | models/experiment_enhanced.py:66-70 | none without a winner id; otherwise the first listed variant with that id, found whenever one is listed |
| ExperimentEnhanced.CalculateProgress | models/experiment_enhanced.py:72-93 | a nonzero target gives `current·100/target` below the cap of 100, and 100 only once the target is reached. Otherwise progress follows the dates: 0 before the start, 100 after the end, and `elapsed·100/duration` within the range. Undefined only for a range that starts and ends at the present instant |
| ExperimentEnhanced.SampleProgressIsPercentage | models/experiment_enhanced.py:88-93 | with a positive target and a non-negative count, progress lies in [0, 100] |
| ExperimentEnhanced.DateProgressMonotone | models/experiment_enhanced.py:74-87 | date progress never goes backwards |
| ExperimentEnhanced.ZeroTargetUsesDates | models/experiment_enhanced.py:88-91 | a zero target behaves as no target, so the `== 0` branch is unreachable |
| TimeSeriesAnalyzer.HasSignificantTrend | time_series_analyzer.py:130-143 | false below two points; from a zero start, `|last| > 0.1`; from a positive start, last above 105 % or below 95 % of first, mirrored for a negative start |
| TimeSeriesAnalyzer.RelativeChangeThresholds | time_series_analyzer.py:140-143 | the ±5 % relative-change thresholds as bounds on the last value, reversed for a negative start |
| TimeSeriesAnalyzer.GetTrendDirection | time_series_analyzer.py:160-178 | 'none' exactly below two points; from a zero start, increasing exactly when the last value is positive, and never stable; from a positive start, increasing exactly above 105 % and decreasing exactly below 95 % of first, mirrored for a negative start |
| TimeSeriesAnalyzer.SignificantIffNotStable | time_series_analyzer.py:130-178 | from a nonzero start, significant exactly when the direction is not stable |
| TimeSeriesAnalyzer.ZeroStartDisagreement | time_series_analyzer.py:139-169 | from a zero start the two can disagree: `[0, 0.05]` is increasing but not significant |
| TimeSeriesAnalyzer.TrendScaleInvariant | time_series_analyzer.py:130-178 | scaling the series by a positive factor changes neither answer |
| TimeSeriesAnalyzer.Variance | time_series_analyzer.py:186-187 | never negative |
| TimeSeriesAnalyzer.VarianceConstant | time_series_analyzer.py:186-187 | a constant series has variance 0 |
| TimeSeriesAnalyzer.ComponentStrength | time_series_analyzer.py:180-210 | the shared body of the seasonal and trend strengths: within [0, 1]; 0 for empty input or a flat original; otherwise the variance ratio below 1, and 1 exactly when the component varies at least as much |
| TimeSeriesAnalyzer.StrengthExtremes | time_series_analyzer.py:180-210 | a series explains itself fully, and a flat component explains nothing |
| TimeSeriesAnalyzer.AdjustForTrends | time_series_analyzer.py:288-303 | both series come back unchanged on every path |
| InsightsAgent.Summarise | insights_agent.py:67-89 | the impact is the treatment-vs-control change with the group values when present, otherwise the baseline change, which may be absent |
| InsightsAgent.TreatmentComparisonPreferred | insights_agent.py:82-87 | a group comparison takes precedence over the baseline change |
| InsightsAgent.SummariseAll | insights_agent.py:66-89 | one summary per analysed experiment, in order |
| InsightsAgent.PrepareExperimentData | insights_agent.py:62-107 | summarises exactly the analysed experiments; successful and failed count the summaries marked and not marked successful; the rate is successful/total·100, or 0 when none |
| InsightsAgent.AnalysedExperimentCounted | insights_agent.py:92-104 | one more analysed experiment adds one to the total and one to the successes exactly when it succeeded |
| InsightsAgent.UnanalysedIgnored | insights_agent.py:64 | an experiment without results changes no total |
| InsightsAgent.BestResult | insights_agent.py:196-202 | none exactly when no success has a positive impact; otherwise a success of largest impact, earlier ones being strictly smaller |
| InsightsAgent.BestIsUnique | insights_agent.py:196-214 | at most one position meets that description |
| InsightsAgent.LatestFrom | insights_agent.py:376-381 | the largest stamp, and one actually present |
| InsightsAgent.LatestAnalysisDate | insights_agent.py:374-381 | the present instant when nothing was analysed; otherwise the latest stamp of an analysed experiment |
| QueryAgent.SliceTo | query_agent.py:297 | Python's `s[:n]`, including negative `n` |
| QueryAgent.LookupInfo | query_agent.py:276-281 | the last listed video with that id, as a dict built from the listing keeps the later duplicate; none exactly when it is not listed |
| QueryAgent.JoinRow | query_agent.py:279-289 | the title and date from the listing, 'Unknown' for an unlisted id, and the metrics kept |
| QueryAgent.JoinRows | query_agent.py:278-289 | one joined row per metrics row, in order |
| QueryAgent.UnlistedRowReadsUnknown | query_agent.py:281-286 | an unlisted id reads 'Unknown' twice |
| QueryAgent.ListedRowTakesTitle | query_agent.py:276-285 | a listed video's title is taken, the later of duplicates winning |
| QueryAgent.Rank | query_agent.py:291-293 | a permutation, sorted descending only when `sort_by` is a requested metric, else the original order |
| QueryAgent.RankKeepsTiesInOrder | query_agent.py:291-293 | rows with equal `sort_by` values keep their arrival order |
| QueryAgent.ShownRowsDominate | query_agent.py:291-297 | every shown row scores at least as high as every row cut off |
| QueryAgent.LargeLimitShowsAll | query_agent.py:291-298 | a limit of at least the row count shows every row |
| QueryAgent.RankingExample | query_agent.py:291-297 | views 500, 1500, 1000 with limit 2 show 1500 then 1000 |
| QueryAgent.RankThree | query_agent.py:291-293 | three distinct scores come out in descending order |
| QueryAgent.GetVideoPerformance | query_agent.py:244-301 | an empty listing gives 'no_videos_found' and a raised call 'api_error'; otherwise the ranked rows truncated to the limit, with the total counted before truncation |
| QueryAgent.GetAggregateStats | query_agent.py:303-325 | the first row's values, or empty; 'api_error' exactly when a key is missing or the call raised |
| QueryAgent.ExecuteQuery | query_agent.py:215-242 | the two known names are dispatched; any other name gives 'unknown_function' |
| QueryAgent.ProcessQuery | query_agent.py:35-81 | a parse or execution error becomes a failure with the same error key and the default explanation; anything else succeeds with the data |
| QueryAgent.SuccessCarriesData | query_agent.py:49-64 | a success never carries an error, and an unknown function never succeeds |
| Digits.NatToString | api/server.py:260 | non-empty decimal digits |
| Digits.ParseNat | api/server.py:256 | defined exactly on non-empty digit strings |
| Digits.ParseNatToString | api/server.py:256-260 | parsing what was printed gives the number back |
| Digits.NatToStringInjective | api/server.py:260 | distinct numbers print differently |
| Digits.IntToString | api/server.py:260 | non-empty text |
| Digits.ParseInt | api/server.py:256-258 | parses exactly the strings of an optional `+`/`-` sign followed by ASCII digits, to their signed value; anything else is the `ValueError` case |
| Digits.ParseIntToString | api/server.py:256-260 | parsing what was printed gives the integer back, negative ones included |
| ApiServer.MaxPresent | api/server.py:253-260 | none exactly when nothing is present; otherwise a present value no other exceeds |
| ApiServer.ParsedIds | api/server.py:253-258 | each id parsed in place |
| ApiServer.MaxNumericId | api/server.py:253-260 | none exactly when no id parses; otherwise the largest parsed id |
| ApiServer.NextExperimentId | api/server.py:248-261 | '1' without numeric ids, else one more than the largest |
| ApiServer.NextIdFresh | api/server.py:248-261 | the new id parses, exceeds every numeric id, and is not among the ids |
| ApiServer.MaxOfCounting | api/server.py:253-260 | ids 1..n have largest n |
| ApiServer.NextIdCounts | api/server.py:248-261 | after '1'..'n' comes 'n+1' |
| ApiServer.RecentEntries | api/server.py:291-299 | one entry per experiment, in order |
| ApiServer.StatusCounts | api/server.py:273-277 | active and completed counts fit in the total; successes are among the completed |
| ApiServer.DashboardSummary | api/server.py:267-300 | successes are at most the completed; the rate is successful/completed·100, or 0 when nothing is completed; the recent list shows the first five listed |
| ApiServer.AllCompletedSucceeded | api/server.py:275-289 | when every completed experiment succeeded, the rate is 100 |
| ApiServer.EngagementFromReport | api/server.py:345-364 | views are the first cell of the first row; `rate·views/100 = likes+comments+shares` when views are positive; 0 otherwise, and both 0 without rows; both absent when the call raised |
| ApiServer.EngagementScaleInvariant | api/server.py:358-360 | scaling every count by the same positive factor leaves the rate unchanged |
| ApiServer.DigitRun | api/server.py:400 | the longest leading run of digits |
| ApiServer.TakeField | api/server.py:400 | never lengthens the text |
| ApiServer.TakeFieldWritten | api/server.py:400-403 | a written field is read back with its unit consumed |
| ApiServer.TakeFieldSkipsOtherUnit | api/server.py:400-403 | digits followed by another unit are left in place and read as 0 |
| ApiServer.DurationSecondsAsWritten | api/server.py:400-404 | defined exactly after a leading `PT`; the value is minutes·60 + seconds of the fields right after it |
| ApiServer.MinutesSecondsWritten | api/server.py:400-404 | `nM` and `nS` read back as n·60 + n' |
| ApiServer.MinutesSecondsAsWritten | api/server.py:400-404 | `PTmMsS` gives m·60 + s |
| ApiServer.HoursIgnoredAsWritten | api/server.py:400-406 | as written, any duration with an hour field reads as 0 seconds and counts as a Short |
| ApiServer.NinetyMinutesIsShortAsWritten | api/server.py:400-406 | `PT1H30M0S` reads as 0 seconds and counts as a Short |
| ApiServer.DurationSeconds | api/server.py:400-404 | defined exactly after a leading `PT`; hours, minutes and seconds all count |
| ApiServer.HoursField | api/server.py:400-404 | a leading hour field adds h·3600 to the rest |
| ApiServer.HoursMinutesSeconds | api/server.py:400-404 | `PThHmMsS` gives h·3600 + m·60 + s |
| ApiServer.HoursMinutesSecondsFields | api/server.py:400-404 | the three fields read back as h·3600 + m·60 + s |
| ApiServer.HourLongIsNotShort | api/server.py:405-406 | with the hour field read, a video of an hour or more is never a Short |
| ApiServer.HourFieldKeepsMinutesSeconds | api/server.py:400-404 | without an hour field, the corrected reading agrees with the written one |
| ApiServer.ShortsCountAsWritten | api/server.py:396-406 | the number of durations that are Shorts under the pattern as written; all of them exactly when every one is |
| ApiServer.ShortsCount | api/server.py:396-406 | the same count with the hour field read |
| ApiServer.AsWrittenNeverLonger | api/server.py:400-404 | without the hour group a duration never reads longer than with it |
| ApiServer.ShortIsShortAsWritten | api/server.py:400-406 | every Short under the corrected reading is one as written |
| ApiServer.ShortsCountAsWrittenOvercounts | api/server.py:396-406 | the count as written is never below the corrected count |
| ApiServer.CalculateSampleSize | api/server.py:533-549 | a missing key is an error; the total is twice the per-variant size, which is at least 100 |
| ApiServer.SampleSizeAnswerSplits | api/server.py:540-549 | on accepted inputs the answer is the planner's size and twice it |
| Sorting.Insert | experiment_manager.py:177 | inserting into a descending list keeps it descending and adds exactly one element |
| Sorting.SortDesc | experiment_manager.py:177 | a descending permutation of the input |
| Sorting.InsertAheadOfTies | experiment_manager.py:177 | an inserted element goes in front of every element with its key |
| Sorting.SortDescStable | experiment_manager.py:177 | stable: for every key, the elements with that key keep their input order and number |
| Sorting.SortDescHead | experiment_manager.py:241-246 | the head is the first element of largest key |
| Sorting.SortDescHeadMax | experiment_manager.py:241-246 | the head is an element no other exceeds |

## Left out

- Persistence: the YAML load and save of both managers; the managers are in-memory maps.
- I/O and services: the YouTube Analytics and Data API calls, the Flask routing and JSON, and the OpenAI calls with their JSON repair. Their answers are parameters of the model.
- The insights cache, the prompt text beyond the best result, and the query agent's `_format_results` and `_basic_format` text.
- Library paths: the scipy, statsmodels and pingouin branches of the statistics engine. Only the hand-rolled fallbacks are modelled. Where a scipy-path helper is modelled, the library's critical values are parameters.
- Oracles: `sqrt`, the normal CDF and `asin` are function values. They carry only the laws stated in `Oracles.Lawful`. `sqrt` is non-negative and strictly increasing, with `sqrt(0) = 0` and `sqrt(1) = 1`. The CDF is monotone, ranges over [0, 1] and has `Phi(0) = 1/2`. `asin` is strictly increasing on [0, 1]. No numerical value is claimed.
- StatisticsEngine.ValidateSampleData: the `isinstance` checks on sizes, counts, rates and numbers are not modelled. A float size such as `5.0` or a string rate raises in the source, but the model's parameters are already `int` and `Float`.
- StatisticsEngine.SampleSizeNeeded: `_get_z_critical(1 - alpha)` relies on float equality. It is modelled with exact reals, so `1 - 0.05` hits the 0.95 entry.
- Numeric.Round2: `round(x, 2)` is exact round-half-even on reals, not on binary floats.
- Floating point in general: all arithmetic is on exact reals, so NaN and infinities appear only where validation tests for them.
- ExperimentAnalyser.CompareMetric: Python's `if baseline_data:` treats an empty response dictionary as no baseline. The model treats any collected baseline response as present.
- ExperimentManager.UpdateExperiment: the PUT route passes raw JSON values to `setattr`, and the model's typed `Patch` values cannot express three effects of that. A status string such as `"active"` is stored as text, so the dashboard's comparison with `ExperimentStatus.ACTIVE` is then false. A `success_criteria` dictionary makes the save raise after the in-memory change, which stays in place while the route answers 400. Method names such as `to_dict` pass `hasattr` and replace the method.
- ExperimentAnalyser.AnalyseExperiment: the video-id detection itself is left out. It searches the channel listing by date, and its result is a parameter.
- `_generate_conclusion` text beyond the significance, the direction and the effect bucket.
- Dates: ISO date strings are day numbers and timestamps are integers.
- ApiServer.NextExperimentId: Python's `int()` also accepts surrounding whitespace, underscores and Unicode digits. The model parses only an optional sign followed by ASCII digits.
- ApiServer.DurationSecondsAsWritten: `\d` matches only ASCII digits here, not every Unicode decimal digit.
- Variant.PostInit: the Unicode classes behind `\w` and `\s` in `has_emoji` are the parameter `isWordOrSpace`. `has_numbers` checks ASCII digits.
- Variant.CreateVariant: the `**kwargs` overrides of the new variant's fields are not modelled.
- QueryAgent.ApiError: the explanation keeps the fixed text "YouTube API error" and drops the `: {str(e)}` suffix at query_agent.py:241, because the exception a failed API call raises is not modelled.
- QueryAgent.JoinRow: the `**item` spread can override `video_id`, `title` and `published_at` with a metrics column of that name. Metric values are modelled as a separate map, so this override is not modelled.
- Time series: the decomposition, `detect_trends`, `_has_seasonality`, `detect_weekly_patterns` and `forecast_metric` are left out. `forecast_metric` calls itself unchanged and would not terminate. The components are inputs.
- Other files: the export manager, the report generator, the CLI and the setup and health scripts.

## Findings

| source | as written | input that shows it | evidently intended | confidence | as-written member | corrected member |
|---|---|---|---|---|---|---|
| api/server.py:398-406 | `re.match(r'PT(?:(\d+)M)?(?:(\d+)S)?', duration)` is anchored only at the start, so an hour field stops the match and both groups stay empty | `PT1H30M0S` (90 minutes) reads as 0 seconds and counts as a Short | hours count as 3600 seconds each, so an hour-long video is never a Short | not executed | ApiServer.NinetyMinutesIsShortAsWritten | ApiServer.HourLongIsNotShort |
