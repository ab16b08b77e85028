# Kerala flood forecast and alert pipeline, modelled in Dafny

This project models the forecast-to-alert pipeline of the Kerala flood prediction
system, with the machine-learning, transport and storage layers made abstract. It covers
four parts:

- **Ground truth** (`data.py`): the synthetic data generator. This is the `alert_flag`
  banding of a water level and a rainfall reading, the `GEO` and `LEVEL_RANGES` tables,
  and the day-by-district generation loop. The random draws are parameters.
- **Forecast** (`flood_prediction_lstm.py`):
  - the per-district features (`is_monsoon`, one-day lags and changes, three-day means,
    `dropna`);
  - the sliding-window split `create_sequences`;
  - the autoregressive `predict_flood_risk`. The trained network is an opaque classifier
    from a seven-row window to a probability vector. The window is shifted after every
    step, and its new last row is the old one scaled by a jitter factor;
  - the Orange/Red filter `generate_geo_tagged_alerts`. It reads each district's forecast
    through a function (`Forecast.GeoForecaster`), which is `predict_flood_risk` three days
    ahead.
- **Alerting** (`real_time_alert_system.py`):
  - the per-level confidence thresholds;
  - the six-hour deduplication `is_new_alert` against the alert table, which is a
    sequence of rows;
  - `store_alert`;
  - the check-and-store loop of `check_flood_risk`;
  - channel selection and delivery in `process_alerts`, with SMTP and the webhook POST as
    outcome oracles;
  - `update_alert_status`, both as written and in the corrected form that marks the
    alert's own row by key (see Findings);
  - the static emergency response lookup;
  - the windowed counts of `get_alert_statistics`.
- **Demo summary** (`quick_demo.py`):
  - the level-to-trend rule;
  - the demo predictions;
  - the per-level counts of `create_alert_summary`, its high-confidence count and its
    static contacts;
  - the guarded percentages of the report.

One module per file:

| module | file | contents |
|---|---|---|
| `Results` | `results.dfy` | `Option` and `Result` |
| `Levels` | `levels.dfy` | alert levels, including class names outside Red/Orange/Yellow; thresholds; severity rank |
| `Counting` | `counting.dfy` | an insertion-ordered tally: Python's `d[k] = d.get(k, 0) + 1` and SQL `GROUP BY ... COUNT(*)` |
| `GroundTruth` | `groundtruth.dfy` | `data.py` |
| `Features` | `features.dfy` | feature construction of `load_and_preprocess_data` |
| `Forecast` | `forecast.dfy` | `predict_flood_risk`, `create_sequences`, `generate_geo_tagged_alerts` |
| `AlertStore` | `alertstore.dfy` | the `alerts` table: dedup, insert, flag update, statistics |
| `Dispatch` | `dispatch.dfy` | `process_alerts`, the two channels, the emergency response; the status updates both as written and marked by key |
| `Monitor` | `monitor.dfy` | one `check_flood_risk` pass end to end |
| `DemoSummary` | `demosummary.dfy` | `quick_demo.py` |

Conventions:

- Timestamps are integer seconds.
- Randomness enters as functions from a step or a (district, step) pair to the draw.
- The classifier, the label encoder's classes, the scaled histories and the district
  coordinates are fields of a `System` value.
- Row keys are the SQLite `AUTOINCREMENT` ids of a table that starts empty and is only
  appended to, so row `i` has key `i + 1` (`AlertStore.Wellformed`).

## Model

| member | source | states |
|---|---|---|
| Levels.Threshold | real_time_alert_system.py:24-28 | Red needs 0.7 and Orange 0.6. Yellow and every name outside the table fall back to 0.5 (the `.get` default on line 140). Every threshold lies in [0.5, 0.7]. |
| Levels.LabelRoundTrip | flood_prediction_lstm.py:252 | every class name the label encoder returns decodes to a level that prints back as the same name, so unexpected names are kept, not lost |
| Levels.FromLabelRoundTrip | flood_prediction_lstm.py:252 | decoding the printed name of a level gives back that level |
| Levels.Rank | data.py:42 | the severity order Yellow < Orange < Red: rank 0 exactly for Yellow, rank 2 exactly for Red |
| Levels.ThresholdAntitone | real_time_alert_system.py:24-28 | a confidence that reaches the bar of a more severe level reaches the bar of every less severe one |
| Counting.BumpGet | quick_demo.py:178 | counting one more `k` adds one to the count of `k` and leaves every other count alone |
| Counting.BumpKeys | quick_demo.py:178 | after counting `k`, the keys are the old keys plus `k` |
| Counting.BumpDistinct | quick_demo.py:178 | counting keeps every key listed once |
| Counting.BumpTotal | quick_demo.py:178 | counting adds exactly one to the sum of all counts |
| Counting.TallyCorrect | quick_demo.py:175-178 | the tally of a list gives each key its number of occurrences. A key is listed iff it occurs, and then only once. Every listed count is at least 1, and the counts sum to the list's length. |
| Counting.TallyEntries | quick_demo.py:175-178 | every listed entry carries the number of occurrences of its own key |
| GroundTruth.AlertFlag | data.py:43-48 | Red iff wl >= 7 or pr >= 200. Orange iff 5 <= wl < 7 and 150 <= pr < 200. Yellow iff neither. The result is always exactly one of the three. |
| GroundTruth.AlertFlagMonotone | data.py:43-48 | raising the water level or the rainfall never lowers the flag in the Yellow < Orange < Red order |
| GroundTruth.YellowWiderThanComment | data.py:42 | (6 m, 100 mm) and (4 m, 180 mm) are flagged Yellow, although neither fits the comment's Yellow band of wl < 5 and pr < 150 |
| GroundTruth.GeoHasRanges | data.py:24-39 | each of the 14 geotagged districts has a water-level range, with low below high, so the range lookup never fails |
| GroundTruth.GeoNamesDistinct | data.py:6-21 | no district appears twice in the geotag table |
| GroundTruth.MeanPrecipitation | data.py:66 | the rainfall mean is 180 exactly for June to August and 120 for every other month |
| GroundTruth.MakeRow | data.py:64-71 | a generated row carries its date, the district's name and coordinates, non-negative rainfall, and the flag of its own two readings |
| GroundTruth.Generate | data.py:61-72 | 14 rows per day for every day from start to end inclusive, and none when start is after end |
| GroundTruth.GenerateAt | data.py:61-72 | the row at position 14k + c is the row of district c on day start + k |
| GroundTruth.GeneratedRowsSound | data.py:67-68 | every generated row has non-negative rainfall and carries the flag of its readings |
| GroundTruth.GeneratedLevelsInRange | data.py:64 | when the uniform draws stay within their bounds, every generated water level lies within its district's range |
| GroundTruth.OneRowPerDistrictDay | data.py:61-72 | every (day, district) pair in range has its row, and no two rows share both a day and a district |
| Features.IsMonsoon | flood_prediction_lstm.py:60 | the flag is 0 or 1, and it is 1 exactly for months 6 to 9 |
| Features.WetMonthsAreMonsoon | flood_prediction_lstm.py:60 | every month the generator treats as wet is a monsoon month. September is a monsoon month without the wet mean. |
| Features.DropNaComplete | flood_prediction_lstm.py:79 | dropping incomplete rows keeps every row of an all-complete table, in order |
| Features.CompleteFromThirdRow | flood_prediction_lstm.py:63-72 | a district's row has all derived columns exactly from its third row onwards |
| Features.PreprocessShape | flood_prediction_lstm.py:53-79 | n days give max(0, n - 2) processed rows. Processed row j is day j + 2. Its lags are day j + 1's readings, its changes are the differences to day j + 1, and its means are over days j to j + 2. |
| Forecast.ArgMax | flood_prediction_lstm.py:247 | the index of a largest probability, and the first such index |
| Forecast.StepOfSpec | flood_prediction_lstm.py:246-257 | a step fails on an empty output and on an arg-max that names no class. Otherwise it records its day and copies the probabilities of the named classes. Its confidence is the largest probability. That value sits at the slot of the predicted class, and every earlier slot is strictly smaller. |
| Forecast.ShiftWindowSpec | flood_prediction_lstm.py:261-263 | after a step, rows 0..W-2 are the old rows 1..W-1, and the new last row is the old last row scaled by the factor |
| Forecast.JitterFactor | flood_prediction_lstm.py:263 | a uniform draw in [0, 1) gives a factor in [0.9, 1.1) |
| Forecast.LastN | flood_prediction_lstm.py:227 | `tail(n)`: the last min(n, length) elements |
| Forecast.SeedWindow | flood_prediction_lstm.py:227-239 | the first window is the last seven rows of the history, or the whole history when it is shorter |
| Forecast.RolloutOk | flood_prediction_lstm.py:241-263 | the forecast succeeds iff the classifier's output is valid at every step |
| Forecast.RolloutLength | flood_prediction_lstm.py:241 | a successful forecast from day d up to n holds n - d steps |
| Forecast.RolloutUnfold | flood_prediction_lstm.py:241-263 | a successful forecast is its first step, read from the current window, followed by the forecast from the shifted window |
| Forecast.RolloutAt | flood_prediction_lstm.py:241-263 | step i is the classifier's reading of the window shifted i times, recorded as day d + i + 1 |
| Forecast.ShortWindowFails | flood_prediction_lstm.py:243 | a window shorter than seven rows fails the first step, as the reshape does |
| Forecast.PredictFloodRiskErrors | flood_prediction_lstm.py:222-243 | ModelNotLoaded without a model. UnknownDistrict without a scaler for the district. NoHistory on an empty history. InsufficientHistory on fewer than seven rows when a day is asked for. |
| Forecast.PredictFloodRiskOk | flood_prediction_lstm.py:220-265 | with a model and at least seven rows, the forecast succeeds iff every step's output names a class |
| Forecast.PredictFloodRiskLength | flood_prediction_lstm.py:241 | a successful forecast holds exactly `days_ahead` steps, or none when `days_ahead` is not positive. It needs a model and at least seven rows as soon as a day is asked for. |
| Forecast.PredictFloodRiskSteps | flood_prediction_lstm.py:241-258 | step i has day i + 1 and is the classifier's reading of the seed window shifted i times |
| Forecast.StepsCarryTheirMaximum | flood_prediction_lstm.py:247-257 | every step's confidence is its largest probability and sits at the slot of its predicted class |
| Forecast.CreateSequences | flood_prediction_lstm.py:84-92 | max(0, n - W) pairs. Pair k holds exactly the W feature rows k..k+W-1, with the target of row k + W. |
| Forecast.HighRiskAlerts | flood_prediction_lstm.py:280-293 | an alert is emitted iff some step is Orange or Red with confidence strictly above the bar. The alert copies that step's day, level, confidence and probabilities. |
| Forecast.HighRiskAlertsInOrder | flood_prediction_lstm.py:280-293 | the alerts of a district come in the order of the steps they are made from |
| Forecast.HighRiskAlertsCount | flood_prediction_lstm.py:280-293 | one alert per qualifying step, no step dropped and none repeated: the number of alerts is the number of Orange or Red steps strictly above the bar |
| Forecast.GeoAlertsMembers | flood_prediction_lstm.py:271-297 | the batch holds exactly the alerts of its districts |
| Forecast.DistrictGeoAlertsCount | flood_prediction_lstm.py:272-295 | a district contributes no alert when its forecast or coordinate lookup fails, and otherwise one per qualifying step |
| Forecast.GeoAlertsCount | flood_prediction_lstm.py:271-297 | the batch holds exactly as many alerts as there are qualifying steps over all districts whose forecast and coordinate lookup succeed |
| Forecast.DefaultGeoAlertsQualify | flood_prediction_lstm.py:267-282 | with the default bar of 0.7 every geo-tagged alert is above 0.7 and so also passes the alert system's per-level threshold |
| Forecast.GeoTaggedAlertsSpec | flood_prediction_lstm.py:267-297 | an alert is in the result iff it comes from a high-risk step of a district whose forecast and coordinates succeed. Every result is Orange or Red, strictly above the bar, and stamped now. |
| Forecast.GeoAlertsConcat | flood_prediction_lstm.py:271-295 | districts are handled independently: the alerts of two district lists are the alerts of the first followed by those of the second |
| Forecast.FailingDistrictSkipped | flood_prediction_lstm.py:294-295 | a district whose forecast fails contributes nothing and does not stop the districts after it |
| Forecast.FailingDistrictEmpty | flood_prediction_lstm.py:294-295 | a district whose forecast fails yields no alert |
| AlertStore.IsNewAlertSpec | real_time_alert_system.py:173-184 | an alert is new iff no row has its district and level, is active, and is stamped strictly after now minus six hours |
| AlertStore.SuppressionBoundary | real_time_alert_system.py:174-178 | a matching row exactly six hours old does not suppress; one a second younger does |
| AlertStore.StoreAlert | real_time_alert_system.py:191-197 | exactly one row is appended, under the next key, with the alert's columns, both flags clear, and active. Earlier rows are unchanged. Keys stay 1..n. |
| AlertStore.StoreAlertSuppresses | real_time_alert_system.py:152-155 | after storing an alert, a candidate with the same district and level is a repeat, and every other candidate is judged as before |
| AlertStore.StaysSuppressed | real_time_alert_system.py:173-184 | appending rows never makes a repeat new again |
| AlertStore.UpdateAlertStatus | real_time_alert_system.py:297-309 | only the channel's flag changes, and it changes exactly on the rows with the alert's district and timestamp |
| AlertStore.UpdateAlertStatusIdempotent | real_time_alert_system.py:297-309 | writing the same status twice gives the same table as writing it once |
| AlertStore.MarkDelivered | real_time_alert_system.py:297-309 | only the channel's flag changes, and it is set exactly on the row with the given key |
| AlertStore.MarkDeliveredOneRow | real_time_alert_system.py:297-309 | on a table keyed 1..n, marking a key sets that row's flag, leaves every other row as it was, and keeps the keys |
| AlertStore.MarkDeliveredCommutes | real_time_alert_system.py:297-309 | marks applied in either order give the same table |
| AlertStore.UpdateMatchesMarkWhenUnique | real_time_alert_system.py:303-306 | when a single row has the alert's district and timestamp, the update by those columns equals marking that row by key |
| AlertStore.UpdateAlertStatusCollision | real_time_alert_system.py:303-306 | two alerts of one district stored with equal timestamps: updating the first also marks the second's row, while marking by key does not |
| AlertStore.SinceMembers | real_time_alert_system.py:371-376 | the time window keeps exactly the rows stamped after its start |
| AlertStore.RecentAlertsSpec | real_time_alert_system.py:364-368 | a row is a recent alert iff it is in the table and less than 24 hours old |
| AlertStore.CountsAgree | real_time_alert_system.py:371-376 | the number of times a key occurs among the window's rows equals the number of rows in the window with that key |
| AlertStore.GroupCounts | real_time_alert_system.py:371-385 | grouping the window's rows by a column gives each value its row count. A value is listed iff it has a row, and then once. The counts sum to the window's size. |
| AlertStore.CountsByLevelSpec | real_time_alert_system.py:371-376 | the per-level counts of the last seven days are exact, have no duplicate keys, list only levels that occur, and sum to the window's size |
| AlertStore.CountsByDistrictSpec | real_time_alert_system.py:379-385 | the same for the per-district counts |
| Dispatch.DefaultWebhooksUnconfigured | real_time_alert_system.py:40-44 | every shipped URL contains "YOUR", so no level has a usable webhook |
| Dispatch.EmergencyResponse | real_time_alert_system.py:337-351 | the plan holds the alert, the recommendations listed for the alert's own level, the static contact list, and two shelters whose names end with the district |
| Dispatch.PlanBySeverity | real_time_alert_system.py:337-339 | a plan for a level outside the table has no actions. Otherwise it has 4 + rank of them, so a more severe alert's plan lists strictly more actions. |
| Dispatch.RecommendationsBySeverity | real_time_alert_system.py:313-339 | a level outside the table gets no recommendations. Otherwise there are 4 + rank of them, so a more severe level gets strictly more. |
| Dispatch.RecommendationCount | real_time_alert_system.py:313-339 | six recommendations for Red, five for Orange, four for Yellow, none otherwise |
| Dispatch.DeliveryOfSpec | real_time_alert_system.py:204-295 | the e-mail is attempted iff the level is Red or Orange, and counts iff the SMTP session completes. The webhook is posted iff the level has a usable URL, and counts iff the reply is 200. The e-mail outcome does not depend on the webhook oracle. |
| Dispatch.ProcessAlerts | real_time_alert_system.py:202-215 | the table keeps its length, and there is one delivery per alert, in order, each decided by its own alert and the oracles |
| Dispatch.RecordRow | real_time_alert_system.py:255 | the corrected recording of the Findings row: a delivery sets a channel's flag only on the row with the alert's key, and only when that channel went out. Other columns are unchanged. |
| Dispatch.ProcessAlertsRow | real_time_alert_system.py:202-215 | the batch with the corrected recording: a row's flag is set iff it already was or an alert stored under the row's key went out on that channel. Other columns are unchanged. |
| Dispatch.DeliveredToOwnKey | real_time_alert_system.py:255 | with the corrected recording, when no other alert of the batch shares an alert's key, that key is marked on a channel iff the alert went out on it |
| Dispatch.ProcessAlertsAsWritten | real_time_alert_system.py:202-215 | the batch with the status updates as written: the table keeps its length, and there is one delivery per alert, in order, each decided by its own alert and the oracles |
| Dispatch.RecordAsWrittenRow | real_time_alert_system.py:297-306 | recording a delivery as written sets a channel's flag on every row with the alert's district and timestamp, and only when that channel went out. Other columns are unchanged. |
| Dispatch.ProcessAlertsAsWrittenRow | real_time_alert_system.py:202-215 | after the batch as written, a row's flag is set iff it already was or some alert of the batch with the row's district and timestamp went out on that channel, whatever row that alert was stored as |
| Dispatch.AsWrittenAgreesByKey | real_time_alert_system.py:303-306 | when every alert's district and timestamp match exactly the row stored under its key, the batch as written leaves the same table and deliveries as the batch that marks by key |
| Dispatch.ProcessAlertsWellformed | real_time_alert_system.py:202-215 | sending keeps the row keys 1..n |
| Dispatch.ChannelsIndependent | real_time_alert_system.py:257-258 | a row's e-mail flag depends only on the SMTP outcomes and its webhook flag only on the POST replies, so a failure on one channel does not affect the other |
| Dispatch.DefaultWebhooksNeverPost | real_time_alert_system.py:263-266 | with the shipped URLs nothing is posted and no webhook flag changes |
| Monitor.Qualifying | real_time_alert_system.py:135-150 | a step becomes a candidate iff its confidence reaches its level's threshold, ties included. The candidate copies the step's level, confidence, day and probabilities. |
| Monitor.QualifyingInOrder | real_time_alert_system.py:135-150 | the candidates of a forecast are some of its steps, in step order |
| Monitor.QualifyingByDay | real_time_alert_system.py:135-150 | when the steps come day by day, the candidates' day-ahead strictly increases, so the nearest qualifying day comes first |
| Monitor.DistrictCandidatesByDay | real_time_alert_system.py:128-150 | the candidates of one district come in strictly increasing day-ahead order |
| Monitor.CandidatesMembers | real_time_alert_system.py:126-158 | the candidates of a district list are exactly those of its districts |
| Monitor.CandidatesSpec | real_time_alert_system.py:126-150 | a candidate of a pass comes from a qualifying step of a district whose forecast and coordinates succeed, and is stamped now |
| Monitor.CandidatesConcat | real_time_alert_system.py:126-158 | districts are checked independently and in order |
| Monitor.FailingDistrictEmpty | real_time_alert_system.py:157-158 | a district whose forecast fails yields no candidate |
| Monitor.FailingDistrictSkipped | real_time_alert_system.py:157-158 | a failing district is skipped and the remaining districts are still checked |
| Monitor.Issue | real_time_alert_system.py:152-155 | the check-and-store loop keeps the table as a prefix, appends one row per issued alert, and issues no more alerts than there are candidates |
| Monitor.IssueAppend | real_time_alert_system.py:135-155 | the loop over two runs of candidates is the loop over the first, then the loop over the second against the table the first left |
| Monitor.IssueStep | real_time_alert_system.py:135-155 | one turn of the loop, in candidate order: the i-th candidate is checked against the table the earlier ones left; if new it is stored under the next key and appended to the issued alerts, otherwise nothing changes |
| Monitor.IssueDecided | real_time_alert_system.py:152-155 | the i-th candidate is issued iff it is new against the table the earlier candidates left. It is then the next issued alert, under the next key. |
| Monitor.IssueSubsequence | real_time_alert_system.py:135-155 | the issued alerts are some of the candidates, in candidate order |
| Monitor.IssueAt | real_time_alert_system.py:152-155 | the k-th issued alert is a candidate and was new against the table as it stood when checked. It got key n + k + 1, and its row is the k-th one appended. |
| Monitor.IssuedId | real_time_alert_system.py:155 | the k-th issued alert is stored under key n + k + 1 |
| Monitor.IssuedDistinct | real_time_alert_system.py:135-155 | alerts issued in one loop have pairwise different (district, level) |
| Monitor.IssueCovers | real_time_alert_system.py:152-155 | after the loop every candidate is a repeat |
| Monitor.IssueNothingNew | real_time_alert_system.py:152-155 | when every candidate is already a repeat, nothing is stored or issued |
| Monitor.NewDependsOnPlace | real_time_alert_system.py:173-178 | whether an alert is new depends only on its district and level |
| Monitor.LaterRepeatSuppressed | real_time_alert_system.py:152-155 | a later candidate with the district and level of an earlier one is never new when checked, so it is not issued |
| Monitor.IssuedRows | real_time_alert_system.py:152-155 | each row the loop appends is the new row of the matching issued alert, and that alert is a candidate |
| Monitor.FirstRepeatWins | real_time_alert_system.py:135-155 | the first candidate for a (district, level) that is new against the starting table is issued, and no other issued alert has that district and level |
| Monitor.CheckFloodRisk | real_time_alert_system.py:120-166 | a pass appends exactly one row and produces exactly one delivery per issued alert |
| Monitor.PassIssuedSpec | real_time_alert_system.py:120-166 | every alert of a pass is a candidate, stamped now, at or above its threshold, and its delivery is the one its own alert decides |
| Monitor.PassIssuedDistinct | real_time_alert_system.py:135-155 | a pass issues at most one alert per (district, level) |
| Monitor.PassCovers | real_time_alert_system.py:120-166 | after a pass, every candidate of that pass is a repeat |
| Monitor.ProcessAlertsRowIfAny | real_time_alert_system.py:160-162 | sending changes no column of any row other than the two flags |
| Monitor.OldRowsUnmarked | real_time_alert_system.py:152-162 | no delivery of a pass marks a row that was already in the table |
| Monitor.NewRowOwnDelivery | real_time_alert_system.py:152-162 | the row of the k-th issued alert is marked on a channel iff that alert went out on it |
| Monitor.PassKeepsRows | real_time_alert_system.py:120-166 | a pass leaves every row that was already there exactly as it was |
| Monitor.PassAppendsRows | real_time_alert_system.py:120-166 | the k-th new row carries the k-th issued alert under the next key, still active. Its e-mail and webhook flags equal that alert's delivery outcomes. |
| Monitor.PassFirstWins | real_time_alert_system.py:126-162 | the first candidate of a pass for a (district, level) that is new against the table is issued, and no later, different candidate for that district and level is |
| Monitor.CheckFloodRiskAsWritten | real_time_alert_system.py:120-166 | the pass with the status updates as written appends exactly one row and produces exactly one delivery per issued alert |
| Monitor.MatchesOwnRow | real_time_alert_system.py:303-306 | if the old rows are older than now and no two issued alerts share a district, a row matches an issued alert's district and timestamp iff it is that alert's own row |
| Monitor.PassAsWrittenAgrees | real_time_alert_system.py:120-166 | on a table keyed 1..n with nothing stamped now, a pass that issues at most one alert per district gives the same result with the updates as written as with the marks by key |
| DemoSummary.TrendFollowsSeverity | quick_demo.py:56 | the trend is Increasing iff the level is Orange or Red, and Stable otherwise |
| DemoSummary.Locate | quick_demo.py:46-47 | the lookup succeeds iff a district of that name exists, and then returns coordinates of such a district |
| DemoSummary.DemoDistrictsLocated | quick_demo.py:37-47 | all five demo districts are in the generated data, so their lookup never fails |
| DemoSummary.CreateDemoPrediction | quick_demo.py:49-59 | the prediction carries its district, drawn level and confidence, one day ahead, with a trend that rises iff the level is Orange or Red |
| DemoSummary.HighConfidence | quick_demo.py:189 | a prediction is listed iff it is in the batch with confidence strictly above 0.8, and there are no more of them than predictions |
| DemoSummary.HighConfidenceMultiset | quick_demo.py:189 | each prediction above 0.8 is listed as often as it occurs in the batch, and no other prediction is listed |
| DemoSummary.HighConfidenceCount | quick_demo.py:189-190 | the list has as many entries as the batch has predictions above 0.8, counted independently |
| DemoSummary.AlertSummarySpec | quick_demo.py:175-207 | total = number of predictions. Each level's count is its number of predictions. A level is listed iff predicted, and then once. The counts sum to the total. The high-confidence count is the number of predictions above 0.8. The contacts are the static table. |
| DemoSummary.SummaryCountsStep | quick_demo.py:176-178 | one more prediction adds one to its own level's count and changes no other count |
| DemoSummary.Percentage | quick_demo.py:184 | 0 for an empty batch, with no division by zero. Otherwise count × 100 / total, which lies in [0, 100] when count <= total. |
| DemoSummary.ListedOccurrences | quick_demo.py:182-184 | when every level is Red, Orange or Yellow, the three counts sum to the number of predictions |
| DemoSummary.DistributionSumsToHundred | quick_demo.py:232-235 | in exact real arithmetic, for a non-empty batch of listed levels, the three percentages sum to 100 |

## Left out

- I/O is replaced by values and oracles. The SQLite connection becomes the table as a
  sequence of rows. SMTP becomes a per-alert success oracle. The HTTP POST becomes a
  reply oracle, where an exception is a reply of its own. CSV, JSON and HTML file writes
  become the data they would write. The emergency plan's file name holds the district and
  the time to the minute, so on disk a later plan for the same district in the same
  minute overwrites the earlier one. The model keeps every plan.
- Console output, the `schedule` loop, `time.sleep`, `KeyboardInterrupt` and the
  interactive `main` menus are left out. They are control plumbing around one pass,
  which is modelled.
- Training, evaluation, Keras/joblib save and load, `MinMaxScaler`, `LabelEncoder` and
  `train_test_split` are foreign libraries. The classifier is an opaque function, the
  scaled histories are given per district, and the encoder's classes are a list of
  levels.
- The random draws (`np.random.random`, `random.uniform`, `random.gauss`, the demo's
  choices) are parameters. The range of the level draws is an explicit hypothesis
  (`GroundTruth.LevelDrawsInRange`).
- `get_current_weather_data` is left out. It is a placeholder that no modelled
  operation calls.
- `alert_history` is created but never read or written.
- The folium maps, `create_alert_map`, `create_interactive_map` and `load_sample_data`
  are presentation only.
- Timestamps are integer seconds. The source compares ISO strings with each other and
  with SQLite's `datetime('now')` text, and those formats are not modelled.
- One `now` is used for a whole pass, while the source reads the clock once per alert.
  Because of this, two alerts of one district in one pass always share a timestamp in
  the model, so the update as written would mark both of their rows.
- Dispatch.Record: the pass sends through the recording that marks the alert's own row
  by key, the correction of the Findings row, and not through `update_alert_status` as
  written. The as-written batch is `Dispatch.ProcessAlertsAsWritten` and the as-written
  pass `Monitor.CheckFloodRiskAsWritten`. `Monitor.PassAsWrittenAgrees` shows the two
  passes agree when nothing in the table is stamped `now` and no two alerts of the pass
  share a district.
- RecordRow: states the recording by key; the update as written is stated by
  `Dispatch.RecordAsWrittenRow`.
- ProcessAlertsRow: states the batch with the recording by key; the batch as written
  is stated by `Dispatch.ProcessAlertsAsWrittenRow`, and `Dispatch.AsWrittenAgreesByKey`
  says when the two agree.
- DeliveredToOwnKey: states delivery by key; with the update as written, a row with the
  same district and timestamp is marked too (`AlertStore.UpdateAlertStatusCollision`).
- SQLite is assumed to answer every query and accept every write. In the source a failing
  `is_new_alert` or `store_alert` raises inside the per-district `try`. A failing insert
  leaves the alert in the batch that is sent, leaves it out of the table, and skips the
  district's remaining steps. Neither of these outcomes is modelled.
- Python floats are modelled as exact reals. The confidences, thresholds and percentages
  are compared and summed exactly. With floats the three report percentages can sum to
  99.99999999999999 or 100.00000000000001, so
  `DemoSummary.DistributionSumsToHundred` holds for the reals and not for the floats.
- `get_alert_statistics` row and group order (`ORDER BY timestamp DESC`,
  `ORDER BY count DESC`) is not modelled. The counts are exact, and groups are listed
  in first-occurrence order. As in the source, the statistics do not filter on `active`.
- The emergency plan write is taken to succeed. In the source, an exception while
  writing the plan file is not caught and would end the pass.
- `generate_geo_tagged_alerts` and the pass both ask for three days, the constant
  `PassHorizon`. The demo default of 0.6 in the source's `main` is a caller's argument.
- The demo reads the coordinates from the first generated row of the district, which is
  its geotag table entry; `DemoSummary.Locate` searches that table.
- The probability vector is not required to sum to one, because the code never checks
  this.
- The date arithmetic of the generator is out of scope. Days are consecutive integers
  and their calendar month comes from a `monthOf` function. `round(·, 2)` of the draws
  is folded into the draw parameters.
- Features.Vector: states only that a processed row gives the model eleven features; the
  column order is fixed by its definition.
- Forecast.ShiftWindow: states only that the window keeps its length; the content of a
  shifted window is stated by `Forecast.ShiftWindowSpec`.
- Forecast.WindowAt: states only that the window keeps its length; its content is stated
  step by step through `Forecast.ShiftWindowSpec` and `Forecast.RolloutAt`.
- Monitor.CheckFloodRisk: states only the row and delivery counts; the contents are
  stated by the `Pass*` lemmas.
- Monitor.CheckFloodRiskAsWritten: states only the row and delivery counts;
  `Monitor.PassAsWrittenAgrees` relates it to `Monitor.CheckFloodRisk`.
- Forecast.HighRiskAlerts: states membership only; step order is stated by
  `Forecast.HighRiskAlertsInOrder` and the count by `Forecast.HighRiskAlertsCount`.
- Forecast.GeoTaggedAlertsSpec: states membership only; the count is stated by
  `Forecast.GeoAlertsCount` and the district order by `Forecast.GeoAlertsConcat`.
- Monitor.Qualifying: states membership only; step order is stated by
  `Monitor.QualifyingInOrder` and `Monitor.QualifyingByDay`.
- Monitor.Issue: states the prefix and the counts only; which candidates are issued,
  and in what order, is stated by `Monitor.IssueStep`, `Monitor.IssueDecided` and
  `Monitor.IssueSubsequence`.
- Monitor.IssueAt: states one direction, issued implies new when checked; the converse
  is `Monitor.IssueDecided`.
- DemoSummary.HighConfidence: states membership only; the multiplicities are stated by
  `DemoSummary.HighConfidenceMultiset` and the count by `DemoSummary.HighConfidenceCount`.

## Findings

| source | as written | input that shows it | evidently intended | confidence | as-written member | corrected member |
|---|---|---|---|---|---|---|
| real_time_alert_system.py:303-306 | The delivery flag is written on every row whose district and timestamp equal the alert's. | Two Ernakulam alerts, Red and Orange, stored with the same timestamp. The e-mail of the Red alert also marks the Orange row as e-mailed. | Only the row stored for the delivered alert is marked. | low: it needs two alerts of one district with equal timestamp strings; not executed | AlertStore.UpdateAlertStatusCollision | AlertStore.MarkDeliveredOneRow |
