# Data-quality platform: verified model of its rule engines

The platform takes an uploaded CSV file, profiles it, and scores its quality.
It simulates a cleaning run and gives recommendations. A FastAPI/pandas back end
and a React front end deliver these. This project models in Dafny the small
self-contained rule engines inside both halves, and proves what the code promises:

- the client's CSV export and its 15-row preview;
- the server's paged preview and its choice of which file to serve;
- the dashboard's control state: the drop-column list, the pager, and the
  loading flag around a cleaning run;
- the in-memory session table;
- the three quality-score formulas and the readiness bands;
- the insight summary;
- four recommenders;
- three importance formulas, the stable descending ranking, and the drop rule;
- the client-side column profile, feature ranking and insight panel.

Pandas aggregates are inputs to the model. A table is a `Stats.TableStats` record
(rows, columns, missing cells, duplicate rows), and a column is a
`Stats.ColumnStats` record (name, missing ratio, distinct count, numeric or not,
skew). Ratios are exact `real`s. JavaScript values are `JsValues.JsValue`, with
null, undefined, string, number as shown by `String()`, NaN and boolean. Objects
and dictionaries are association lists kept in insertion order.

Each Dafny module corresponds to a source file, and the files that compute a value
are modelled as functions. The ones that change state step by step are modelled as
follows:
- the session table is a class whose records are objects, so what
  `get_session` hands out remains the stored record;
- the dashboard is a class with one field per `useState`;
- the loops and the appending lists of the back end are methods with loop
  invariants. Each is proved equal to a specification function, and the
  lemmas are stated about that function.

A Python `ZeroDivisionError` is modelled as an `Err` result. Such a division
happens when `nunique() / len(df)` runs on a table with columns but no rows.
A pandas division by zero rows gives NaN instead. NaN fails every comparison, so
such an item is simply not produced.

## Model

| member | source | states |
|---|---|---|
| CsvExport.QuotedIffNeeded | frontend/src/components/CleanedTable.jsx:8-18 | A cell comes out in quotes exactly when its text holds a comma or a double quote. Any other cell comes out as its text unchanged. Null and undefined come out empty. |
| CsvExport.ReadPlain | frontend/src/components/CleanedTable.jsx:11-17 | A field with no comma or quote is read back as itself, whatever follows the field. |
| CsvExport.ReadEscaped | frontend/src/components/CleanedTable.jsx:13-15 | A field wrapped in quotes, with every inner quote doubled, is read back as the original text. |
| CsvExport.EscapeRoundTrip | frontend/src/components/CleanedTable.jsx:8-18 | Field round trip: reading an escaped cell gives back `String(value)`, or "" for null and undefined. |
| CsvExport.LineRoundTrip | frontend/src/components/CleanedTable.jsx:24-27 | A data line splits on unquoted commas into exactly one field per header, in header order, each the cell's text. |
| CsvExport.PlainLineRoundTrip | frontend/src/components/CleanedTable.jsx:6 | A header line of names without commas or quotes splits back into those names. |
| CsvExport.ExportRoundTrip | frontend/src/components/CleanedTable.jsx:6-28 | With plain headers and no line break in any value, the export reads back as one header record of the first row's keys. That record is followed by one record per row, in row order, of the texts in header order. |
| CsvExport.DownloadCsv | frontend/src/components/CleanedTable.jsx:2-4 | Absent or empty data exports nothing. Any other data exports the CSV text. |
| CsvExport.PreviewRows | frontend/src/components/CleanedTable.jsx:75 | The preview is the first min(15, n) rows. |
| CsvExport.FooterIffRowsHidden | frontend/src/components/CleanedTable.jsx:91-95 | The "first 15 rows" footer shows exactly when some row is hidden. |
| CsvExport.LineBreakSplitsRecord | frontend/src/components/CleanedTable.jsx:8-18 | Deviation from section 2, rule 6, of RFC 4180: a value holding a line break is not quoted, so it splits its record in two. |
| CsvExport.CommaHeaderSplits | frontend/src/components/CleanedTable.jsx:6 | Deviation: header names are not escaped, so a name holding a comma reads back as two fields. |
| Pagination.DatasetPath | backend/api/download.py:17-24 | The cleaned file is preferred, then the uploaded one. The result is None (a 404) when neither exists, and a returned path always exists. |
| Pagination.CeilDiv | backend/api/download.py:28-29 | The page count is the ceiling of rows / page size, for either sign of the page size. |
| Pagination.PreviewShape | backend/api/download.py:14-41 | For an unknown dataset the result is NotFound, and for page size 0 it is DivisionByZero. Otherwise it holds every column of the file, the requested page, the page's rows with missing cells as "", and the ceiling page count. |
| Pagination.FillRows | backend/api/download.py:38 | Every missing cell of the returned rows becomes "". All other cells are unchanged. |
| Pagination.PageIsWindow | backend/api/download.py:31-34 | For page ≥ 1 the page holds rows [(page-1)·size, min(page·size, n)) in file order, and at most `size` of them. |
| Pagination.PageSizes | backend/api/download.py:31-34 | Each page before the last is full, and each page past the last is empty. |
| Pagination.PagesCoverAllRows | backend/api/download.py:28-34 | Pages 1 to total_pages, concatenated, are all the rows in order. |
| Pagination.FortyFiveRows | backend/api/download.py:28-34 | 45 rows in pages of 20: three pages, and the third holds 5 rows. |
| Pagination.SameFileServed | backend/api/download.py:49-55 | Preview and download fail for the same ids, and they serve the same file. |
| Pagination.NegativePageWrapsAround | backend/api/download.py:31-34 | As written: with 45 rows, page -1 returns rows 5 to 24 (a slice from the end) and page 0 returns nothing. |
| Pagination.CheckedPreview | backend/api/download.py:31-34 | Corrected: a page below 1 is rejected, and any other page gives the unchanged preview. |
| Pagination.CheckedPreviewIsWindow | backend/api/download.py:31-34 | Corrected: every page the checked preview returns is the window that starts at (page-1)·size. |
| Dashboard.ToggleFlips | frontend/src/pages/DashboardPage.jsx:55-61 | Toggling flips the column's membership and leaves every other column's membership as it was. |
| Dashboard.ToggleShape | frontend/src/pages/DashboardPage.jsx:56-59 | On a duplicate-free list, toggling a present column removes exactly its position and keeps the others in order. An absent column is appended at the end. |
| Dashboard.ToggleTwice | frontend/src/pages/DashboardPage.jsx:55-61 | Toggling an absent column twice gives back the list. |
| Dashboard.ToggleKeepsNoDuplicates | frontend/src/pages/DashboardPage.jsx:55-61 | A duplicate-free list stays duplicate-free. |
| Dashboard.AllColumns | frontend/src/pages/DashboardPage.jsx:101-106 | The list is numeric, then categorical, boolean and datetime columns; an absent group, or absent data types, counts as empty. Both its length and its membership match. |
| Dashboard.DashboardState.constructor | frontend/src/pages/DashboardPage.jsx:27-36 | The initial state of every control: page 1, no rows, missing and duplicate handling on, "iqr", and no dropped columns. |
| Dashboard.DashboardState.ToggleColumn | frontend/src/pages/DashboardPage.jsx:55-61 | The drop list becomes the toggled list, and nothing else changes. The drop list stays free of duplicates. |
| Dashboard.DefaultControlsStages | frontend/src/pages/DashboardPage.jsx:33-36 | The initial controls run filling, then de-duplication, then IQR outlier removal, and drop no column. |
| Dashboard.NoneOptionKeepsOutliers | frontend/src/pages/DashboardPage.jsx:168 | The "none" option runs no outlier stage, whatever the other controls are. |
| Dashboard.DashboardState.LoadPreview | frontend/src/pages/DashboardPage.jsx:47-53 | After a response, rows and columns default to [] and the total to 0 when absent, and the page becomes p. A failed request changes nothing. |
| Dashboard.DashboardState.ClickPrevious | frontend/src/pages/DashboardPage.jsx:47-53 | Previous, allowed only off page 1, loads the page before: on success it stores that page's rows, columns and row count (with the `|| []` and `|| 0` defaults) and the page drops by one, never below 1. A failed request changes none of them. The cleaning flag, result and controls are untouched. |
| Dashboard.DashboardState.ClickNext | frontend/src/pages/DashboardPage.jsx:47-53 | Next, allowed only when the page is not the page count, loads the next page: on success it stores that page's rows, columns and row count and the page rises by one. A failed request changes none of them. The cleaning flag, result and controls are untouched. |
| Dashboard.DashboardState.RunCleaning | frontend/src/pages/DashboardPage.jsx:63-77 | Sends the current controls. The loading flag is true at every await and false afterwards, whether or not a request failed. A successful run stores its result and shows page 1 with the preview's rows, columns and row count. If either request fails, the rows, columns, page and row count stay as they were. |
| Dashboard.ClientPageCountIsZero | frontend/src/pages/DashboardPage.jsx:51 | As written: the body the server sends has no `total_rows`, so the client's page count is 0 and Next is never disabled. |
| Dashboard.IntendedServerBody | backend/api/download.py:36-41 | Corrected: the body also carries the row count. |
| Dashboard.IntendedPageCountAgrees | frontend/src/pages/DashboardPage.jsx:377 | Corrected: the client's `ceil(totalRows / 20)` equals the server's `total_pages`. Next is disabled exactly on the last page and stays enabled on every page before it. |
| SessionManager.SessionStore.constructor | backend/core/session_manager.py:1 | The table starts empty. |
| SessionManager.SessionStore.CreateSession | backend/core/session_manager.py:4-8 | Stores a fresh record {original, no cleaned path} under the id and replaces any earlier one. Other ids keep their records. |
| SessionManager.SessionStore.GetSession | backend/core/session_manager.py:11-12 | Returns the stored record object itself, or None for an unknown id. |
| SessionManager.SessionStore.SetCleanedPath | backend/core/session_manager.py:15-17 | Only the cleaned path of a known id changes. An unknown id is a no-op that creates nothing. Every operation keeps records distinct. |
| ScoringEngine.CalculateScore | backend/engines/scoring_engine.py:7-19 | The score lies in [0, 99]. It equals 100 − 0.4·missing − 0.3·dup − 0.3·outlier when that lies in [0, 99], and is capped at 99 or floored at 0 otherwise. |
| ScoringEngine.CleanTableScores99 | backend/engines/scoring_engine.py:7-16 | No penalties score 99, not 100. |
| ScoringEngine.ScoreMonotone | backend/engines/scoring_engine.py:7-19 | The score never rises when a percentage rises. |
| ScoringEngine.PercentagesNeverFloor | backend/engines/scoring_engine.py:18-19 | For percentages in [0, 100] the floor never applies. |
| QualityScore.MetricValue | backend/services/scoring_engine.py:20-26 | An absent or None metric contributes 0. Any other value is clamped to [0, 100]. |
| QualityScore.WeightedAverage | backend/services/scoring_engine.py:16-34 | The loop's result is the weighted sum divided by the weight total, or 0 when the weights sum to 0. |
| QualityScore.WeightsSums | backend/services/scoring_engine.py:10-14 | The weights sum to 1, and the weighted sum is 0.4·c + 0.3·u + 0.3·v. |
| QualityScore.ComputeQualityScore | backend/services/scoring_engine.py:1-34 | None or empty metrics give 0, and the score always lies in [0, 100]. |
| QualityScore.OtherKeysIgnored | backend/services/scoring_engine.py:19-20 | Keys other than the three metrics do not affect the score. |
| QualityScore.ScoreOfTableMetrics | backend/services/quality_metrics.py:15-19 | The score of the metrics record is 0.4·completeness + 0.3·uniqueness + 30. A table with cells, no missing cell and no duplicate scores 100. |
| Scorer.DuplicateRatio | backend/services/scorer.py:21 | The ratio is 0 without rows, and duplicates / rows otherwise. |
| Scorer.OutlierRatio | backend/services/scorer.py:25 | The ratio is 0 without rows, and outliers / rows otherwise. |
| Scorer.CalculateQualityScore | backend/services/scorer.py:17-50 | The weighted score is clamped to [0, 100]. Each reason appears iff its count is positive, in the order missing, duplicates, outliers. "Clean" appears iff none applies, so reasons are never empty. |
| Scorer.NoRowsNoPenalty | backend/services/scorer.py:21-33 | Without rows only completeness lowers the score. |
| Scorer.ScoreInRange | backend/services/scorer.py:29-33 | For consistent inputs the unclamped score already lies in [0, 100], and a perfect profile scores 100. |
| Simulate.ReadinessOf | backend/api/simulate.py:108-115 | The four bands: below 60, [60, 75), [75, 90), and 90 or more. They are exhaustive and mutually exclusive. |
| Simulate.ReadinessMonotone | backend/api/simulate.py:108-115 | A higher score never gives a lower band. |
| Simulate.BandsDistinct | backend/api/simulate.py:108-115 | Different bands have different labels and colours. |
| Simulate.MissingPct | backend/api/simulate.py:30-35 | The percentage is 0 without cells, and missing / cells · 100 otherwise. |
| Simulate.DuplicatePct | backend/api/simulate.py:37-40 | The percentage is 0 without rows, and duplicates / rows · 100 otherwise. |
| Simulate.PercentagesComplement | backend/api/simulate.py:30-40 | The missing percentage plus completeness is 100, and the duplicate percentage plus uniqueness is 100. |
| Simulate.RemovalDetector | backend/api/simulate.py:76-78 | Outlier removal has a detector exactly when the method is present, non-empty and not "none", and then it is that method. |
| Simulate.CleaningStages | backend/api/simulate.py:56-81 | Drop columns runs exactly for a non-empty list. Missing handling and duplicate removal run exactly when requested. Outlier removal runs exactly with the payload's detector. |
| Simulate.CleaningStagesRunInOrder | backend/api/simulate.py:56-81 | Drop columns runs first, with the payload's list, and the stages always run in the order drop, fill, de-duplicate, outliers. |
| Simulate.AbsentMethodDetectsButKeeps | backend/api/simulate.py:42-45 | Without an outlier method, detection uses "iqr" but no outlier is removed. |
| Simulate.Simulation | backend/api/simulate.py:17-130 | The result is a 404 iff the upload is missing. rows_removed = before − after, improvement = after − before, readiness is the band of score_after, and both scores lie in [0, 99]. |
| Simulate.SimulationBounds | backend/api/simulate.py:122-130 | The improvement lies in [−99, 99], and no rows are removed negatively when cleaning shrinks the table. |
| Simulate.FullyCleanedIsMlReady | backend/api/simulate.py:83-115 | A cleaned table with no missing cells, no duplicates and no outliers scores 99 and is "ML Ready". |
| Simulate.DownloadServesSimulated | backend/api/simulate.py:118-120 | Once the simulated file is saved, download and preview serve it. |
| SummaryEngine.ReadinessLine | backend/engines/summary_engine.py:67-78 | The three readiness lines are above 85, (70, 85], and the rest. |
| SummaryEngine.ImpactLine | backend/engines/summary_engine.py:48-59 | The three impact lines are above 5, (0, 5], and the rest. |
| SummaryEngine.AnalysisSection | backend/engines/summary_engine.py:19-37 | With analysis present, each insight appears iff its key exceeds its threshold, and absent keys count as 0. Without analysis there is none. |
| SummaryEngine.SimulationSection | backend/engines/summary_engine.py:40-59 | Every line it adds is a simulation line. |
| SummaryEngine.Generate | backend/engines/summary_engine.py:4-80 | The appending method computes the summary. |
| SummaryEngine.SummaryLayout | backend/engines/summary_engine.py:6-80 | Position by position, the summary is the two profile lines, then the analysis section, the simulation section and the readiness line. |
| SummaryEngine.SummaryOrder | backend/engines/summary_engine.py:6-80 | The summary holds 3 to 8 lines. It starts with the size and initial-score lines and ends with the readiness of the final score. Groups never go backwards. |
| SummaryEngine.SummaryAnalysis | backend/engines/summary_engine.py:19-37 | The analysis insights of the whole summary are exactly those the thresholds select. |
| SummaryEngine.SummarySimulation | backend/engines/summary_engine.py:40-65 | Without a simulation there are no simulation lines. With one there is an improvement line and exactly one impact line, that of score_after − score_before. |
| SummaryEngine.ThresholdsDifferFromBands | backend/engines/summary_engine.py:67-70 | A score of 88 counts as ML-ready here but only as "Good" in the simulation bands. |
| ImportanceEngine.UniqueRatio | backend/engines/importance_engine.py:15-18 | The ratio is 0 without rows, and distinct / rows otherwise. |
| ImportanceEngine.ColumnScore | backend/engines/importance_engine.py:24-32 | The score is capped at 95 and is otherwise the weighted formula. |
| ImportanceEngine.Scores | backend/engines/importance_engine.py:11-34 | There is one entry per column, in column order. |
| ImportanceEngine.Calculate | backend/engines/importance_engine.py:37-43 | The output is the scores sorted by descending value. It is a permutation of the scores, and equal scores keep column order. |
| ImportanceEngine.ScoreInRange | backend/engines/importance_engine.py:24-32 | For ratios in range the score lies in [0, 95]. |
| ImportanceEngine.IdentifierLosesBonus | backend/engines/importance_engine.py:21-28 | Past the 0.95 uniqueness mark a column loses its 20-point bonus. |
| Ranking.SortDescSorts | backend/engines/importance_engine.py:37-43 | The sort gives the entries in non-increasing order, as a permutation of the input. |
| Ranking.SortDescStable | backend/engines/importance_engine.py:37-43 | Entries with any given score come out in the order they went in. |
| DropEngine.ImportanceOf | backend/engines/drop_engine.py:7 | An absent column or key gives 100. |
| DropEngine.RecommendDrop | backend/engines/drop_engine.py:1-14 | The loop computes the drop list. |
| DropEngine.DropListMembers | backend/engines/drop_engine.py:11 | A column is listed iff importance < 50 or missing ratio · 100 > 40. |
| DropEngine.DropListInColumnOrder | backend/engines/drop_engine.py:5-14 | The list is a subsequence of the column names. |
| DropEngine.DropListNoRepeats | backend/engines/drop_engine.py:5-14 | With distinct column names the list has no repeats. |
| DropEngine.AbsentImportance | backend/engines/drop_engine.py:7-11 | Without an importance entry only the missing rule can fire. |
| RecommendationEngine.MissingItem | backend/engines/recommendation_engine.py:17-33 | At most one item per column: High above 0.3, Moderate in (0.05, 0.3], and none otherwise. Its percentage is ratio · 100. |
| RecommendationEngine.Analysis | backend/engines/recommendation_engine.py:8-72 | The result is ZeroDivision iff the table has columns but no rows. Otherwise it is the missing, uniqueness, skew and duplicate sections. |
| RecommendationEngine.Analyze | backend/engines/recommendation_engine.py:8-72 | The four appending blocks compute the analysis. |
| RecommendationEngine.MissingMembers | backend/engines/recommendation_engine.py:17-33 | Missing items are exactly the columns over 0.05, each with the right level and percentage. |
| RecommendationEngine.UniquenessMembers | backend/engines/recommendation_engine.py:36-45 | High Uniqueness items are exactly the columns with distinct / rows > 0.95. |
| RecommendationEngine.SkewMembers | backend/engines/recommendation_engine.py:48-59 | Skew items are exactly the numeric columns with |skew| > 1, and carry the skew as their value. |
| RecommendationEngine.DuplicateMembers | backend/engines/recommendation_engine.py:61-70 | The dataset-level item appears iff there are rows and duplicates / rows > 0.05. |
| RecommendationEngine.InOwnBlock | backend/engines/recommendation_engine.py:17-70 | An item is in the output iff it is in the section of its kind. |
| RecommendationEngine.AnalysisOrder | backend/engines/recommendation_engine.py:17-72 | All missing items come first, then uniqueness, then skew, then duplicates. |
| RecommendationEngine.DuplicateComesLast | backend/engines/recommendation_engine.py:64-70 | A duplicate item can only be the last one. |
| RecommendationEngine.MissingAtMostOnePerColumn | backend/engines/recommendation_engine.py:17-33 | The missing section holds at most one item per column. |
| RecommendationService.Generation | backend/services/recommendation_service.py:8-54 | The result is ZeroDivision iff there are columns but no rows, and it is never empty otherwise. |
| RecommendationService.Generate | backend/services/recommendation_service.py:8-54 | The appending loops compute the generation. |
| RecommendationService.MissingMembers | backend/services/recommendation_service.py:15-21 | Missing messages are exactly the columns with missing percentage > 30, carrying that percentage. |
| RecommendationService.SkewMembers | backend/services/recommendation_service.py:24-31 | Skew messages are exactly the numeric columns with |skew| > 1. |
| RecommendationService.IdentifierMembers | backend/services/recommendation_service.py:34-39 | Identifier messages are exactly the columns with uniqueness > 0.95. |
| RecommendationService.CorrelationLast | backend/services/recommendation_service.py:42-49 | The feature-reduction message appears iff there are over one numeric column and the correlation flag holds, and only as the last message. |
| RecommendationService.HealthyIffNothingElse | backend/services/recommendation_service.py:15-54 | The healthy message appears iff it is the whole list. That happens iff no column has over 30% missing, no numeric column has abs(skew) > 1, no column has uniqueness > 0.95, and the correlation message does not fire. |
| RecommendationService.FindingBreaksRule | backend/services/recommendation_service.py:15-49 | Any finding means some rule fires. |
| RecommendationService.NoFindingNoRule | backend/services/recommendation_service.py:15-49 | No finding means no rule fires. |
| RecommendationService.InOwnBlock | backend/services/recommendation_service.py:15-49 | A message is in the output iff it is in the section of its kind. |
| RecommendationService.FindingsOrder | backend/services/recommendation_service.py:15-54 | The findings come in the order missing, skew, identifier, correlation. |
| AppRecommendations.GenerateRecommendations | backend/app/services/recommendations.py:1-17 | Each message appears iff its condition holds (missing cells, duplicate rows, over 20 columns). "Looks good" appears iff none holds, and then alone. There are 1 to 3 messages, in source order. |
| ProfileRecommendations.GenerateRecommendations | backend/services/recommendation_engine.py:1-13 | The missing and duplicate messages appear iff their counts are positive, and the clean message iff neither. There are 1 or 2 messages, each at most once, in source order (missing, duplicates, clean). |
| AppAnalysis.MeanMissingRatio | backend/app/services/analysis.py:8 | The mean is NaN (None) without rows or columns, and the mean of the column ratios otherwise. |
| AppAnalysis.AnalyzeData | backend/app/services/analysis.py:3-30 | Rows and columns pass through. The score is (1 − mean)·100, or NaN. "High missing" appears iff mean > 0.2, and first. "Duplicates" appears iff a duplicate exists. There is no fallback, so at most 2 reasons, each at most once, in source order. |
| AppAnalysis.SumRatiosBounds | backend/app/services/analysis.py:8 | The sum of the ratios lies in [0, number of columns]. |
| AppAnalysis.ScoreBounds | backend/app/services/analysis.py:9 | For ratios in [0, 1] the score lies in [0, 100]. |
| AppAnalysis.NoMissingScores100 | backend/app/services/analysis.py:8-9 | No missing cell gives mean 0 and score 100. |
| AppAnalysis.ScoreAntitone | backend/app/services/analysis.py:9 | More missing values never raise the score. |
| ServiceImportance.Trunc | backend/services/importance.py:6 | `int()` truncates toward zero. |
| ServiceImportance.ColumnImportance | backend/services/importance.py:1-9 | A table with columns but no rows gives the ValueError of `int()` on NaN, and only such a table does. Otherwise there is one score per column, in column order. |
| ServiceImportance.ScoreMeaning | backend/services/importance.py:5-7 | The score never drops below 0, and no missing values gives 100. For a ratio in [0, 1] the score lies in [0, 100], within 1 of 100 − ratio·100. |
| ServiceImportance.ScoreMonotone | backend/services/importance.py:5-7 | More missing values never raise the score. |
| ServiceImportance.TruncatesPercentage | backend/services/importance.py:6 | A ratio of 0.019 scores 99, because the percentage is truncated. |
| AppImportance.ColumnImportance | backend/app/services/importance.py:1-12 | The result is ZeroDivision iff there are columns but no rows. Otherwise there is one score per column, (1 − missing)·50 + unique·50. |
| AppImportance.ScoreInRange | backend/app/services/importance.py:9 | For ratios in [0, 1] the score lies in [0, 100], and no missing values with all values distinct gives 100. |
| QualityMetrics.CalculateCompleteness | backend/engines/completeness_engine.py:1-8 | The result is 0 (not 100) without cells, and otherwise the share of present cells · 100. |
| QualityMetrics.CalculateUniqueness | backend/engines/uniqueness_engine.py:1-8 | The result is 0 without rows, and otherwise the share of non-duplicate rows · 100. |
| QualityMetrics.PercentagesBounded | backend/engines/completeness_engine.py:8 | Both percentages lie in [0, 100]. Zero missing cells, or zero duplicates, gives 100. |
| QualityMetrics.PercentagesMonotone | backend/engines/uniqueness_engine.py:8 | More missing cells or more duplicates never raise the percentage. |
| QualityMetrics.ComputeQualityMetrics | backend/services/quality_metrics.py:13-19 | Validity is always 100, and the record has exactly the three keys. |
| QualityMetrics.MetricsAgreeWithEngines | backend/services/quality_metrics.py:8-11 | The metrics record's completeness and uniqueness are the two engines' results. |
| ColumnProfiles.FindSample | frontend/src/components/ColumnProfiles.jsx:9 | The result is None iff no row holds a value other than null or "". Otherwise it is the first row that does. |
| ColumnProfiles.GetColumnType | frontend/src/components/ColumnProfiles.jsx:8-13 | The type is "Unknown" iff no row has a sample. Undefined and NaN count as samples. |
| ColumnProfiles.TypeFromFirstSample | frontend/src/components/ColumnProfiles.jsx:9-12 | The type is Numeric iff the first sample is a number, and Categorical otherwise. |
| ColumnProfiles.MissingCount | frontend/src/components/ColumnProfiles.jsx:18-27 | The count never exceeds the number of rows. |
| ColumnProfiles.CalculateMissing | frontend/src/components/ColumnProfiles.jsx:15-29 | The percentage is count / total · 100 and lies in [0, 100]. |
| ColumnProfiles.MissingExtremes | frontend/src/components/ColumnProfiles.jsx:18-29 | No missing cell gives 0%, and all missing gives 100%. |
| ColumnProfiles.AbsentColumn | frontend/src/components/ColumnProfiles.jsx:9-29 | A key no row has is 100% missing, and it is Categorical because undefined is a sample. |
| ColumnProfiles.Profiles | frontend/src/components/ColumnProfiles.jsx:4-6 | Absent or empty data renders nothing. Otherwise there is one profile per key of the first row, in key order. |
| FeatureRanking.Numbered | frontend/src/components/FeatureRankingTable.jsx:19-21 | Ranks are 1..n by position. |
| FeatureRanking.RankingTable | frontend/src/components/FeatureRankingTable.jsx:2-4 | Absent or empty data renders nothing. Any other data renders the numbered descending sort. |
| FeatureRanking.RankingTableMeaning | frontend/src/components/FeatureRankingTable.jsx:4-21 | The table has one row per entry, ranks 1..n and non-increasing values. Its entries are a permutation of the input, and ties keep insertion order. |
| InsightPanel.StrongestFeature | frontend/src/components/InsightPanel.jsx:4-7 | The result is defined iff the importance map is present with at least 2 entries. |
| InsightPanel.StrongestIsSecondRanked | frontend/src/components/InsightPanel.jsx:4-7 | The pick is the second entry of the descending sort, an input entry. Exactly one entry ranks above it, and the rest rank below. |
| InsightPanel.TwoFeaturesNamesWeaker | frontend/src/components/InsightPanel.jsx:4-7 | As written, {area: 0.9, age: 0.2} names "age". |
| InsightPanel.MlReadyMeaning | frontend/src/components/InsightPanel.jsx:9-12 | With numbers, ready iff missing < 5, duplicates < 5 and at least 3 correlation keys. Absent fields or no correlation mean not ready, and null fields compare as 0. |
| InsightPanel.Render | frontend/src/components/InsightPanel.jsx:2-38 | A null analysis renders nothing. Otherwise the panel shows the analysis's rows, missing percentage and duplicate count as given, the strongest feature and the readiness. |

## Left out

- Pandas and numpy aggregates are inputs to the model: `isnull().mean()`, `nunique()`, `skew()`, `duplicated()`, `select_dtypes` and `corr()`. So are the effect of each cleaning stage and the outlier detector's percentages.
- `round(x, 2)`, `toFixed(2)` and `:.1f` are float formatting. The model computes exact reals. The one place where rounding changes a result is the importance engine's sort key, below.
- Floating point: NaN appears only where pandas produces it, as a "no value" case or as the error a conversion of it raises. Infinities in `simulate.py` are not modelled.
- File I/O, `read_csv`, `to_csv`, `FileResponse`, the HTTP routing, Blob and anchor downloads, and the rendering are not modelled. The files present are a set of paths given as a parameter, and server responses are method parameters.
- `RecommendationService.CorrelationItem`: which pairs have 0.85 < |corr| < 1 is an input flag, because computing a correlation matrix is floating-point work.
- `AppAnalysis.AnalyzeData`: the `column_types` entry (analysis.py:19-22) is not modelled, because it is pandas dtype selection.
- `ColumnProfiles.Profiles`, `FeatureRanking.RankingTable`, `InsightPanel.Render`, `CsvExport.CsvContent`, `CsvExport.ExportRoundTrip`: the order of object keys is insertion order. The JavaScript rule that puts integer-like keys first is not modelled.
- `Dashboard.DashboardState.RunCleaning`: a rejected request leaves the promise rejected with the flag cleared. The model returns `failed` and does not model the propagated exception beyond that.
- `Simulate.Simulation`: its upload directory ("backend/storage/uploads") differs from the one download.py falls back to ("backend/uploads"). The model keeps both constants as written.
- `DropEngine.RecommendDrop`: nothing in the code base calls it. It is modelled on its own.
- `QualityScore.ComputeQualityScore`: `float(value)` on a non-numeric metric (a string, say) is not modelled. Metrics are optional reals.
- `Simulate.CleaningStages`: a payload field of an unexpected JSON type is not modelled. Each field is an optional value of its expected type. An explicit JSON `null` for `outlier_method` is merged with an absent one, so the model detects with "iqr" where `payload.get("outlier_method", "iqr")` would return `None`.
- `ServiceImportance.ColumnScore`: `int(missing_ratio * 100)` is taken of the exact product. In float64 the product can fall just below an integer: 29 missing of 100 gives `int(28.999999999999996)` = 28 and a score of 72, where the model scores 71 (57 of 100: 44 against 43).
- `ImportanceEngine.Calculate`: `round(score, 2)` is the sort key, so scores within 0.005 of each other tie and keep column order in the source. The model sorts by the exact score. A table with no rows makes `isnull().mean()` NaN and every score NaN. The model has no NaN score and uses the zero-row unique ratio of 0.
- Dictionaries keyed by column name assume distinct column names, as a DataFrame's columns normally are.
- `ColumnProfiles.CalculateMissing` requires at least one row. The component returns before calling it on empty data.
- Correlation matrices, outlier detection, profiling, type classification, the cleaning wrappers and the remaining UI components are not part of this model.

## Findings

| source | as written | input that shows it | evidently intended | confidence | as-written member | corrected member |
|---|---|---|---|---|---|---|
| backend/api/download.py:31-34 | `start = (page - 1) * page_size` is used as a Python slice bound with no check on `page` | 45 rows, page -1, page size 20: the slice is `iloc[-40:-20]`, i.e. rows 5 to 24 | pages below 1 are rejected, so every page is the window starting at (page-1)·size | not executed | Pagination.NegativePageWrapsAround | Pagination.CheckedPreview, Pagination.CheckedPreviewIsWindow |
| frontend/src/pages/DashboardPage.jsx:51 | the client reads `res.data.total_rows`, a field backend/api/download.py:36-41 never sends | any preview response: `totalRows` is 0, the page count `ceil(0/20)` is 0, and Next stays enabled on every page | the server also sends the row count (or the client reads `total_pages`), so Next is disabled on the last page | not executed | Dashboard.ClientPageCountIsZero | Dashboard.IntendedServerBody, Dashboard.IntendedPageCountAgrees |
