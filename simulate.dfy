/** The cleaning simulation (backend/api/simulate.py): the before and
    after percentages, the scores, the readiness band of the result, and
    which cleaning stages a payload switches on. The cleaning itself and the
    outlier detector are pandas code; their outcomes are inputs here. */
module Simulate {
  import opened Wrappers
  import opened Stats
  import QualityMetrics
  import ScoringEngine
  import Pagination

  const SimUploadDir := "backend/storage/uploads"

  /** The ML readiness band of a score. */
  datatype Readiness = NotReady | NeedsWork | Good | MlReady

  /** The band's position, from worst to best. */
  function Level(r: Readiness): nat
  {
    match r
    case NotReady => 0
    case NeedsWork => 1
    case Good => 2
    case MlReady => 3
  }

  function Label(r: Readiness): string
  {
    match r
    case NotReady => "Not Ready"
    case NeedsWork => "Needs Work"
    case Good => "Good"
    case MlReady => "ML Ready"
  }

  function Color(r: Readiness): string
  {
    match r
    case NotReady => "red"
    case NeedsWork => "orange"
    case Good => "blue"
    case MlReady => "green"
  }

  /** The if/elif chain on `score_after`. */
  function ReadinessOf(score: real): (r: Readiness)
    ensures r == NotReady <==> score < 60.0
    ensures r == NeedsWork <==> 60.0 <= score < 75.0
    ensures r == Good <==> 75.0 <= score < 90.0
    ensures r == MlReady <==> 90.0 <= score
  {
    if score < 60.0 then NotReady
    else if score < 75.0 then NeedsWork
    else if score < 90.0 then Good
    else MlReady
  }

  /** A higher score never gets a lower band. */
  lemma ReadinessMonotone(s1: real, s2: real)
    requires s1 <= s2
    ensures Level(ReadinessOf(s1)) <= Level(ReadinessOf(s2))
  {
  }

  /** Each band has its own label and its own colour. */
  lemma BandsDistinct(r1: Readiness, r2: Readiness)
    requires r1 != r2
    ensures Label(r1) != Label(r2) && Color(r1) != Color(r2)
  {
  }

  /** The missing-cell percentage, 0 for a table without cells. */
  function MissingPct(t: TableStats): (pct: real)
    ensures Cells(t) == 0 ==> pct == 0.0
    ensures Cells(t) > 0 ==> pct * Cells(t) as real == t.missingCells as real * 100.0
  {
    var totalCells := Cells(t);
    if totalCells > 0 then t.missingCells as real / totalCells as real * 100.0 else 0.0
  }

  /** The duplicate-row percentage, 0 for a table without rows. */
  function DuplicatePct(t: TableStats): (pct: real)
    ensures t.rows == 0 ==> pct == 0.0
    ensures t.rows > 0 ==> pct * t.rows as real == t.duplicateRows as real * 100.0
  {
    if t.rows > 0 then t.duplicateRows as real / t.rows as real * 100.0 else 0.0
  }

  /** Across files: for a table with cells the missing percentage and the
      completeness engine's percentage add up to 100, and likewise the
      duplicate percentage and the uniqueness engine's for a table with
      rows. */
  lemma PercentagesComplement(t: TableStats)
    ensures Cells(t) > 0 ==> MissingPct(t) + QualityMetrics.CalculateCompleteness(t) == 100.0
    ensures t.rows > 0 ==> DuplicatePct(t) + QualityMetrics.CalculateUniqueness(t) == 100.0
  {
    if Cells(t) > 0 {
      Complement(t.missingCells, Cells(t));
    }
    if t.rows > 0 {
      Complement(t.duplicateRows, t.rows);
    }
  }

  lemma Complement(part: nat, whole: nat)
    requires whole > 0
    ensures part as real / whole as real * 100.0 + (1.0 - part as real / whole as real) * 100.0 == 100.0
  {
  }

  /** The request body fields the simulation reads; a field the client left
      out is None. */
  datatype Payload = Payload(
    outlierMethod: Option<string>,
    dropColumns: Option<seq<string>>,
    handleMissing: Option<bool>,
    removeDuplicates: Option<bool>)

  /** A cleaning stage the simulation applies to its copy of the table. */
  datatype Stage = DropColumns(columns: seq<string>) | FillMissing | DropDuplicates | RemoveOutliers(detector: string)

  /** The detector named by `payload.get("outlier_method", "iqr")`. */
  function DetectionMethod(p: Payload): string
  {
    p.outlierMethod.GetOr("iqr")
  }

  /** Python truthiness of the payload fields. */
  predicate Truthy<T(==)>(x: Option<T>, falsy: T)
  {
    x.Some? && x.value != falsy
  }

  /** The detector outlier removal runs with, if it runs: a method that is
      present, non-empty and not "none". */
  function RemovalDetector(p: Payload): (d: Option<string>)
    ensures d.Some? <==> Truthy(p.outlierMethod, "") && p.outlierMethod.value != "none"
    ensures d.Some? ==> d.value == p.outlierMethod.value
  {
    if Truthy(p.outlierMethod, "") && p.outlierMethod.value != "none" then Some(p.outlierMethod.value) else None
  }

  /** The stages a payload switches on, in the order they run. */
  function CleaningStages(p: Payload): (stages: seq<Stage>)
    ensures (exists cs :: DropColumns(cs) in stages) <==> Truthy(p.dropColumns, [])
    ensures FillMissing in stages <==> Truthy(p.handleMissing, false)
    ensures DropDuplicates in stages <==> Truthy(p.removeDuplicates, false)
    ensures forall m :: RemoveOutliers(m) in stages <==> RemovalDetector(p) == Some(m)
  {
    (if Truthy(p.dropColumns, []) then [DropColumns(p.dropColumns.value)] else [])
    + (if Truthy(p.handleMissing, false) then [FillMissing] else [])
    + (if Truthy(p.removeDuplicates, false) then [DropDuplicates] else [])
    + (match RemovalDetector(p) case Some(m) => [RemoveOutliers(m)] case None => [])
  }

  /** The stages run in a fixed order, column dropping first with the
      payload's own list. */
  lemma CleaningStagesRunInOrder(p: Payload)
    ensures var stages := CleaningStages(p);
            (Truthy(p.dropColumns, []) ==> |stages| > 0 && stages[0] == DropColumns(p.dropColumns.value))
            && forall i, j :: 0 <= i < j < |stages| ==> StageOrder(stages[i]) < StageOrder(stages[j])
  {
  }

  /** The position of each kind of stage in the run. */
  function StageOrder(s: Stage): nat
  {
    match s
    case DropColumns(_) => 0
    case FillMissing => 1
    case DropDuplicates => 2
    case RemoveOutliers(_) => 3
  }

  /** When the client leaves out the outlier method, both measurements use
      the IQR detector but no outlier is removed. */
  lemma AbsentMethodDetectsButKeeps(p: Payload)
    requires p.outlierMethod.None?
    ensures DetectionMethod(p) == "iqr"
    ensures forall m :: RemoveOutliers(m) !in CleaningStages(p)
  {
  }

  /** The response body. */
  datatype SimulationResult = SimulationResult(
    scoreBefore: real,
    scoreAfter: real,
    improvement: real,
    rowsBefore: nat,
    rowsAfter: nat,
    rowsRemoved: int,
    readiness: Readiness)

  /** The file the simulation writes its cleaned table to. */
  function SavedPath(datasetId: string): string
  {
    Pagination.CsvPath(Pagination.CleanedDir, datasetId)
  }

  /** `simulate(dataset_id, payload)`. The uploads present, the table
      statistics before and after the cleaning stages, and the outlier
      percentages the detector reports before and after are parameters. */
  function Simulation(uploads: set<string>, datasetId: string,
                      before: TableStats, after: TableStats,
                      outliersBefore: real, outliersAfter: real): (r: Result<SimulationResult, Pagination.PreviewError>)
    ensures r.Err? <==> Pagination.CsvPath(SimUploadDir, datasetId) !in uploads
    ensures r.Ok? ==> r.value.improvement == r.value.scoreAfter - r.value.scoreBefore
    ensures r.Ok? ==> r.value.rowsRemoved == r.value.rowsBefore - r.value.rowsAfter
    ensures r.Ok? ==> r.value.readiness == ReadinessOf(r.value.scoreAfter)
    ensures r.Ok? ==> 0.0 <= r.value.scoreBefore <= 99.0 && 0.0 <= r.value.scoreAfter <= 99.0
  {
    if Pagination.CsvPath(SimUploadDir, datasetId) !in uploads then Err(Pagination.NotFound)
    else
      var scoreBefore := ScoringEngine.CalculateScore(MissingPct(before), DuplicatePct(before), outliersBefore);
      var scoreAfter := ScoringEngine.CalculateScore(MissingPct(after), DuplicatePct(after), outliersAfter);
      Ok(SimulationResult(scoreBefore, scoreAfter, scoreAfter - scoreBefore,
                          before.rows, after.rows, before.rows - after.rows, ReadinessOf(scoreAfter)))
  }

  /** The improvement lies in [-99, 99], and cleaning that only removes rows
      reports a non-negative row count removed. */
  lemma SimulationBounds(uploads: set<string>, datasetId: string, before: TableStats, after: TableStats,
                         outliersBefore: real, outliersAfter: real)
    requires Simulation(uploads, datasetId, before, after, outliersBefore, outliersAfter).Ok?
    ensures var s := Simulation(uploads, datasetId, before, after, outliersBefore, outliersAfter).value;
            -99.0 <= s.improvement <= 99.0 && (after.rows <= before.rows ==> s.rowsRemoved >= 0)
  {
  }

  /** A cleaned table with cells, no missing cell, no duplicate and no
      outlier scores 99 and is labelled ML Ready. */
  lemma FullyCleanedIsMlReady(uploads: set<string>, datasetId: string, before: TableStats, after: TableStats,
                              outliersBefore: real)
    requires Pagination.CsvPath(SimUploadDir, datasetId) in uploads
    requires Cells(after) > 0 && after.missingCells == 0 && after.duplicateRows == 0
    ensures var s := Simulation(uploads, datasetId, before, after, outliersBefore, 0.0).value;
            s.scoreAfter == 99.0 && s.readiness == MlReady
  {
    assert MissingPct(after) == 0.0;
    assert DuplicatePct(after) == 0.0;
  }

  /** Once the simulation has saved its cleaned copy, the preview and the
      download serve that copy. */
  lemma DownloadServesSimulated(existing: set<string>, datasetId: string)
    ensures Pagination.DatasetPath(existing + {SavedPath(datasetId)}, datasetId) == Some(SavedPath(datasetId))
  {
  }
}
