/** Completeness and uniqueness percentages
    (backend/engines/completeness_engine.py,
     backend/engines/uniqueness_engine.py) and the three-metric record of
    backend/services/quality_metrics.py. */
module QualityMetrics {
  import opened Stats

  /** `calculate_completeness(df)`: the share of cells that are present, as
      a percentage; 0 (not 100) for a table without cells. */
  function CalculateCompleteness(t: TableStats): (pct: real)
    ensures Cells(t) == 0 ==> pct == 0.0
    ensures Cells(t) > 0 ==> pct * Cells(t) as real == (Cells(t) - t.missingCells) as real * 100.0
  {
    var cells := Cells(t);
    if cells == 0 then 0.0
    else (1.0 - t.missingCells as real / cells as real) * 100.0
  }

  /** `calculate_uniqueness(df)`: the share of rows that are not
      duplicates, as a percentage; 0 for a table without rows. */
  function CalculateUniqueness(t: TableStats): (pct: real)
    ensures t.rows == 0 ==> pct == 0.0
    ensures t.rows > 0 ==> pct * t.rows as real == (t.rows - t.duplicateRows) as real * 100.0
  {
    if t.rows == 0 then 0.0
    else (1.0 - t.duplicateRows as real / t.rows as real) * 100.0
  }

  /** The three metrics `compute_quality_metrics` returns, exactly these
      keys. */
  datatype Metrics = Metrics(completeness: real, uniqueness: real, validity: real)

  /** The validity placeholder. */
  const Validity: real := 100.0

  /** `compute_quality_metrics(df)`. */
  function ComputeQualityMetrics(t: TableStats): (m: Metrics)
    ensures m.validity == 100.0
  {
    var cells := Cells(t);
    Metrics(
      if cells != 0 then (cells - t.missingCells) as real / cells as real * 100.0 else 0.0,
      if t.rows != 0 then (t.rows - t.duplicateRows) as real / t.rows as real * 100.0 else 0.0,
      Validity)
  }

  /** For a consistent table both percentages lie in [0, 100]; a table with
      cells and no missing cell is 100% complete, and one with rows and no
      duplicate is 100% unique. */
  lemma PercentagesBounded(t: TableStats)
    requires Consistent(t)
    ensures 0.0 <= CalculateCompleteness(t) <= 100.0
    ensures 0.0 <= CalculateUniqueness(t) <= 100.0
    ensures Cells(t) > 0 && t.missingCells == 0 ==> CalculateCompleteness(t) == 100.0
    ensures t.rows > 0 && t.duplicateRows == 0 ==> CalculateUniqueness(t) == 100.0
  {
    var cells := Cells(t);
    if cells > 0 {
      RatioBounds(t.missingCells, cells);
    }
    if t.rows > 0 {
      RatioBounds(t.duplicateRows, t.rows);
    }
  }

  /** More missing cells never raise completeness, and more duplicates
      never raise uniqueness, for the same table shape. */
  lemma PercentagesMonotone(t: TableStats, u: TableStats)
    requires t.rows == u.rows && t.columns == u.columns
    ensures t.missingCells <= u.missingCells ==> CalculateCompleteness(u) <= CalculateCompleteness(t)
    ensures t.duplicateRows <= u.duplicateRows ==> CalculateUniqueness(u) <= CalculateUniqueness(t)
  {
    var cells := Cells(t);
    if cells > 0 && t.missingCells <= u.missingCells {
      DivMonotone(t.missingCells, u.missingCells, cells);
    }
    if t.rows > 0 && t.duplicateRows <= u.duplicateRows {
      DivMonotone(t.duplicateRows, u.duplicateRows, t.rows);
    }
  }

  lemma DivMonotone(a: nat, b: nat, d: nat)
    requires a <= b && d > 0
    ensures a as real / d as real <= b as real / d as real
  {
  }

  /** The two ways the code base computes these percentages agree: the
      metrics record holds exactly the completeness and uniqueness engines'
      results. */
  lemma MetricsAgreeWithEngines(t: TableStats)
    ensures ComputeQualityMetrics(t).completeness == CalculateCompleteness(t)
    ensures ComputeQualityMetrics(t).uniqueness == CalculateUniqueness(t)
  {
    var cells := Cells(t);
    if cells != 0 {
      SameShare(t.missingCells, cells);
    }
    if t.rows != 0 {
      SameShare(t.duplicateRows, t.rows);
    }
  }

  lemma SameShare(part: nat, whole: nat)
    requires whole > 0
    ensures (whole - part) as real / whole as real * 100.0 == (1.0 - part as real / whole as real) * 100.0
  {
    var w, p := whole as real, part as real;
    assert (whole - part) as real == w - p;
    DivSub(w, p, w);
    assert w / w == 1.0;
  }

  lemma DivSub(a: real, b: real, w: real)
    requires w != 0.0
    ensures (a - b) / w == a / w - b / w
  {
  }
}
