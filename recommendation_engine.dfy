/** `RecommendationEngine.analyze(df)` (backend/engines/recommendation_engine.py):
    per-column recommendations from the missing ratio, the share of
    distinct values and the skew, then one dataset-level duplicate
    recommendation. */
module RecommendationEngine {
  import opened Wrappers
  import opened Stats
  import opened Seqs

  /** The `"issue"` of a recommendation. */
  datatype Issue = HighMissing | ModerateMissing | HighUniqueness | HighlySkewed | HighDuplicates

  function IssueText(i: Issue): string
  {
    match i
    case HighMissing => "High Missing Values"
    case ModerateMissing => "Moderate Missing Values"
    case HighUniqueness => "High Uniqueness"
    case HighlySkewed => "Highly Skewed"
    case HighDuplicates => "High Duplicate Rows"
  }

  function Suggestion(i: Issue): string
  {
    match i
    case HighMissing => "Consider dropping this column"
    case ModerateMissing => "Use mean/median imputation"
    case HighUniqueness => "Likely identifier column"
    case HighlySkewed => "Consider log transformation"
    case HighDuplicates => "Remove duplicate rows"
  }

  /** The dictionary key under which `figure` is reported: the skew is a
      `"value"`, every other figure a `"percentage"`. */
  function FigureKey(i: Issue): string
  {
    if i == HighlySkewed then "value" else "percentage"
  }

  /** One recommendation dictionary; its suggestion is `Suggestion(issue)`. */
  datatype Recommendation = Recommendation(column: string, issue: Issue, figure: real)

  const DatasetLevel := "Dataset Level"

  /** `nunique() / total_rows` with no rows: Python's ZeroDivisionError. */
  datatype AnalyzeError = ZeroDivision

  /** The missing-value block for one column: at most one recommendation,
      High above 30%, Moderate above 5%. */
  function MissingItem(c: ColumnStats): (r: seq<Recommendation>)
    ensures |r| <= 1
    ensures r == [] <==> c.missingRatio <= 0.05
    ensures r != [] ==> r[0].column == c.name && r[0].figure == c.missingRatio * 100.0
    ensures r != [] ==> (r[0].issue == HighMissing <==> c.missingRatio > 0.3)
    ensures r != [] ==> (r[0].issue == ModerateMissing <==> c.missingRatio <= 0.3)
  {
    if c.missingRatio > 0.3 then [Recommendation(c.name, HighMissing, c.missingRatio * 100.0)]
    else if c.missingRatio > 0.05 then [Recommendation(c.name, ModerateMissing, c.missingRatio * 100.0)]
    else []
  }

  /** `df[col].nunique() / total_rows`. */
  function UniqueRatio(c: ColumnStats, rows: nat): real
    requires rows > 0
  {
    c.distinct as real / rows as real
  }

  /** The uniqueness block for one column. The `rows > 0` guard only matters
      for a table without columns, where the block never runs. */
  function UniquenessItem(rows: nat): ColumnStats -> seq<Recommendation>
  {
    (c: ColumnStats) =>
      if rows > 0 && UniqueRatio(c, rows) > 0.95
      then [Recommendation(c.name, HighUniqueness, UniqueRatio(c, rows) * 100.0)]
      else []
  }

  /** The skew block for one numeric column. */
  function SkewItem(c: ColumnStats): seq<Recommendation>
  {
    if Abs(c.skew) > 1.0 then [Recommendation(c.name, HighlySkewed, c.skew)] else []
  }

  /** `df.duplicated().mean()`, which pandas makes NaN for a table without
      rows; NaN fails the comparison, so no recommendation then. */
  function DuplicateItem(rows: nat, duplicateRows: nat): seq<Recommendation>
  {
    if rows > 0 && duplicateRows as real / rows as real > 0.05
    then [Recommendation(DatasetLevel, HighDuplicates, duplicateRows as real / rows as real * 100.0)]
    else []
  }

  /** What `analyze` returns for a table with `rows` rows, `duplicateRows`
      duplicated rows and the given columns. */
  function Analysis(rows: nat, duplicateRows: nat, cols: seq<ColumnStats>): (r: Result<seq<Recommendation>, AnalyzeError>)
    ensures r.Err? <==> rows == 0 && |cols| > 0
  {
    if rows == 0 && |cols| > 0 then Err(ZeroDivision)
    else Ok(FlatMap(cols, MissingItem) + FlatMap(cols, UniquenessItem(rows))
            + FlatMap(Filter(cols, IsNumeric), SkewItem) + DuplicateItem(rows, duplicateRows))
  }

  /** `RecommendationEngine.analyze(df)`: the four blocks in turn. */
  method Analyze(rows: nat, duplicateRows: nat, cols: seq<ColumnStats>) returns (r: Result<seq<Recommendation>, AnalyzeError>)
    ensures r == Analysis(rows, duplicateRows, cols)
  {
    var recommendations := MissingBlock(cols, []);
    assert recommendations == FlatMap(cols, MissingItem);
    r := UniquenessBlock(rows, cols, recommendations);
    if r.Err? {
      return;
    }
    recommendations := SkewBlock(cols, r.value);
    ghost var noDuplicate := recommendations;
    assert noDuplicate == FlatMap(cols, MissingItem) + FlatMap(cols, UniquenessItem(rows)) + FlatMap(Filter(cols, IsNumeric), SkewItem);
    if rows > 0 {
      var duplicateRatio := duplicateRows as real / rows as real;
      if duplicateRatio > 0.05 {
        recommendations := recommendations + [Recommendation(DatasetLevel, HighDuplicates, duplicateRatio * 100.0)];
      }
    }
    assert recommendations == noDuplicate + DuplicateItem(rows, duplicateRows);
    r := Ok(recommendations);
  }

  /** The missing-value loop. */
  method MissingBlock(cols: seq<ColumnStats>, recommendations: seq<Recommendation>) returns (out: seq<Recommendation>)
    ensures out == recommendations + FlatMap(cols, MissingItem)
  {
    out := recommendations;
    for i := 0 to |cols|
      invariant out == recommendations + FlatMap(cols[..i], MissingItem)
    {
      var col := cols[i];
      if col.missingRatio > 0.3 {
        out := out + [Recommendation(col.name, HighMissing, col.missingRatio * 100.0)];
      } else if col.missingRatio > 0.05 {
        out := out + [Recommendation(col.name, ModerateMissing, col.missingRatio * 100.0)];
      }
      FlatMapSnoc(cols, i, MissingItem);
    }
    assert cols[..|cols|] == cols;
  }

  /** The uniqueness loop, which raises on its first column when the table
      has no rows. */
  method UniquenessBlock(rows: nat, cols: seq<ColumnStats>, recommendations: seq<Recommendation>)
    returns (r: Result<seq<Recommendation>, AnalyzeError>)
    ensures r.Err? <==> rows == 0 && |cols| > 0
    ensures r.Err? ==> r == Err(ZeroDivision)
    ensures r.Ok? ==> r.value == recommendations + FlatMap(cols, UniquenessItem(rows))
  {
    var out := recommendations;
    for i := 0 to |cols|
      invariant out == recommendations + FlatMap(cols[..i], UniquenessItem(rows))
      invariant i > 0 ==> rows > 0
    {
      var col := cols[i];
      if rows == 0 {
        return Err(ZeroDivision);
      }
      var uniqueRatio := col.distinct as real / rows as real;
      if uniqueRatio > 0.95 {
        out := out + [Recommendation(col.name, HighUniqueness, uniqueRatio * 100.0)];
      }
      FlatMapSnoc(cols, i, UniquenessItem(rows));
    }
    assert cols[..|cols|] == cols;
    r := Ok(out);
  }

  /** The skew loop over the numeric columns. */
  method SkewBlock(cols: seq<ColumnStats>, recommendations: seq<Recommendation>) returns (out: seq<Recommendation>)
    ensures out == recommendations + FlatMap(Filter(cols, IsNumeric), SkewItem)
  {
    out := recommendations;
    var numericCols := Filter(cols, IsNumeric);
    for i := 0 to |numericCols|
      invariant out == recommendations + FlatMap(numericCols[..i], SkewItem)
    {
      var col := numericCols[i];
      if Abs(col.skew) > 1.0 {
        out := out + [Recommendation(col.name, HighlySkewed, col.skew)];
      }
      FlatMapSnoc(numericCols, i, SkewItem);
    }
    assert numericCols[..|numericCols|] == numericCols;
  }

  /** The block a recommendation comes from. */
  function Block(x: Recommendation): int
  {
    match x.issue
    case HighMissing => 0
    case ModerateMissing => 0
    case HighUniqueness => 1
    case HighlySkewed => 2
    case HighDuplicates => 3
  }

  /** A recommendation is in the output iff it is in the run of its own
      block. */
  lemma InOwnBlock(rows: nat, duplicateRows: nat, cols: seq<ColumnStats>, x: Recommendation)
    requires Analysis(rows, duplicateRows, cols).Ok?
    ensures x in Analysis(rows, duplicateRows, cols).value <==>
            (Block(x) == 0 && x in FlatMap(cols, MissingItem))
            || (Block(x) == 1 && x in FlatMap(cols, UniquenessItem(rows)))
            || (Block(x) == 2 && x in FlatMap(Filter(cols, IsNumeric), SkewItem))
            || (Block(x) == 3 && x in DuplicateItem(rows, duplicateRows))
  {
    BlocksOfRuns(rows, cols);
  }

  /** The missing-value items: one per column above 5% missing, High above
      30% and Moderate otherwise, with the ratio times 100. */
  lemma MissingMembers(rows: nat, duplicateRows: nat, cols: seq<ColumnStats>, x: Recommendation)
    requires Analysis(rows, duplicateRows, cols).Ok?
    ensures x in Analysis(rows, duplicateRows, cols).value && x.issue == HighMissing <==>
              exists i :: 0 <= i < |cols| && cols[i].missingRatio > 0.3 &&
                x == Recommendation(cols[i].name, HighMissing, cols[i].missingRatio * 100.0)
    ensures x in Analysis(rows, duplicateRows, cols).value && x.issue == ModerateMissing <==>
              exists i :: 0 <= i < |cols| && 0.05 < cols[i].missingRatio <= 0.3 &&
                x == Recommendation(cols[i].name, ModerateMissing, cols[i].missingRatio * 100.0)
  {
    HighMissingMembers(rows, duplicateRows, cols, x);
    ModerateMissingMembers(rows, duplicateRows, cols, x);
  }

  lemma HighMissingMembers(rows: nat, duplicateRows: nat, cols: seq<ColumnStats>, x: Recommendation)
    requires Analysis(rows, duplicateRows, cols).Ok?
    ensures x in Analysis(rows, duplicateRows, cols).value && x.issue == HighMissing <==>
              exists i :: 0 <= i < |cols| && cols[i].missingRatio > 0.3 &&
                x == Recommendation(cols[i].name, HighMissing, cols[i].missingRatio * 100.0)
  {
    InOwnBlock(rows, duplicateRows, cols, x);
    FlatMapMember(cols, MissingItem, x);
  }

  lemma ModerateMissingMembers(rows: nat, duplicateRows: nat, cols: seq<ColumnStats>, x: Recommendation)
    requires Analysis(rows, duplicateRows, cols).Ok?
    ensures x in Analysis(rows, duplicateRows, cols).value && x.issue == ModerateMissing <==>
              exists i :: 0 <= i < |cols| && 0.05 < cols[i].missingRatio <= 0.3 &&
                x == Recommendation(cols[i].name, ModerateMissing, cols[i].missingRatio * 100.0)
  {
    InOwnBlock(rows, duplicateRows, cols, x);
    FlatMapMember(cols, MissingItem, x);
  }

  /** The uniqueness items: one per column whose distinct share exceeds
      0.95, with that share times 100. */
  lemma UniquenessMembers(rows: nat, duplicateRows: nat, cols: seq<ColumnStats>, x: Recommendation)
    requires Analysis(rows, duplicateRows, cols).Ok?
    ensures x in Analysis(rows, duplicateRows, cols).value && x.issue == HighUniqueness <==>
              rows > 0 &&
              exists i :: 0 <= i < |cols| && UniqueRatio(cols[i], rows) > 0.95 &&
                x == Recommendation(cols[i].name, HighUniqueness, UniqueRatio(cols[i], rows) * 100.0)
  {
    InOwnBlock(rows, duplicateRows, cols, x);
    FlatMapMember(cols, UniquenessItem(rows), x);
  }

  /** The skew items: one per numeric column whose skew exceeds 1 in
      absolute value, carrying the skew. */
  lemma SkewMembers(rows: nat, duplicateRows: nat, cols: seq<ColumnStats>, x: Recommendation)
    requires Analysis(rows, duplicateRows, cols).Ok?
    ensures x in Analysis(rows, duplicateRows, cols).value && x.issue == HighlySkewed <==>
              exists i :: 0 <= i < |cols| && cols[i].numeric && Abs(cols[i].skew) > 1.0 &&
                x == Recommendation(cols[i].name, HighlySkewed, cols[i].skew)
  {
    InOwnBlock(rows, duplicateRows, cols, x);
    FlatMapFilterMember(cols, IsNumeric, SkewItem, x);
    if exists i :: 0 <= i < |cols| && IsNumeric(cols[i]) && x in SkewItem(cols[i]) {
      var i :| 0 <= i < |cols| && IsNumeric(cols[i]) && x in SkewItem(cols[i]);
      assert x == Recommendation(cols[i].name, HighlySkewed, cols[i].skew);
    }
    if exists i :: 0 <= i < |cols| && cols[i].numeric && Abs(cols[i].skew) > 1.0
                   && x == Recommendation(cols[i].name, HighlySkewed, cols[i].skew) {
      var i :| 0 <= i < |cols| && cols[i].numeric && Abs(cols[i].skew) > 1.0
               && x == Recommendation(cols[i].name, HighlySkewed, cols[i].skew);
      assert IsNumeric(cols[i]) && x in SkewItem(cols[i]);
    }
  }

  /** The dataset-level item appears iff more than 5% of the rows are
      duplicates, with that share times 100. */
  lemma DuplicateMembers(rows: nat, duplicateRows: nat, cols: seq<ColumnStats>, x: Recommendation)
    requires Analysis(rows, duplicateRows, cols).Ok?
    ensures x in Analysis(rows, duplicateRows, cols).value && x.issue == HighDuplicates <==>
              rows > 0 && duplicateRows as real / rows as real > 0.05 &&
              x == Recommendation(DatasetLevel, HighDuplicates, duplicateRows as real / rows as real * 100.0)
  {
    InOwnBlock(rows, duplicateRows, cols, x);
  }

  /** Every element of one block's run comes from that block. */
  lemma OneBlock(s: seq<Recommendation>, k: int)
    requires forall x :: x in s ==> Block(x) == k
    ensures Ordered(s, Block) && KeysWithin(s, Block, k, k)
  {
    forall i | 0 <= i < |s| ensures Block(s[i]) == k {
      assert s[i] in s;
    }
    forall i, j | 0 <= i < j < |s| ensures Block(s[i]) <= Block(s[j]) {
      assert s[i] in s && s[j] in s;
    }
  }

  /** Each block's run holds only that block's recommendations. */
  lemma BlocksOfRuns(rows: nat, cols: seq<ColumnStats>)
    ensures forall x :: x in FlatMap(cols, MissingItem) ==> Block(x) == 0
    ensures forall x :: x in FlatMap(cols, UniquenessItem(rows)) ==> Block(x) == 1
    ensures forall x :: x in FlatMap(Filter(cols, IsNumeric), SkewItem) ==> Block(x) == 2
  {
    forall x | x in FlatMap(cols, MissingItem) ensures Block(x) == 0 {
      FlatMapMember(cols, MissingItem, x);
    }
    forall x | x in FlatMap(cols, UniquenessItem(rows)) ensures Block(x) == 1 {
      FlatMapMember(cols, UniquenessItem(rows), x);
    }
    forall x | x in FlatMap(Filter(cols, IsNumeric), SkewItem) ensures Block(x) == 2 {
      FlatMapMember(Filter(cols, IsNumeric), SkewItem, x);
    }
  }

  /** All missing-value items come first, then the uniqueness items, then
      the skew items, then the duplicate item. */
  lemma AnalysisOrder(rows: nat, duplicateRows: nat, cols: seq<ColumnStats>)
    requires Analysis(rows, duplicateRows, cols).Ok?
    ensures Ordered(Analysis(rows, duplicateRows, cols).value, Block)
  {
    var a := FlatMap(cols, MissingItem);
    var b := FlatMap(cols, UniquenessItem(rows));
    var c := FlatMap(Filter(cols, IsNumeric), SkewItem);
    var d := DuplicateItem(rows, duplicateRows);
    BlocksOfRuns(rows, cols);
    OneBlock(a, 0);
    OneBlock(b, 1);
    OneBlock(c, 2);
    OneBlock(d, 3);
    OrderedJoin(a, b, Block, 0, 1, 1);
    OrderedJoin(a + b, c, Block, 0, 2, 2);
    OrderedJoin(a + b + c, d, Block, 0, 3, 3);
  }

  /** The duplicate recommendation, when present, is the last one and the
      only one of its kind. */
  lemma DuplicateComesLast(rows: nat, duplicateRows: nat, cols: seq<ColumnStats>)
    requires Analysis(rows, duplicateRows, cols).Ok?
    ensures var out := Analysis(rows, duplicateRows, cols).value;
            forall k :: 0 <= k < |out| && out[k].issue == HighDuplicates ==> k == |out| - 1
  {
    var a := FlatMap(cols, MissingItem);
    var b := FlatMap(cols, UniquenessItem(rows));
    var c := FlatMap(Filter(cols, IsNumeric), SkewItem);
    var d := DuplicateItem(rows, duplicateRows);
    var out := Analysis(rows, duplicateRows, cols).value;
    assert out == (a + b + c) + d;
    BlocksOfRuns(rows, cols);
    forall k | 0 <= k < |a + b + c| ensures out[k].issue != HighDuplicates {
      assert out[k] == (a + b + c)[k];
      assert (a + b + c)[k] in a || (a + b + c)[k] in b || (a + b + c)[k] in c;
    }
  }

  /** Each column gets at most one missing-value recommendation, so there
      are no more of them than columns. */
  lemma MissingAtMostOnePerColumn(cols: seq<ColumnStats>)
    ensures |FlatMap(cols, MissingItem)| <= |cols|
  {
    FlatMapLength(cols, MissingItem);
  }
}
