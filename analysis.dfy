/** `analyze_data(df)` (backend/app/services/analysis.py): table size, a
    quality score from the mean missing ratio, and the reasons behind it. */
module AppAnalysis {
  import opened Wrappers
  import opened Stats

  datatype Reason = HighMissing | DuplicatesFound

  function Text(r: Reason): string
  {
    match r
    case HighMissing => "High missing values detected."
    case DuplicatesFound => "Duplicate rows detected."
  }

  /** The position of each reason in the source. */
  function Rank(r: Reason): nat
  {
    match r
    case HighMissing => 0
    case DuplicatesFound => 1
  }

  /** The response body; `qualityScore` is None where pandas yields NaN. */
  datatype AnalysisResult = AnalysisResult(rows: nat, columns: nat, qualityScore: Option<real>, reasons: seq<Reason>)

  /** The sum of the per-column missing ratios. */
  function SumRatios(cols: seq<ColumnStats>): real
  {
    if cols == [] then 0.0 else SumRatios(cols[..|cols| - 1]) + cols[|cols| - 1].missingRatio
  }

  /** `df.isnull().mean().mean()`: the mean over the columns of each
      column's missing ratio. It is NaN (None) for a table without columns,
      and for one without rows, whose column means are all NaN. */
  function MeanMissingRatio(rows: nat, cols: seq<ColumnStats>): (m: Option<real>)
    ensures m.None? <==> rows == 0 || |cols| == 0
    ensures m.Some? ==> m.value * |cols| as real == SumRatios(cols)
  {
    if rows == 0 || |cols| == 0 then None else Some(SumRatios(cols) / |cols| as real)
  }

  /** `(1 - missing_ratio) * 100`. */
  function QualityScore(missingRatio: real): real
  {
    (1.0 - missingRatio) * 100.0
  }

  /** `analyze_data(df)`; `duplicateRows` is `df.duplicated().sum()`. A NaN
      ratio fails the `> 0.2` test. */
  method AnalyzeData(rows: nat, cols: seq<ColumnStats>, duplicateRows: nat) returns (result: AnalysisResult)
    ensures result.rows == rows && result.columns == |cols|
    ensures result.qualityScore.None? <==> rows == 0 || |cols| == 0
    ensures result.qualityScore.Some? ==>
              result.qualityScore.value == QualityScore(MeanMissingRatio(rows, cols).value)
    ensures HighMissing in result.reasons <==>
              MeanMissingRatio(rows, cols).Some? && MeanMissingRatio(rows, cols).value > 0.2
    ensures DuplicatesFound in result.reasons <==> duplicateRows > 0
    ensures HighMissing in result.reasons ==> result.reasons[0] == HighMissing
    ensures |result.reasons| <= 2
    ensures forall i, j :: 0 <= i < j < |result.reasons| ==> Rank(result.reasons[i]) < Rank(result.reasons[j])
  {
    var missingRatio := MeanMissingRatio(rows, cols);
    var score := if missingRatio.Some? then Some((1.0 - missingRatio.value) * 100.0) else None;
    var reasons := [];
    if missingRatio.Some? && missingRatio.value > 0.2 {
      reasons := reasons + [HighMissing];
    }
    if duplicateRows > 0 {
      reasons := reasons + [DuplicatesFound];
    }
    result := AnalysisResult(rows, |cols|, score, reasons);
  }

  /** The sum of ratios in [0, 1] lies between 0 and the column count. */
  lemma {:induction false} SumRatiosBounds(cols: seq<ColumnStats>)
    requires forall i :: 0 <= i < |cols| ==> IsRatio(cols[i].missingRatio)
    ensures 0.0 <= SumRatios(cols) <= |cols| as real
  {
    if cols != [] {
      var init := cols[..|cols| - 1];
      assert forall i :: 0 <= i < |init| ==> init[i] == cols[i];
      SumRatiosBounds(init);
    }
  }

  /** With every column ratio in [0, 1] the score lies in [0, 100]. */
  lemma ScoreBounds(rows: nat, cols: seq<ColumnStats>)
    requires forall i :: 0 <= i < |cols| ==> IsRatio(cols[i].missingRatio)
    requires MeanMissingRatio(rows, cols).Some?
    ensures 0.0 <= QualityScore(MeanMissingRatio(rows, cols).value) <= 100.0
  {
    SumRatiosBounds(cols);
  }

  /** A table with rows and columns but no missing value has mean ratio 0,
      so it scores 100 and draws no missing-value reason. */
  lemma {:induction false} NoMissingScores100(rows: nat, cols: seq<ColumnStats>)
    requires rows > 0 && |cols| > 0
    requires forall i :: 0 <= i < |cols| ==> cols[i].missingRatio == 0.0
    ensures MeanMissingRatio(rows, cols) == Some(0.0)
    ensures QualityScore(0.0) == 100.0
  {
    SumRatiosZero(cols);
  }

  /** Columns without missing values sum to 0. */
  lemma {:induction false} SumRatiosZero(cols: seq<ColumnStats>)
    requires forall i :: 0 <= i < |cols| ==> cols[i].missingRatio == 0.0
    ensures SumRatios(cols) == 0.0
  {
    if cols != [] {
      var init := cols[..|cols| - 1];
      assert forall i :: 0 <= i < |init| ==> init[i] == cols[i];
      SumRatiosZero(init);
    }
  }

  /** The score falls as the missing ratio rises. */
  lemma ScoreAntitone(m1: real, m2: real)
    requires m1 <= m2
    ensures QualityScore(m2) <= QualityScore(m1)
  {
  }
}
