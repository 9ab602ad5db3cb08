/** `column_importance(df)` (backend/services/importance.py): 100 minus the
    truncated missing percentage, floored at 0. */
module ServiceImportance {
  import opened Wrappers
  import opened Stats

  /** Python's `int(x)`: truncation toward zero. */
  function Trunc(x: real): (n: int)
    ensures x >= 0.0 ==> n as real <= x < n as real + 1.0
    ensures x < 0.0 ==> n as real - 1.0 < x <= n as real
  {
    if x >= 0.0 then x.Floor else -((-x).Floor)
  }

  /** The score of a column with the given missing ratio. */
  function ColumnScore(missingRatio: real): int
  {
    var score := 100 - Trunc(missingRatio * 100.0);
    if score > 0 then score else 0
  }

  /** The ValueError `int(missing_ratio * 100)` raises when the ratio is
      NaN, which `isnull().mean()` gives for a column of a table without
      rows. */
  datatype ImportanceError = NanToInteger

  /** `column_importance(df)`: one score per column, in column order, or the
      conversion error when the table has columns but no rows. */
  method ColumnImportance(rows: nat, cols: seq<ColumnStats>) returns (r: Result<seq<(string, int)>, ImportanceError>)
    ensures r.Err? <==> rows == 0 && |cols| > 0
    ensures r.Ok? ==> |r.value| == |cols|
    ensures r.Ok? ==>
              forall i :: 0 <= i < |cols| ==> r.value[i] == (cols[i].name, ColumnScore(cols[i].missingRatio))
  {
    var scores: seq<(string, int)> := [];
    for i := 0 to |cols|
      invariant |scores| == i
      invariant i > 0 ==> rows > 0
      invariant forall k :: 0 <= k < i ==> scores[k] == (cols[k].name, ColumnScore(cols[k].missingRatio))
    {
      if rows == 0 {
        return Err(NanToInteger);
      }
      var missingRatio := cols[i].missingRatio;
      var score := 100 - Trunc(missingRatio * 100.0);
      scores := scores + [(cols[i].name, if score > 0 then score else 0)];
    }
    return Ok(scores);
  }

  /** The score is 100 minus the whole missing percentage, rounded down, and
      never negative; a complete column scores 100, and for a ratio in [0, 1]
      the score lies in [0, 100]. */
  lemma ScoreMeaning(missingRatio: real)
    ensures ColumnScore(missingRatio) >= 0
    ensures missingRatio == 0.0 ==> ColumnScore(missingRatio) == 100
    ensures IsRatio(missingRatio) ==>
              ColumnScore(missingRatio) <= 100
              && ColumnScore(missingRatio) as real <= 100.0 - missingRatio * 100.0 + 1.0
              && 100.0 - missingRatio * 100.0 <= ColumnScore(missingRatio) as real
  {
  }

  /** A higher missing ratio never scores higher. */
  lemma ScoreMonotone(m1: real, m2: real)
    requires m1 <= m2
    ensures ColumnScore(m2) <= ColumnScore(m1)
  {
    assert m1 * 100.0 <= m2 * 100.0;
  }

  /** Truncation, not rounding: 1.9% missing still scores 99. */
  lemma TruncatesPercentage()
    ensures ColumnScore(0.019) == 99
  {
    assert 0.019 * 100.0 == 1.9;
  }
}
