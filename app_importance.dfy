/** `column_importance(df)` (backend/app/services/importance.py): an even
    weighting of completeness and distinctness per column, with no cap. */
module AppImportance {
  import opened Wrappers
  import opened Stats

  /** The ZeroDivisionError `nunique / len(df)` raises on a table without
      rows. */
  datatype ImportanceError = ZeroDivision

  /** The score of a column from its missing and distinct ratios. */
  function ColumnScore(missingRatio: real, uniquenessRatio: real): real
  {
    (1.0 - missingRatio) * 50.0 + uniquenessRatio * 50.0
  }

  function UniquenessRatio(rows: nat, c: ColumnStats): real
    requires rows > 0
  {
    c.distinct as real / rows as real
  }

  /** `column_importance(df)`: one score per column, or the division error
      when the table has columns but no rows. */
  method ColumnImportance(rows: nat, cols: seq<ColumnStats>) returns (r: Result<seq<(string, real)>, ImportanceError>)
    ensures r.Err? <==> rows == 0 && |cols| > 0
    ensures r.Ok? ==> |r.value| == |cols|
    ensures r.Ok? && rows > 0 ==>
              forall i :: 0 <= i < |cols| ==>
                r.value[i] == (cols[i].name, ColumnScore(cols[i].missingRatio, UniquenessRatio(rows, cols[i])))
  {
    var scores: seq<(string, real)> := [];
    for i := 0 to |cols|
      invariant |scores| == i
      invariant i > 0 ==> rows > 0
      invariant rows > 0 ==>
                  forall k :: 0 <= k < i ==>
                    scores[k] == (cols[k].name, ColumnScore(cols[k].missingRatio, UniquenessRatio(rows, cols[k])))
    {
      if rows == 0 {
        return Err(ZeroDivision);
      }
      var missingRatio := cols[i].missingRatio;
      var uniquenessRatio := cols[i].distinct as real / rows as real;
      var score := (1.0 - missingRatio) * 50.0 + uniquenessRatio * 50.0;
      scores := scores + [(cols[i].name, score)];
    }
    return Ok(scores);
  }

  /** For ratios in [0, 1] the score lies in [0, 100]; a complete column
      whose values are all distinct scores 100, which the capped engine
      never reaches. */
  lemma ScoreInRange(missingRatio: real, uniquenessRatio: real)
    requires IsRatio(missingRatio) && IsRatio(uniquenessRatio)
    ensures 0.0 <= ColumnScore(missingRatio, uniquenessRatio) <= 100.0
    ensures missingRatio == 0.0 && uniquenessRatio == 1.0 ==> ColumnScore(missingRatio, uniquenessRatio) == 100.0
  {
  }
}
