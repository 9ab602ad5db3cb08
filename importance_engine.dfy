/** `ImportanceEngine.calculate` (backend/engines/importance_engine.py): a
    weighted importance score per column, capped at 95, returned sorted by
    score, highest first. */
module ImportanceEngine {
  import opened Stats
  import opened Seqs
  import Ranking

  /** `nunique / total_rows`, or 0 for a table without rows. */
  function UniqueRatio(totalRows: nat, c: ColumnStats): (r: real)
    ensures totalRows == 0 ==> r == 0.0
    ensures totalRows > 0 ==> r * totalRows as real == c.distinct as real
  {
    if totalRows > 0 then c.distinct as real / totalRows as real else 0.0
  }

  /** A column counts as an identifier when more than 95% of its values are
      distinct. */
  predicate IsIdentifier(totalRows: nat, c: ColumnStats)
  {
    UniqueRatio(totalRows, c) > 0.95
  }

  /** The weighted formula before the cap: completeness and distinctness
      weigh 40 each, and a non-identifier gets 20 more. */
  function RawImportance(totalRows: nat, c: ColumnStats): real
  {
    (1.0 - c.missingRatio) * 40.0 + UniqueRatio(totalRows, c) * 40.0 + (if IsIdentifier(totalRows, c) then 0.0 else 20.0)
  }

  /** The score of one column. */
  function ColumnScore(totalRows: nat, c: ColumnStats): (s: real)
    ensures s <= 95.0
    ensures RawImportance(totalRows, c) <= 95.0 ==> s == RawImportance(totalRows, c)
    ensures RawImportance(totalRows, c) > 95.0 ==> s == 95.0
  {
    var score := RawImportance(totalRows, c);
    if score > 95.0 then 95.0 else score
  }

  /** The `importance_scores` dictionary, in column order. */
  function Scores(totalRows: nat, cols: seq<ColumnStats>): (es: seq<Ranking.Entry>)
    ensures |es| == |cols|
    ensures forall i :: 0 <= i < |cols| ==> es[i] == (cols[i].name, ColumnScore(totalRows, cols[i]))
  {
    if cols == [] then []
    else Scores(totalRows, cols[..|cols| - 1]) + [(cols[|cols| - 1].name, ColumnScore(totalRows, cols[|cols| - 1]))]
  }

  /** `ImportanceEngine.calculate(df)`: one entry per column, highest score
      first, and columns with equal scores in column order. */
  method Calculate(totalRows: nat, cols: seq<ColumnStats>) returns (sorted: seq<Ranking.Entry>)
    ensures sorted == Ranking.SortDesc(Scores(totalRows, cols))
    ensures |sorted| == |cols|
    ensures Ranking.SortedDesc(sorted)
    ensures multiset(sorted) == multiset(Scores(totalRows, cols))
    ensures forall v :: Filter(sorted, Ranking.HasValue(v)) == Filter(Scores(totalRows, cols), Ranking.HasValue(v))
  {
    var importanceScores: seq<Ranking.Entry> := [];
    for i := 0 to |cols|
      invariant importanceScores == Scores(totalRows, cols[..i])
    {
      var c := cols[i];
      var missingRatio := c.missingRatio;
      var uniqueRatio := if totalRows > 0 then c.distinct as real / totalRows as real else 0.0;
      var isIdentifier := uniqueRatio > 0.95;
      var score := (1.0 - missingRatio) * 40.0 + uniqueRatio * 40.0 + (if isIdentifier then 0.0 else 20.0);
      if score > 95.0 {
        score := 95.0;
      }
      importanceScores := importanceScores + [(c.name, score)];
      assert cols[..i + 1][..i] == cols[..i];
    }
    assert cols[..|cols|] == cols;
    sorted := Ranking.SortDesc(importanceScores);
    Ranking.SortDescSorts(importanceScores);
    forall v | true
      ensures Filter(sorted, Ranking.HasValue(v)) == Filter(importanceScores, Ranking.HasValue(v))
    {
      Ranking.SortDescStable(importanceScores, v);
    }
  }

  /** For ratios in [0, 1] the score lies in [0, 95]. */
  lemma ScoreInRange(totalRows: nat, c: ColumnStats)
    requires IsRatio(c.missingRatio) && c.distinct <= totalRows
    ensures 0.0 <= ColumnScore(totalRows, c) <= 95.0
  {
    if totalRows > 0 {
      RatioBounds(c.distinct, totalRows);
    }
  }

  /** The identifier rule makes the score drop at the threshold: a complete
      column with 95 distinct values in 100 rows scores 95 (98 capped), one
      with 100 distinct values scores 80. */
  lemma IdentifierLosesBonus()
    ensures ColumnScore(100, ColumnStats("a", 0.0, 95, false, 0.0)) == 95.0
    ensures ColumnScore(100, ColumnStats("a", 0.0, 100, false, 0.0)) == 80.0
  {
    assert UniqueRatio(100, ColumnStats("a", 0.0, 95, false, 0.0)) == 0.95;
    assert UniqueRatio(100, ColumnStats("a", 0.0, 100, false, 0.0)) == 1.0;
  }
}
