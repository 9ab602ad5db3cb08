/** `recommend_drop(df, importance_scores)` (backend/engines/drop_engine.py):
    the columns to propose for dropping, in column order. */
module DropEngine {
  import opened Stats
  import opened Seqs

  /** `importance_scores.get(col, {}).get("importance", 100)`. */
  function ImportanceOf(importanceScores: map<string, map<string, real>>, col: string): (v: real)
    ensures col !in importanceScores || "importance" !in importanceScores[col] ==> v == 100.0
    ensures col in importanceScores && "importance" in importanceScores[col] ==> v == importanceScores[col]["importance"]
  {
    var entry := if col in importanceScores then importanceScores[col] else map[];
    if "importance" in entry then entry["importance"] else 100.0
  }

  /** `df[col].isna().mean() * 100`. */
  function MissingPercentage(c: ColumnStats): real
  {
    c.missingRatio * 100.0
  }

  /** The drop rule. */
  predicate ShouldDrop(c: ColumnStats, importanceScores: map<string, map<string, real>>)
  {
    ImportanceOf(importanceScores, c.name) < 50.0 || MissingPercentage(c) > 40.0
  }

  /** The names of the columns the rule selects, in column order. */
  function DropList(cols: seq<ColumnStats>, importanceScores: map<string, map<string, real>>): seq<string>
  {
    if cols == [] then []
    else
      var last := cols[|cols| - 1];
      DropList(cols[..|cols| - 1], importanceScores) + (if ShouldDrop(last, importanceScores) then [last.name] else [])
  }

  /** `recommend_drop(df, importance_scores)`. */
  method RecommendDrop(cols: seq<ColumnStats>, importanceScores: map<string, map<string, real>>) returns (recommendations: seq<string>)
    ensures recommendations == DropList(cols, importanceScores)
  {
    recommendations := [];
    for i := 0 to |cols|
      invariant recommendations == DropList(cols[..i], importanceScores)
    {
      var col := cols[i];
      var importance := if col.name in importanceScores && "importance" in importanceScores[col.name]
                        then importanceScores[col.name]["importance"] else 100.0;
      var missingPercentage := col.missingRatio * 100.0;
      if importance < 50.0 || missingPercentage > 40.0 {
        recommendations := recommendations + [col.name];
      }
      assert cols[..i + 1][..i] == cols[..i];
    }
    assert cols[..|cols|] == cols;
  }

  lemma NamesSnoc(cols: seq<ColumnStats>)
    requires cols != []
    ensures Names(cols) == Names(cols[..|cols| - 1]) + [cols[|cols| - 1].name]
  {
    var b := Names(cols[..|cols| - 1]) + [cols[|cols| - 1].name];
    assert forall i :: 0 <= i < |cols| ==> Names(cols)[i] == b[i];
  }

  /** A name is proposed exactly when some column of that name meets the
      rule. */
  lemma {:induction false} DropListMembers(cols: seq<ColumnStats>, importanceScores: map<string, map<string, real>>, x: string)
    ensures x in DropList(cols, importanceScores) <==>
              exists i :: 0 <= i < |cols| && cols[i].name == x && ShouldDrop(cols[i], importanceScores)
  {
    if cols != [] {
      var init := cols[..|cols| - 1];
      DropListMembers(init, importanceScores, x);
      if x in DropList(init, importanceScores) {
        var i :| 0 <= i < |init| && init[i].name == x && ShouldDrop(init[i], importanceScores);
        assert cols[i] == init[i];
      }
      if exists i :: 0 <= i < |cols| && cols[i].name == x && ShouldDrop(cols[i], importanceScores) {
        var i :| 0 <= i < |cols| && cols[i].name == x && ShouldDrop(cols[i], importanceScores);
        if i < |init| {
          assert init[i] == cols[i];
        }
      }
    }
  }

  /** The proposals are the column names with some left out, in column
      order. */
  lemma {:induction false} DropListInColumnOrder(cols: seq<ColumnStats>, importanceScores: map<string, map<string, real>>)
    ensures IsSubsequence(DropList(cols, importanceScores), Names(cols))
  {
    if cols != [] {
      var init := cols[..|cols| - 1];
      var last := cols[|cols| - 1];
      DropListInColumnOrder(init, importanceScores);
      NamesSnoc(cols);
      var xs := DropList(init, importanceScores);
      var ys := Names(init);
      if ShouldDrop(last, importanceScores) {
        assert DropList(cols, importanceScores) == xs + [last.name];
        assert Names(cols) == ys + [last.name];
        assert (xs + [last.name])[..|xs|] == xs;
        assert (ys + [last.name])[..|ys|] == ys;
      } else {
        assert DropList(cols, importanceScores) == xs;
        SubsequenceExtend(xs, ys, last.name);
        assert Names(cols) == ys + [last.name];
      }
    }
  }

  /** With distinct column names no name is proposed twice. */
  lemma {:induction false} DropListNoRepeats(cols: seq<ColumnStats>, importanceScores: map<string, map<string, real>>)
    requires NoDuplicates(Names(cols))
    ensures NoDuplicates(DropList(cols, importanceScores))
  {
    if cols != [] {
      var init := cols[..|cols| - 1];
      var last := cols[|cols| - 1];
      NamesSnoc(cols);
      assert NoDuplicates(Names(init)) by {
        forall i, j | 0 <= i < j < |init| ensures Names(init)[i] != Names(init)[j] {
          assert Names(init)[i] == Names(cols)[i] && Names(init)[j] == Names(cols)[j];
        }
      }
      DropListNoRepeats(init, importanceScores);
      if ShouldDrop(last, importanceScores) {
        var xs := DropList(init, importanceScores);
        DropListMembers(init, importanceScores, last.name);
        forall i | 0 <= i < |init| ensures init[i].name != last.name {
          assert Names(cols)[i] == init[i].name && Names(cols)[|cols| - 1] == last.name;
        }
        forall i, j | 0 <= i < j < |xs + [last.name]| ensures (xs + [last.name])[i] != (xs + [last.name])[j] {
          if j == |xs| {
            assert (xs + [last.name])[i] == xs[i];
          } else {
            assert (xs + [last.name])[i] == xs[i] && (xs + [last.name])[j] == xs[j];
          }
        }
      }
    }
  }

  /** Without an importance entry only the missing rule can fire. */
  lemma AbsentImportance(c: ColumnStats, importanceScores: map<string, map<string, real>>)
    requires c.name !in importanceScores
    ensures ShouldDrop(c, importanceScores) <==> c.missingRatio > 0.4
  {
  }
}
