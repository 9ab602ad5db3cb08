/** The insight panel (frontend/src/components/InsightPanel.jsx): the
    "strongest feature" and the ML readiness badge, computed from the
    analysis object. */
module InsightPanel {
  import opened Wrappers
  import opened Ranking

  /** A numeric field of the analysis object as JavaScript sees it: absent
      (undefined), null, or a number. */
  datatype NumField = Absent | NullField | Number(x: real)

  /** `field < k`: undefined compares as NaN (false), null as 0. */
  predicate LessThan(f: NumField, k: real)
  {
    match f
    case Absent => false
    case NullField => 0.0 < k
    case Number(x) => x < k
  }

  /** The fields the panel reads; `columnImportance` is None when the field
      is missing or falsy, and `correlationKeys` holds the keys of
      `analysis.correlation`, None when that is missing or falsy. */
  datatype Analysis = Analysis(
    rows: NumField,
    missingPercentage: NumField,
    duplicateCount: NumField,
    columnImportance: Option<seq<Entry>>,
    correlationKeys: Option<seq<string>>)

  /** `column_importance && Object.entries(...).sort(...)[1]?.[0]`: the
      feature at index 1 of the descending sort, that is the second
      ranked; None (rendered as nothing) when the field is falsy or has
      fewer than two entries. */
  function StrongestFeature(columnImportance: Option<seq<Entry>>): (r: Option<string>)
    ensures r.Some? <==> columnImportance.Some? && |columnImportance.value| >= 2
  {
    if columnImportance.None? then None
    else
      var sorted := SortDesc(columnImportance.value);
      SortDescSorts(columnImportance.value);
      if |sorted| >= 2 then Some(sorted[1].0) else None
  }

  /** The feature shown is that of an input entry with the second-highest
      value: exactly one entry is ranked above it, no lower value, and every
      other entry is ranked below it with no higher value. */
  lemma StrongestIsSecondRanked(entries: seq<Entry>)
    requires |entries| >= 2
    ensures |SortDesc(entries)| == |entries|
    ensures var sorted := SortDesc(entries);
            StrongestFeature(Some(entries)) == Some(sorted[1].0)
            && sorted[1] in entries
            && sorted[0].1 >= sorted[1].1
            && (forall i :: 2 <= i < |sorted| ==> sorted[i].1 <= sorted[1].1)
            && multiset(sorted) == multiset(entries)
  {
    SortDescSorts(entries);
    var sorted := SortDesc(entries);
    assert sorted[1] in multiset(sorted);
  }

  /** With two features the panel names the weaker one. */
  lemma TwoFeaturesNamesWeaker()
    ensures StrongestFeature(Some([("area", 0.9), ("age", 0.2)])) == Some("age")
  {
    var s := [("area", 0.9), ("age", 0.2)];
    assert s[..1] == [("area", 0.9)];
    assert SortDesc(s[..1]) == [("area", 0.9)];
  }

  /** `mlReady`. */
  predicate MlReady(a: Analysis)
  {
    LessThan(a.missingPercentage, 5.0)
    && LessThan(a.duplicateCount, 5.0)
    && |a.correlationKeys.GetOr([])| >= 3
  }

  /** With numbers in both fields the badge shows readiness iff fewer than 5%
      missing, fewer than 5 duplicates and at least three correlation keys;
      an absent field never passes and a null one passes as 0. */
  lemma MlReadyMeaning(a: Analysis)
    ensures a.missingPercentage.Number? && a.duplicateCount.Number? ==>
              (MlReady(a) <==> a.missingPercentage.x < 5.0 && a.duplicateCount.x < 5.0
                               && a.correlationKeys.Some? && |a.correlationKeys.value| >= 3)
    ensures a.missingPercentage.Absent? || a.duplicateCount.Absent? || a.correlationKeys.None? ==> !MlReady(a)
    ensures a.missingPercentage.NullField? && a.duplicateCount.NullField? ==>
              (MlReady(a) <==> a.correlationKeys.Some? && |a.correlationKeys.value| >= 3)
  {
  }

  /** What the panel shows. */
  datatype Panel = Panel(rows: NumField, missingPercentage: NumField, duplicateCount: NumField,
                         strongestFeature: Option<string>, mlReady: bool)

  /** The panel: nothing without an analysis. */
  function Render(analysis: Option<Analysis>): (r: Option<Panel>)
    ensures r.None? <==> analysis.None?
    ensures r.Some? ==> r.value.strongestFeature == StrongestFeature(analysis.value.columnImportance)
                        && r.value.mlReady == MlReady(analysis.value)
                        && r.value.rows == analysis.value.rows
                        && r.value.missingPercentage == analysis.value.missingPercentage
                        && r.value.duplicateCount == analysis.value.duplicateCount
  {
    match analysis
    case None => None
    case Some(a) => Some(Panel(a.rows, a.missingPercentage, a.duplicateCount,
                               StrongestFeature(a.columnImportance), MlReady(a)))
  }
}
