/** The client-side column profiler (frontend/src/components/ColumnProfiles.jsx):
    for each key of the first row, a type guessed from the first usable
    value and the share of missing cells. */
module ColumnProfiles {
  import opened Wrappers
  import opened Seqs
  import opened JsValues

  /** The profiler's notion of a missing cell: null, undefined, the empty
      string, a single space, or a NaN number. */
  predicate IsMissing(v: JsValue)
  {
    v == Null || v == Undefined || v == Str("") || v == Str(" ") || v == NaN
  }

  /** The `find` test for a usable sample: anything but null and `""`, so
      undefined, NaN and `" "` all pass. */
  predicate HasSample(row: Row, column: string)
  {
    Get(row, column) != Null && Get(row, column) != Str("")
  }

  /** `row => <the cell of column is a usable sample>`. */
  function SampleIn(column: string): Row -> bool
  {
    (row: Row) => HasSample(row, column)
  }

  /** `data.find(row => ...)`: the first row with a usable sample. */
  function FindSample(data: seq<Row>, column: string): (r: Option<Row>)
    ensures r.None? <==> forall i :: 0 <= i < |data| ==> !HasSample(data[i], column)
    ensures r.Some? ==> exists i :: 0 <= i < |data| && data[i] == r.value && HasSample(data[i], column)
                                   && forall j :: 0 <= j < i ==> !HasSample(data[j], column)
  {
    var k := FirstIndex(data, SampleIn(column));
    if k < |data| then Some(data[k]) else None
  }

  datatype ColumnType = Unknown | Numeric | Categorical

  function TypeLabel(t: ColumnType): string
  {
    match t
    case Unknown => "Unknown"
    case Numeric => "Numeric"
    case Categorical => "Categorical"
  }

  /** `getColumnType(column)`. */
  function GetColumnType(data: seq<Row>, column: string): (t: ColumnType)
    ensures t == Unknown <==> forall i :: 0 <= i < |data| ==> !HasSample(data[i], column)
  {
    match FindSample(data, column)
    case None => Unknown
    case Some(sample) => if IsNumber(Get(sample, column)) then Numeric else Categorical
  }

  /** The type is read off the first usable sample alone: Numeric iff its
      `typeof` is number (NaN included), Categorical otherwise. */
  lemma TypeFromFirstSample(data: seq<Row>, column: string, i: nat)
    requires i < |data| && HasSample(data[i], column)
    requires forall j :: 0 <= j < i ==> !HasSample(data[j], column)
    ensures GetColumnType(data, column) == (if IsNumber(Get(data[i], column)) then Numeric else Categorical)
  {
    var k :| 0 <= k < |data| && data[k] == FindSample(data, column).value && HasSample(data[k], column)
             && forall j :: 0 <= j < k ==> !HasSample(data[j], column);
    assert k == i;
  }

  /** `row => <the cell of column is missing>`. */
  function MissingIn(column: string): Row -> bool
  {
    (row: Row) => IsMissing(Get(row, column))
  }

  /** `data.filter(...).length`. */
  function MissingCount(data: seq<Row>, column: string): (n: nat)
    ensures n <= |data|
  {
    Count(data, MissingIn(column))
  }

  /** `calculateMissing(column)`, before `toFixed(2)`. The component only
      calls it with data present. */
  function CalculateMissing(data: seq<Row>, column: string): (pct: real)
    requires |data| > 0
    ensures 0.0 <= pct <= 100.0
    ensures pct * |data| as real == MissingCount(data, column) as real * 100.0
  {
    MissingCount(data, column) as real / |data| as real * 100.0
  }

  /** A count is 0 when no element passes the test, and the length when
      every element does. */
  lemma {:induction false} CountExtremes<T>(s: seq<T>, p: T -> bool)
    ensures (forall i :: 0 <= i < |s| ==> !p(s[i])) ==> Count(s, p) == 0
    ensures (forall i :: 0 <= i < |s| ==> p(s[i])) ==> Count(s, p) == |s|
  {
    if s != [] {
      var init := s[..|s| - 1];
      assert forall i :: 0 <= i < |init| ==> init[i] == s[i];
      CountExtremes(init, p);
    }
  }

  /** A column with no missing cell shows 0%, one with nothing but missing
      cells 100%. */
  lemma MissingExtremes(data: seq<Row>, column: string)
    requires |data| > 0
    ensures (forall i :: 0 <= i < |data| ==> !IsMissing(Get(data[i], column))) ==> CalculateMissing(data, column) == 0.0
    ensures (forall i :: 0 <= i < |data| ==> IsMissing(Get(data[i], column))) ==> CalculateMissing(data, column) == 100.0
  {
    var n := |data| as real;
    var c := MissingCount(data, column);
    assert CalculateMissing(data, column) == c as real / n * 100.0;
    NoneMissing(data, column);
    AllMissing(data, column);
    if c == 0 {
      Percentage(0.0, n);
    }
    if c == |data| {
      Percentage(n, n);
    }
  }

  lemma Percentage(c: real, n: real)
    requires n > 0.0 && (c == 0.0 || c == n)
    ensures c == 0.0 ==> c / n * 100.0 == 0.0
    ensures c == n ==> c / n * 100.0 == 100.0
  {
  }

  lemma NoneMissing(data: seq<Row>, column: string)
    ensures (forall i :: 0 <= i < |data| ==> !IsMissing(Get(data[i], column))) ==> MissingCount(data, column) == 0
  {
    var p := MissingIn(column);
    CountExtremes(data, p);
    assert (forall i :: 0 <= i < |data| ==> !IsMissing(Get(data[i], column))) ==> forall i :: 0 <= i < |data| ==> !p(data[i]);
  }

  lemma AllMissing(data: seq<Row>, column: string)
    ensures (forall i :: 0 <= i < |data| ==> IsMissing(Get(data[i], column))) ==> MissingCount(data, column) == |data|
  {
    var p := MissingIn(column);
    CountExtremes(data, p);
    assert (forall i :: 0 <= i < |data| ==> IsMissing(Get(data[i], column))) ==> forall i :: 0 <= i < |data| ==> p(data[i]);
  }

  /** A column the row objects do not mention at all reads as undefined
      everywhere: every cell missing, yet a usable sample, so it is typed
      Categorical. */
  lemma AbsentColumn(data: seq<Row>, column: string)
    requires |data| > 0
    requires forall i :: 0 <= i < |data| ==> column !in Keys(data[i])
    ensures CalculateMissing(data, column) == 100.0
    ensures GetColumnType(data, column) == Categorical
  {
    MissingExtremes(data, column);
    TypeFromFirstSample(data, column, 0);
  }

  /** One profile card. */
  datatype Profile = Profile(column: string, kind: ColumnType, missingPct: real)

  /** The cards the component renders: nothing for absent or empty data,
      otherwise one per key of the first row, in key order. */
  function Profiles(data: Option<seq<Row>>): (r: Option<seq<Profile>>)
    ensures r.None? <==> data.None? || data.value == []
    ensures r.Some? ==> |r.value| == |data.value[0]|
    ensures r.Some? ==> forall i :: 0 <= i < |r.value| ==>
              r.value[i].column == data.value[0][i].0
              && r.value[i].kind == GetColumnType(data.value, data.value[0][i].0)
              && r.value[i].missingPct == CalculateMissing(data.value, data.value[0][i].0)
  {
    if data.None? || data.value == [] then None
    else
      var rows := data.value;
      var columns := Keys(rows[0]);
      Some(seq(|columns|, i requires 0 <= i < |columns| =>
             Profile(columns[i], GetColumnType(rows, columns[i]), CalculateMissing(rows, columns[i]))))
  }
}
