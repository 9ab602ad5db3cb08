/** The feature ranking table (frontend/src/components/FeatureRankingTable.jsx):
    the importance entries sorted by value, highest first, numbered from 1. */
module FeatureRanking {
  import opened Wrappers
  import opened Seqs
  import opened Ranking

  /** One table row: rank, feature and value. */
  datatype RankedRow = RankedRow(rank: nat, feature: string, value: real)

  /** `sorted.map(([feature, value], index) => ...)`. */
  function Numbered(sorted: seq<Entry>): (rows: seq<RankedRow>)
    ensures |rows| == |sorted|
    ensures forall i :: 0 <= i < |rows| ==> rows[i] == RankedRow(i + 1, sorted[i].0, sorted[i].1)
  {
    seq(|sorted|, i requires 0 <= i < |sorted| => RankedRow(i + 1, sorted[i].0, sorted[i].1))
  }

  /** The rows the component renders: nothing for absent data or an object
      without keys, otherwise the entries sorted in descending value
      order and numbered. */
  function RankingTable(data: Option<seq<Entry>>): (r: Option<seq<RankedRow>>)
    ensures r.None? <==> data.None? || data.value == []
    ensures r.Some? ==> r.value == Numbered(SortDesc(data.value))
  {
    if data.None? || data.value == [] then None else Some(Numbered(SortDesc(data.value)))
  }

  /** The entries of a row list, as (feature, value) pairs. */
  function EntriesOf(rows: seq<RankedRow>): (es: seq<Entry>)
    ensures |es| == |rows|
    ensures forall i :: 0 <= i < |rows| ==> es[i] == (rows[i].feature, rows[i].value)
  {
    seq(|rows|, i requires 0 <= i < |rows| => (rows[i].feature, rows[i].value))
  }

  /** The ranks are 1 to n by position, the values never increase down the
      table, the table lists exactly the input entries, and entries with
      equal values keep their input order. */
  lemma RankingTableMeaning(entries: seq<Entry>, v: real)
    requires entries != []
    ensures var rows := RankingTable(Some(entries)).value;
            |rows| == |entries|
            && (forall i :: 0 <= i < |rows| ==> rows[i].rank == i + 1)
            && (forall i, j :: 0 <= i < j < |rows| ==> rows[i].value >= rows[j].value)
            && multiset(EntriesOf(rows)) == multiset(entries)
            && Filter(EntriesOf(rows), HasValue(v)) == Filter(entries, HasValue(v))
  {
    var sorted := SortDesc(entries);
    SortDescSorts(entries);
    SortDescStable(entries, v);
    var rows := RankingTable(Some(entries)).value;
    assert EntriesOf(rows) == sorted;
  }
}
