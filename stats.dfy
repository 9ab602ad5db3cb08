/** The pandas aggregates the back-end engines start from, taken as plain
    inputs: per-table counts and per-column statistics. */
module Stats {

  /** Counts over a whole table: `len(df)`, `len(df.columns)`,
      `df.isnull().sum().sum()` and `df.duplicated().sum()`. */
  datatype TableStats = TableStats(rows: nat, columns: nat, missingCells: nat, duplicateRows: nat)

  /** `len(df) * len(df.columns)`. */
  function Cells(t: TableStats): nat
  {
    t.rows * t.columns
  }

  /** Counts that a real table can have: no more missing cells than cells,
      and no more duplicate rows than rows. */
  predicate Consistent(t: TableStats)
  {
    t.missingCells <= Cells(t) && t.duplicateRows <= t.rows
  }

  /** A count out of a larger positive count is a ratio in [0, 1]. */
  lemma RatioBounds(part: nat, whole: nat)
    requires 0 < whole && part <= whole
    ensures 0.0 <= part as real / whole as real <= 1.0
  {
  }

  /** Statistics of one column: `df[col].isnull().mean()`,
      `df[col].nunique()`, whether pandas types it as a number, and
      `df[col].skew()`. */
  datatype ColumnStats = ColumnStats(name: string, missingRatio: real, distinct: nat, numeric: bool, skew: real)

  /** The column names, in column order. */
  function Names(cols: seq<ColumnStats>): (names: seq<string>)
    ensures |names| == |cols|
    ensures forall i :: 0 <= i < |cols| ==> names[i] == cols[i].name
  {
    seq(|cols|, i requires 0 <= i < |cols| => cols[i].name)
  }

  /** Membership in `df.select_dtypes(include=np.number)`. */
  predicate IsNumeric(c: ColumnStats)
  {
    c.numeric
  }

  /** A ratio as pandas computes it for a table with at least one row. */
  predicate IsRatio(x: real)
  {
    0.0 <= x <= 1.0
  }

  /** `abs(x)`. */
  function Abs(x: real): real
  {
    if x < 0.0 then -x else x
  }
}
