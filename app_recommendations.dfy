/** `generate_recommendations(df)` (backend/app/services/recommendations.py):
    up to three fixed pieces of advice from whole-table counts, or a
    "looks good" message when none applies. */
module AppRecommendations {
  import opened Stats

  datatype Advice = HandleMissing | RemoveDuplicates | ReduceColumns | LooksGood

  function Text(a: Advice): string
  {
    match a
    case HandleMissing => "Handle missing values."
    case RemoveDuplicates => "Remove duplicate rows."
    case ReduceColumns => "Consider reducing number of columns."
    case LooksGood => "Dataset looks good."
  }

  /** The position of each piece of advice in the list. */
  function Rank(a: Advice): nat
  {
    match a
    case HandleMissing => 0
    case RemoveDuplicates => 1
    case ReduceColumns => 2
    case LooksGood => 3
  }

  /** More than this many columns draws the column-reduction advice. */
  const MaxColumns := 20

  /** `generate_recommendations(df)`, from `df.isnull().sum().sum()`,
      `df.duplicated().sum()` and `len(df.columns)`. */
  method GenerateRecommendations(t: TableStats) returns (recommendations: seq<Advice>)
    ensures HandleMissing in recommendations <==> t.missingCells > 0
    ensures RemoveDuplicates in recommendations <==> t.duplicateRows > 0
    ensures ReduceColumns in recommendations <==> t.columns > MaxColumns
    ensures LooksGood in recommendations <==> t.missingCells == 0 && t.duplicateRows == 0 && t.columns <= MaxColumns
    ensures LooksGood in recommendations ==> recommendations == [LooksGood]
    ensures 1 <= |recommendations| <= 3
    ensures forall i, j :: 0 <= i < j < |recommendations| ==> Rank(recommendations[i]) < Rank(recommendations[j])
  {
    recommendations := [];
    if t.missingCells > 0 {
      recommendations := recommendations + [HandleMissing];
    }
    if t.duplicateRows > 0 {
      recommendations := recommendations + [RemoveDuplicates];
    }
    if t.columns > MaxColumns {
      recommendations := recommendations + [ReduceColumns];
    }
    if recommendations == [] {
      recommendations := recommendations + [LooksGood];
    }
  }
}
