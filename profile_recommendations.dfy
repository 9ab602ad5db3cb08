/** `generate_recommendations(profile)` (backend/services/recommendation_engine.py),
    over the profile `profile_data` builds (backend/services/profiler.py):
    advice on missing values and duplicates, or a "clean" message. */
module ProfileRecommendations {
  import opened Stats

  datatype Advice = ConsiderMissing | RemoveDuplicates | LooksClean

  function Text(a: Advice): string
  {
    match a
    case ConsiderMissing => "Consider handling missing values."
    case RemoveDuplicates => "Remove duplicate rows."
    case LooksClean => "Dataset looks clean and reliable."
  }

  /** The position of each piece of advice in the source. */
  function Rank(a: Advice): nat
  {
    match a
    case ConsiderMissing => 0
    case RemoveDuplicates => 1
    case LooksClean => 2
  }

  /** `generate_recommendations(profile)`; `missingCells` and
      `duplicateRows` are `profile["missing_total"]` and
      `profile["duplicates"]`. */
  method GenerateRecommendations(profile: TableStats) returns (recommendations: seq<Advice>)
    ensures ConsiderMissing in recommendations <==> profile.missingCells > 0
    ensures RemoveDuplicates in recommendations <==> profile.duplicateRows > 0
    ensures LooksClean in recommendations <==> profile.missingCells == 0 && profile.duplicateRows == 0
    ensures LooksClean in recommendations ==> recommendations == [LooksClean]
    ensures 1 <= |recommendations| <= 2
    ensures ConsiderMissing in recommendations ==> recommendations[0] == ConsiderMissing
    ensures RemoveDuplicates in recommendations ==> recommendations[|recommendations| - 1] == RemoveDuplicates
    ensures forall i, j :: 0 <= i < j < |recommendations| ==> Rank(recommendations[i]) < Rank(recommendations[j])
  {
    recommendations := [];
    if profile.missingCells > 0 {
      recommendations := recommendations + [ConsiderMissing];
    }
    if profile.duplicateRows > 0 {
      recommendations := recommendations + [RemoveDuplicates];
    }
    if recommendations == [] {
      recommendations := recommendations + [LooksClean];
    }
  }
}
