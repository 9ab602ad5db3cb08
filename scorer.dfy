/** `calculate_quality_score(profile)` (backend/services/scorer.py): a
    weighted score over completeness, duplicates and outliers, clamped to
    [0, 100], and the list of reasons behind it. */
module Scorer {
  import Stats

  /** The profile fields the scorer reads. */
  datatype Profile = Profile(
    rows: nat,
    columns: nat,
    completenessRatio: real,
    duplicateRows: nat,
    outlierCount: nat,
    missingValues: nat)

  /** The four reason sentences, as kinds. */
  datatype Reason = MissingValues | DuplicateRows | Outliers | Clean

  /** The position of each reason kind in the order the code appends them. */
  function Rank(r: Reason): nat
  {
    match r
    case MissingValues => 0
    case DuplicateRows => 1
    case Outliers => 2
    case Clean => 3
  }

  /** `duplicate_rows / rows`, or 0 for a table without rows. */
  function DuplicateRatio(p: Profile): (r: real)
    ensures p.rows == 0 ==> r == 0.0
    ensures p.rows > 0 ==> r * p.rows as real == p.duplicateRows as real
  {
    if p.rows > 0 then p.duplicateRows as real / p.rows as real else 0.0
  }

  /** `outlier_count / rows`, or 0 for a table without rows. */
  function OutlierRatio(p: Profile): (r: real)
    ensures p.rows == 0 ==> r == 0.0
    ensures p.rows > 0 ==> r * p.rows as real == p.outlierCount as real
  {
    if p.rows > 0 then p.outlierCount as real / p.rows as real else 0.0
  }

  /** The weighted score before clamping. */
  function WeightedScore(p: Profile): real
  {
    0.4 * (p.completenessRatio * 100.0)
    + 0.3 * ((1.0 - DuplicateRatio(p)) * 100.0)
    + 0.3 * ((1.0 - OutlierRatio(p)) * 100.0)
  }

  /** `calculate_quality_score(profile)`: the clamped score and the reasons,
      one per problem found, in a fixed order, or the single clean reason. */
  method CalculateQualityScore(p: Profile) returns (score: real, reasons: seq<Reason>)
    ensures 0.0 <= score <= 100.0
    ensures 0.0 <= WeightedScore(p) <= 100.0 ==> score == WeightedScore(p)
    ensures WeightedScore(p) > 100.0 ==> score == 100.0
    ensures WeightedScore(p) < 0.0 ==> score == 0.0
    ensures MissingValues in reasons <==> p.missingValues > 0
    ensures DuplicateRows in reasons <==> p.duplicateRows > 0
    ensures Outliers in reasons <==> p.outlierCount > 0
    ensures Clean in reasons <==> p.missingValues == 0 && p.duplicateRows == 0 && p.outlierCount == 0
    ensures |reasons| >= 1
    ensures forall i, j :: 0 <= i < j < |reasons| ==> Rank(reasons[i]) < Rank(reasons[j])
  {
    var completenessScore := p.completenessRatio * 100.0;
    var duplicateRatio := if p.rows > 0 then p.duplicateRows as real / p.rows as real else 0.0;
    var duplicateScore := (1.0 - duplicateRatio) * 100.0;
    var outlierRatio := if p.rows > 0 then p.outlierCount as real / p.rows as real else 0.0;
    var outlierScore := (1.0 - outlierRatio) * 100.0;
    var finalScore := 0.4 * completenessScore + 0.3 * duplicateScore + 0.3 * outlierScore;
    var capped := if finalScore < 100.0 then finalScore else 100.0;
    score := if 0.0 < capped then capped else 0.0;

    reasons := [];
    if p.missingValues > 0 {
      reasons := reasons + [MissingValues];
    }
    if p.duplicateRows > 0 {
      reasons := reasons + [DuplicateRows];
    }
    if p.outlierCount > 0 {
      reasons := reasons + [Outliers];
    }
    if |reasons| == 0 {
      reasons := reasons + [Clean];
    }
  }

  /** With no rows both ratios are 0, so the duplicate and outlier parts give
      their full 30 points each. */
  lemma NoRowsNoPenalty(p: Profile)
    requires p.rows == 0
    ensures WeightedScore(p) == 40.0 * p.completenessRatio + 60.0
  {
  }

  /** For a profile a real table can have (the completeness ratio in [0, 1],
      at most one duplicate and one outlier per row) the weighted score
      already lies in [0, 100], and a complete table without duplicates or
      outliers scores exactly 100. */
  lemma ScoreInRange(p: Profile)
    requires 0.0 <= p.completenessRatio <= 1.0
    requires p.duplicateRows <= p.rows && p.outlierCount <= p.rows
    ensures 0.0 <= WeightedScore(p) <= 100.0
    ensures p.completenessRatio == 1.0 && p.duplicateRows == 0 && p.outlierCount == 0 ==> WeightedScore(p) == 100.0
  {
    if p.rows > 0 {
      Stats.RatioBounds(p.duplicateRows, p.rows);
      Stats.RatioBounds(p.outlierCount, p.rows);
    }
  }
}
