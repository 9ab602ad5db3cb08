/** `ScoringEngine.calculate_score` (backend/engines/scoring_engine.py): a
    weighted penalty score, capped at 99 and floored at 0. */
module ScoringEngine {

  /** The weighted formula before the caps. */
  function RawScore(missingPct: real, duplicatePct: real, outlierPct: real): real
  {
    100.0 - missingPct * 0.4 - duplicatePct * 0.3 - outlierPct * 0.3
  }

  /** `calculate_score(missing_pct, duplicate_pct, outlier_pct)`. */
  function CalculateScore(missingPct: real, duplicatePct: real, outlierPct: real): (score: real)
    ensures 0.0 <= score <= 99.0
    ensures var raw := RawScore(missingPct, duplicatePct, outlierPct);
            (0.0 <= raw <= 99.0 ==> score == raw)
            && (raw > 99.0 ==> score == 99.0)
            && (raw < 0.0 ==> score == 0.0)
  {
    var raw := RawScore(missingPct, duplicatePct, outlierPct);
    var capped := if raw > 99.0 then 99.0 else raw;
    if capped < 0.0 then 0.0 else capped
  }

  /** A clean table scores 99, not 100. */
  lemma CleanTableScores99()
    ensures CalculateScore(0.0, 0.0, 0.0) == 99.0
  {
  }

  /** The score never rises when any penalty percentage rises. */
  lemma ScoreMonotone(m1: real, d1: real, o1: real, m2: real, d2: real, o2: real)
    requires m1 <= m2 && d1 <= d2 && o1 <= o2
    ensures CalculateScore(m2, d2, o2) <= CalculateScore(m1, d1, o1)
  {
    assert RawScore(m2, d2, o2) <= RawScore(m1, d1, o1);
  }

  /** With every percentage in [0, 100] the raw value is at least 0, so only
      the cap at 99 can apply. */
  lemma PercentagesNeverFloor(m: real, d: real, o: real)
    requires 0.0 <= m <= 100.0 && 0.0 <= d <= 100.0 && 0.0 <= o <= 100.0
    ensures CalculateScore(m, d, o) == if RawScore(m, d, o) > 99.0 then 99.0 else RawScore(m, d, o)
  {
  }
}
