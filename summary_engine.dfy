/** `SummaryEngine.generate` (backend/engines/summary_engine.py): the list
    of plain-language insights about a dataset, its analysis and a cleaning
    simulation. Each sentence is modelled by its kind. */
module SummaryEngine {
  import opened Wrappers
  import Simulate

  /** The profile fields read. */
  datatype Profile = Profile(rows: nat, columns: nat, qualityScore: real)

  /** The two simulation fields read; a simulation dictionary the caller
      passes always has both. */
  datatype SimulationScores = SimulationScores(scoreBefore: real, scoreAfter: real)

  /** The insight sentences, by kind. */
  datatype Insight =
    | Size(rows: nat, columns: nat)
    | InitialScore(score: real)
    | SignificantMissing
    | DuplicatesFound
    | HighOutliers
    | Improvement(delta: real)
    | SignificantImpact
    | SlightImpact
    | MinimalImpact
    | MlReady
    | ModeratelyReady
    | NeedsCleaning

  /** The section of the summary an insight belongs to: profile, analysis,
      simulation, readiness. */
  function Group(i: Insight): nat
  {
    match i
    case Size(_, _) => 0
    case InitialScore(_) => 0
    case SignificantMissing => 1
    case DuplicatesFound => 1
    case HighOutliers => 1
    case Improvement(_) => 2
    case SignificantImpact => 2
    case SlightImpact => 2
    case MinimalImpact => 2
    case MlReady => 3
    case ModeratelyReady => 3
    case NeedsCleaning => 3
  }

  predicate IsImpact(i: Insight)
  {
    i == SignificantImpact || i == SlightImpact || i == MinimalImpact
  }

  /** `analysis.get(key, 0)`. */
  function GetOrZero(analysis: map<string, real>, key: string): real
  {
    if key in analysis then analysis[key] else 0.0
  }

  /** The analysis dictionary is truthy: given and not empty. */
  predicate HasAnalysis(analysis: Option<map<string, real>>)
  {
    analysis.Some? && analysis.value != map[]
  }

  /** The score the readiness sentence is based on. */
  function FinalScore(profile: Profile, simulation: Option<SimulationScores>): real
  {
    if simulation.Some? then simulation.value.scoreAfter else profile.qualityScore
  }

  /** The readiness sentence for a score. */
  function ReadinessLine(score: real): (i: Insight)
    ensures i == MlReady <==> score > 85.0
    ensures i == ModeratelyReady <==> 70.0 < score <= 85.0
    ensures i == NeedsCleaning <==> score <= 70.0
  {
    if score > 85.0 then MlReady else if score > 70.0 then ModeratelyReady else NeedsCleaning
  }

  /** The impact sentence for an improvement. */
  function ImpactLine(improvement: real): (i: Insight)
    ensures i == SignificantImpact <==> improvement > 5.0
    ensures i == SlightImpact <==> 0.0 < improvement <= 5.0
    ensures i == MinimalImpact <==> improvement <= 0.0
  {
    if improvement > 5.0 then SignificantImpact else if improvement > 0.0 then SlightImpact else MinimalImpact
  }

  /** The analysis section: one sentence per threshold crossed, in the
      order missing, duplicates, outliers; nothing without an analysis. */
  function AnalysisSection(analysis: Option<map<string, real>>): (sec: seq<Insight>)
    ensures |sec| <= 3
    ensures forall i :: 0 <= i < |sec| ==> Group(sec[i]) == 1
    ensures SignificantMissing in sec <==>
              HasAnalysis(analysis) && GetOrZero(analysis.value, "missing_percentage") > 5.0
    ensures DuplicatesFound in sec <==>
              HasAnalysis(analysis) && GetOrZero(analysis.value, "duplicate_count") > 0.0
    ensures HighOutliers in sec <==>
              HasAnalysis(analysis) && GetOrZero(analysis.value, "outlier_percentage") > 5.0
  {
    if !HasAnalysis(analysis) then []
    else
      var a := analysis.value;
      (if GetOrZero(a, "missing_percentage") > 5.0 then [SignificantMissing] else [])
      + (if GetOrZero(a, "duplicate_count") > 0.0 then [DuplicatesFound] else [])
      + (if GetOrZero(a, "outlier_percentage") > 5.0 then [HighOutliers] else [])
  }

  /** The appends under `if analysis:`. */
  method AppendAnalysis(insights: seq<Insight>, analysis: Option<map<string, real>>) returns (out: seq<Insight>)
    ensures out == insights + AnalysisSection(analysis)
  {
    out := insights;
    if analysis.Some? && analysis.value != map[] {
      var a := analysis.value;
      if (if "missing_percentage" in a then a["missing_percentage"] else 0.0) > 5.0 {
        out := out + [SignificantMissing];
      }
      if (if "duplicate_count" in a then a["duplicate_count"] else 0.0) > 0.0 {
        out := out + [DuplicatesFound];
      }
      if (if "outlier_percentage" in a then a["outlier_percentage"] else 0.0) > 5.0 {
        out := out + [HighOutliers];
      }
    }
  }

  /** The simulation section: the improvement, then the one impact
      sentence that fits it; nothing without a simulation. */
  function SimulationSection(simulation: Option<SimulationScores>): (sec: seq<Insight>)
    ensures forall i :: 0 <= i < |sec| ==> Group(sec[i]) == 2
  {
    if simulation.None? then []
    else
      var delta := simulation.value.scoreAfter - simulation.value.scoreBefore;
      [Improvement(delta), ImpactLine(delta)]
  }

  /** The appends under `if simulation:`. */
  method AppendSimulation(insights: seq<Insight>, simulation: Option<SimulationScores>) returns (out: seq<Insight>)
    ensures out == insights + SimulationSection(simulation)
  {
    out := insights;
    if simulation.Some? {
      var improvement := simulation.value.scoreAfter - simulation.value.scoreBefore;
      out := out + [Improvement(improvement)];
      if improvement > 5.0 {
        out := out + [SignificantImpact];
      } else if improvement > 0.0 {
        out := out + [SlightImpact];
      } else {
        out := out + [MinimalImpact];
      }
    }
  }

  /** The readiness append: exactly one sentence, on the simulated score
      when there is one. */
  method AppendReadiness(insights: seq<Insight>, profile: Profile, simulation: Option<SimulationScores>)
    returns (out: seq<Insight>)
    ensures out == insights + [ReadinessLine(FinalScore(profile, simulation))]
  {
    var finalScore;
    if simulation.Some? {
      finalScore := simulation.value.scoreAfter;
    } else {
      finalScore := profile.qualityScore;
    }
    if finalScore > 85.0 {
      out := insights + [MlReady];
    } else if finalScore > 70.0 {
      out := insights + [ModeratelyReady];
    } else {
      out := insights + [NeedsCleaning];
    }
  }

  /** The whole summary: profile, analysis, simulation and readiness
      sections in that order. */
  function Summary(profile: Profile, analysis: Option<map<string, real>>, simulation: Option<SimulationScores>): seq<Insight>
  {
    [Size(profile.rows, profile.columns), InitialScore(profile.qualityScore)]
    + AnalysisSection(analysis) + SimulationSection(simulation)
    + [ReadinessLine(FinalScore(profile, simulation))]
  }

  /** `SummaryEngine.generate(profile, analysis, simulation)`. */
  method Generate(profile: Profile, analysis: Option<map<string, real>>, simulation: Option<SimulationScores>)
    returns (insights: seq<Insight>)
    ensures insights == Summary(profile, analysis, simulation)
  {
    insights := [];
    insights := insights + [Size(profile.rows, profile.columns)];
    insights := insights + [InitialScore(profile.qualityScore)];
    insights := AppendAnalysis(insights, analysis);
    insights := AppendSimulation(insights, simulation);
    insights := AppendReadiness(insights, profile, simulation);
  }

  /** Where each section sits in the summary. */
  lemma SummaryLayout(profile: Profile, analysis: Option<map<string, real>>, simulation: Option<SimulationScores>, i: nat)
    requires i < |Summary(profile, analysis, simulation)|
    ensures var s := Summary(profile, analysis, simulation);
            var a := AnalysisSection(analysis);
            var m := SimulationSection(simulation);
            && |s| == 3 + |a| + |m|
            && Group(s[i]) == (if i < 2 then 0 else if i < 2 + |a| then 1 else if i < 2 + |a| + |m| then 2 else 3)
            && (2 <= i < 2 + |a| ==> s[i] == a[i - 2])
            && (2 + |a| <= i < 2 + |a| + |m| ==> s[i] == m[i - 2 - |a|])
  {
    var p := [Size(profile.rows, profile.columns), InitialScore(profile.qualityScore)];
    var a := AnalysisSection(analysis);
    var m := SimulationSection(simulation);
    var r := [ReadinessLine(FinalScore(profile, simulation))];
    var s := p + a + m + r;
    if i < 2 {
      assert s[i] == p[i];
    } else if i < 2 + |a| {
      assert s[i] == a[i - 2];
    } else if i < 2 + |a| + |m| {
      assert s[i] == m[i - 2 - |a|];
    } else {
      assert s[i] == r[0];
    }
  }

  /** The summary opens with the two profile sentences, closes with the one
      readiness sentence, keeps its sections in order, and has 3 to 8
      sentences. */
  lemma SummaryOrder(profile: Profile, analysis: Option<map<string, real>>, simulation: Option<SimulationScores>)
    ensures var s := Summary(profile, analysis, simulation);
            && 3 <= |s| <= 8
            && s[0] == Size(profile.rows, profile.columns)
            && s[1] == InitialScore(profile.qualityScore)
            && s[|s| - 1] == ReadinessLine(FinalScore(profile, simulation))
            && (forall i :: 0 <= i < |s| - 1 ==> Group(s[i]) < 3)
            && (forall i, j :: 0 <= i < j < |s| ==> Group(s[i]) <= Group(s[j]))
  {
    var s := Summary(profile, analysis, simulation);
    forall i | 0 <= i < |s| {
      SummaryLayout(profile, analysis, simulation, i);
    }
  }

  /** Each analysis sentence is in the summary exactly when its threshold is
      crossed (an absent key counts as 0, an absent or empty analysis adds
      nothing). */
  lemma SummaryAnalysis(profile: Profile, analysis: Option<map<string, real>>, simulation: Option<SimulationScores>)
    ensures var s := Summary(profile, analysis, simulation);
            && (SignificantMissing in s <==>
                  HasAnalysis(analysis) && GetOrZero(analysis.value, "missing_percentage") > 5.0)
            && (DuplicatesFound in s <==>
                  HasAnalysis(analysis) && GetOrZero(analysis.value, "duplicate_count") > 0.0)
            && (HighOutliers in s <==>
                  HasAnalysis(analysis) && GetOrZero(analysis.value, "outlier_percentage") > 5.0)
  {
    var s := Summary(profile, analysis, simulation);
    var a := AnalysisSection(analysis);
    forall x | Group(x) == 1
      ensures x in s <==> x in a
    {
      if x in s {
        var i :| 0 <= i < |s| && s[i] == x;
        SummaryLayout(profile, analysis, simulation, i);
      }
      if x in a {
        var k :| 0 <= k < |a| && a[k] == x;
        SummaryLayout(profile, analysis, simulation, k + 2);
      }
    }
  }

  /** With a simulation the summary holds its improvement and, of the three
      impact sentences, exactly the one that fits it; without one it holds
      no simulation sentence. */
  lemma SummarySimulation(profile: Profile, analysis: Option<map<string, real>>, simulation: Option<SimulationScores>)
    ensures var s := Summary(profile, analysis, simulation);
            simulation.None? ==> forall i :: 0 <= i < |s| ==> Group(s[i]) != 2
    ensures var s := Summary(profile, analysis, simulation);
            simulation.Some? ==>
              var delta := simulation.value.scoreAfter - simulation.value.scoreBefore;
              && Improvement(delta) in s
              && forall i :: 0 <= i < |s| ==> (IsImpact(s[i]) <==> s[i] == ImpactLine(delta))
  {
    var s := Summary(profile, analysis, simulation);
    var a := AnalysisSection(analysis);
    forall i | 0 <= i < |s| {
      SummaryLayout(profile, analysis, simulation, i);
    }
    if simulation.Some? {
      SummaryLayout(profile, analysis, simulation, 2 + |a|);
    }
  }

  /** The summary's readiness thresholds (above 85, above 70) are not the
      simulation's bands (90, 75, 60): a score of 88 reads as ready for
      training here while the simulation calls it only Good. */
  lemma ThresholdsDifferFromBands()
    ensures ReadinessLine(88.0) == MlReady
    ensures Simulate.ReadinessOf(88.0) == Simulate.Good
  {
  }
}
