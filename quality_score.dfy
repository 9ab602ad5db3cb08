/** `compute_quality_score` (backend/services/scoring_engine.py): the
    weighted average of the completeness, uniqueness and validity metrics,
    each clamped to [0, 100]. */
module QualityScore {
  import opened Wrappers
  import QualityMetrics
  import opened Stats

  /** A metrics dictionary: each key present with its value, which may be
      None. */
  type MetricsDict = map<string, Option<real>>

  /** The weights, in the order the loop visits them. */
  const Weights: seq<(string, real)> := [("completeness", 0.4), ("uniqueness", 0.3), ("validity", 0.3)]

  /** What one metric contributes before weighting: 0 when the key is absent
      or its value is None, otherwise the value clamped to [0, 100]. */
  function MetricValue(metrics: MetricsDict, name: string): (v: real)
    ensures 0.0 <= v <= 100.0
    ensures name !in metrics || metrics[name].None? ==> v == 0.0
    ensures name in metrics && metrics[name].Some? && 0.0 <= metrics[name].value <= 100.0 ==>
              v == metrics[name].value
  {
    var raw := if name in metrics then metrics[name].GetOr(0.0) else 0.0;
    if raw > 100.0 then 100.0 else if raw < 0.0 then 0.0 else raw
  }

  /** The sum of weight times value over `weights`. */
  function WeightedSum(metrics: MetricsDict, weights: seq<(string, real)>): real
  {
    if weights == [] then 0.0
    else
      var last := weights[|weights| - 1];
      WeightedSum(metrics, weights[..|weights| - 1]) + MetricValue(metrics, last.0) * last.1
  }

  /** The sum of the weights. */
  function WeightSum(weights: seq<(string, real)>): real
  {
    if weights == [] then 0.0 else WeightSum(weights[..|weights| - 1]) + weights[|weights| - 1].1
  }

  /** The loop of `compute_quality_score` over a list of weights, with its
      guard against a zero total weight. */
  method WeightedAverage(metrics: MetricsDict, weights: seq<(string, real)>) returns (score: real)
    ensures score == if WeightSum(weights) == 0.0 then 0.0 else WeightedSum(metrics, weights) / WeightSum(weights)
  {
    var totalScore := 0.0;
    var totalWeight := 0.0;
    var i := 0;
    while i < |weights|
      invariant 0 <= i <= |weights|
      invariant totalScore == WeightedSum(metrics, weights[..i])
      invariant totalWeight == WeightSum(weights[..i])
    {
      var (name, weight) := weights[i];
      var value := if name in metrics then metrics[name] else Some(0.0);
      var number := if value.None? then 0.0 else value.value;
      number := if number > 100.0 then 100.0 else if number < 0.0 then 0.0 else number;
      totalScore := totalScore + number * weight;
      totalWeight := totalWeight + weight;
      assert weights[..i + 1][..i] == weights[..i];
      i := i + 1;
    }
    assert weights[..i] == weights;
    if totalWeight == 0.0 {
      return 0.0;
    }
    score := totalScore / totalWeight;
  }

  /** The score the function promises: 0 for a missing or empty dictionary,
      otherwise (0.4 c + 0.3 u + 0.3 v) / (0.4 + 0.3 + 0.3) over the clamped
      metric values. */
  function ExpectedScore(metrics: Option<MetricsDict>): real
  {
    if metrics.None? || metrics.value == map[] then 0.0
    else
      var m := metrics.value;
      (0.4 * MetricValue(m, "completeness") + 0.3 * MetricValue(m, "uniqueness") + 0.3 * MetricValue(m, "validity"))
        / (0.4 + 0.3 + 0.3)
  }

  lemma WeightsSums(metrics: MetricsDict)
    ensures WeightSum(Weights) == 1.0
    ensures WeightedSum(metrics, Weights) ==
              0.4 * MetricValue(metrics, "completeness") + 0.3 * MetricValue(metrics, "uniqueness")
              + 0.3 * MetricValue(metrics, "validity")
  {
    var w0, w1 := [("completeness", 0.4)], [("completeness", 0.4), ("uniqueness", 0.3)];
    assert |Weights| == 3 && Weights[..2] == w1;
    assert w1[..1] == w0 && w0[..0] == [];
    assert WeightSum(w0) == 0.4;
    assert WeightSum(w1) == 0.7;
    assert WeightedSum(metrics, w0) == MetricValue(metrics, "completeness") * 0.4;
    assert WeightedSum(metrics, w1) == WeightedSum(metrics, w0) + MetricValue(metrics, "uniqueness") * 0.3;
  }

  /** `compute_quality_score(metrics)`. */
  method ComputeQualityScore(metrics: Option<MetricsDict>) returns (score: real)
    ensures score == ExpectedScore(metrics)
    ensures 0.0 <= score <= 100.0
  {
    if metrics.None? || |metrics.value| == 0 {
      return 0.0;
    }
    score := WeightedAverage(metrics.value, Weights);
    WeightsSums(metrics.value);
  }

  /** Keys other than the three metrics never change the score: two
      dictionaries that agree on those three keys score the same (an empty
      dictionary and one without the three keys both score 0). */
  lemma OtherKeysIgnored(m1: MetricsDict, m2: MetricsDict)
    requires forall k :: k in {"completeness", "uniqueness", "validity"} ==>
               (k in m1 <==> k in m2) && (k in m1 ==> m1[k] == m2[k])
    ensures ExpectedScore(Some(m1)) == ExpectedScore(Some(m2))
  {
    assert "completeness" in {"completeness", "uniqueness", "validity"};
    assert "uniqueness" in {"completeness", "uniqueness", "validity"};
    assert "validity" in {"completeness", "uniqueness", "validity"};
  }

  /** The metrics dictionary `compute_quality_metrics` produces. */
  function AsDict(m: QualityMetrics.Metrics): MetricsDict
  {
    map["completeness" := Some(m.completeness), "uniqueness" := Some(m.uniqueness), "validity" := Some(m.validity)]
  }

  /** Across the two files: the score of a consistent table's metrics is
      0.4 completeness + 0.3 uniqueness + 30, so a table with rows, columns,
      no missing cell and no duplicate scores 100. */
  lemma ScoreOfTableMetrics(t: TableStats)
    requires Consistent(t)
    ensures ExpectedScore(Some(AsDict(QualityMetrics.ComputeQualityMetrics(t)))) ==
              0.4 * QualityMetrics.CalculateCompleteness(t) + 0.3 * QualityMetrics.CalculateUniqueness(t) + 30.0
    ensures t.rows > 0 && t.columns > 0 && t.missingCells == 0 && t.duplicateRows == 0 ==>
              ExpectedScore(Some(AsDict(QualityMetrics.ComputeQualityMetrics(t)))) == 100.0
  {
    QualityMetrics.MetricsAgreeWithEngines(t);
    QualityMetrics.PercentagesBounded(t);
    var d := AsDict(QualityMetrics.ComputeQualityMetrics(t));
    assert "completeness" in d;
  }
}
