/** `RecommendationService.generate(df)` (backend/services/recommendation_service.py):
    advice messages from the missing percentages, the skew of the numeric
    columns, the share of distinct values and a correlation flag, with a
    "healthy" message when there is nothing to say. */
module RecommendationService {
  import opened Wrappers
  import opened Stats
  import opened Seqs

  /** The messages, by kind; the text is an f-string over these fields. */
  datatype Message =
    | MissingMessage(column: string, pct: real)
    | SkewMessage(column: string)
    | IdentifierMessage(column: string)
    | CorrelationMessage
    | HealthyMessage

  /** `df[col].nunique() / total_rows` with no rows: Python's ZeroDivisionError. */
  datatype GenerateError = ZeroDivision

  /** The missing-percentage message for one column. The series division by
      zero rows gives NaN, which is never above 30. */
  function MissingItem(rows: nat): ColumnStats -> seq<Message>
  {
    (c: ColumnStats) =>
      if rows > 0 && c.missingRatio * 100.0 > 30.0 then [MissingMessage(c.name, c.missingRatio * 100.0)] else []
  }

  /** The skew message for one numeric column. */
  function SkewItem(c: ColumnStats): seq<Message>
  {
    if Abs(c.skew) > 1.0 then [SkewMessage(c.name)] else []
  }

  /** `df[col].nunique() / total_rows`. */
  function Uniqueness(c: ColumnStats, rows: nat): real
    requires rows > 0
  {
    c.distinct as real / rows as real
  }

  /** The identifier message for one column. The `rows > 0` guard only
      matters for a table without columns, where the loop never runs. */
  function IdentifierItem(rows: nat): ColumnStats -> seq<Message>
  {
    (c: ColumnStats) => if rows > 0 && Uniqueness(c, rows) > 0.95 then [IdentifierMessage(c.name)] else []
  }

  /** The correlation warning: more than one numeric column and
      `highCorrelation`, which says some entry of the absolute correlation
      matrix lies strictly between 0.85 and 1. */
  function CorrelationItem(cols: seq<ColumnStats>, highCorrelation: bool): seq<Message>
  {
    if |Filter(cols, IsNumeric)| > 1 && highCorrelation then [CorrelationMessage] else []
  }

  /** The messages before the fallback. */
  function Findings(rows: nat, cols: seq<ColumnStats>, highCorrelation: bool): seq<Message>
  {
    FlatMap(cols, MissingItem(rows)) + FlatMap(Filter(cols, IsNumeric), SkewItem)
    + FlatMap(cols, IdentifierItem(rows)) + CorrelationItem(cols, highCorrelation)
  }

  /** What `generate` returns. */
  function Generation(rows: nat, cols: seq<ColumnStats>, highCorrelation: bool): (r: Result<seq<Message>, GenerateError>)
    ensures r.Err? <==> rows == 0 && |cols| > 0
    ensures r.Ok? ==> |r.value| >= 1
  {
    if rows == 0 && |cols| > 0 then Err(ZeroDivision)
    else
      var findings := Findings(rows, cols, highCorrelation);
      Ok(if findings == [] then [HealthyMessage] else findings)
  }

  /** `RecommendationService.generate(df)`. */
  method Generate(rows: nat, cols: seq<ColumnStats>, highCorrelation: bool) returns (r: Result<seq<Message>, GenerateError>)
    ensures r == Generation(rows, cols, highCorrelation)
  {
    var recommendations := MissingLoop(rows, cols);
    var numericCols := Filter(cols, IsNumeric);
    recommendations := SkewLoop(numericCols, recommendations);
    r := IdentifierLoop(rows, cols, recommendations);
    if r.Err? {
      return;
    }
    recommendations := r.value;
    assert recommendations == FlatMap(cols, MissingItem(rows)) + FlatMap(numericCols, SkewItem) + FlatMap(cols, IdentifierItem(rows));
    if |numericCols| > 1 {
      if highCorrelation {
        recommendations := recommendations + [CorrelationMessage];
      }
    }
    assert recommendations == Findings(rows, cols, highCorrelation);
    if recommendations == [] {
      recommendations := recommendations + [HealthyMessage];
      assert recommendations == [HealthyMessage];
    }
    r := Ok(recommendations);
  }

  /** The loop over `missing_pct.items()`. */
  method MissingLoop(rows: nat, cols: seq<ColumnStats>) returns (out: seq<Message>)
    ensures out == FlatMap(cols, MissingItem(rows))
  {
    out := [];
    for i := 0 to |cols|
      invariant out == FlatMap(cols[..i], MissingItem(rows))
    {
      if rows > 0 {
        var pct := cols[i].missingRatio * 100.0;
        if pct > 30.0 {
          out := out + [MissingMessage(cols[i].name, pct)];
        }
      }
      FlatMapSnoc(cols, i, MissingItem(rows));
    }
    assert cols[..|cols|] == cols;
  }

  /** The loop over the numeric columns. */
  method SkewLoop(numericCols: seq<ColumnStats>, recommendations: seq<Message>) returns (out: seq<Message>)
    ensures out == recommendations + FlatMap(numericCols, SkewItem)
  {
    out := recommendations;
    for i := 0 to |numericCols|
      invariant out == recommendations + FlatMap(numericCols[..i], SkewItem)
    {
      if Abs(numericCols[i].skew) > 1.0 {
        out := out + [SkewMessage(numericCols[i].name)];
      }
      FlatMapSnoc(numericCols, i, SkewItem);
    }
    assert numericCols[..|numericCols|] == numericCols;
  }

  /** The uniqueness loop, which raises on its first column when the table
      has no rows. */
  method IdentifierLoop(rows: nat, cols: seq<ColumnStats>, recommendations: seq<Message>)
    returns (r: Result<seq<Message>, GenerateError>)
    ensures r.Err? <==> rows == 0 && |cols| > 0
    ensures r.Err? ==> r == Err(ZeroDivision)
    ensures r.Ok? ==> r.value == recommendations + FlatMap(cols, IdentifierItem(rows))
  {
    var out := recommendations;
    for i := 0 to |cols|
      invariant out == recommendations + FlatMap(cols[..i], IdentifierItem(rows))
      invariant i > 0 ==> rows > 0
    {
      if rows == 0 {
        return Err(ZeroDivision);
      }
      var uniqueness := cols[i].distinct as real / rows as real;
      if uniqueness > 0.95 {
        out := out + [IdentifierMessage(cols[i].name)];
      }
      FlatMapSnoc(cols, i, IdentifierItem(rows));
    }
    assert cols[..|cols|] == cols;
    r := Ok(out);
  }

  /** The kind of a message, in the order the blocks run. */
  function Kind(m: Message): int
  {
    match m
    case MissingMessage(_, _) => 0
    case SkewMessage(_) => 1
    case IdentifierMessage(_) => 2
    case CorrelationMessage => 3
    case HealthyMessage => 4
  }

  /** Each block's run holds only that block's messages. */
  lemma KindsOfRuns(rows: nat, cols: seq<ColumnStats>)
    ensures forall m :: m in FlatMap(cols, MissingItem(rows)) ==> Kind(m) == 0
    ensures forall m :: m in FlatMap(Filter(cols, IsNumeric), SkewItem) ==> Kind(m) == 1
    ensures forall m :: m in FlatMap(cols, IdentifierItem(rows)) ==> Kind(m) == 2
  {
    forall m | m in FlatMap(cols, MissingItem(rows)) ensures Kind(m) == 0 {
      FlatMapMember(cols, MissingItem(rows), m);
    }
    forall m | m in FlatMap(Filter(cols, IsNumeric), SkewItem) ensures Kind(m) == 1 {
      FlatMapMember(Filter(cols, IsNumeric), SkewItem, m);
    }
    forall m | m in FlatMap(cols, IdentifierItem(rows)) ensures Kind(m) == 2 {
      FlatMapMember(cols, IdentifierItem(rows), m);
    }
  }

  /** A message is among the findings iff it is in the run of its own
      block; the healthy message never is. */
  lemma InOwnBlock(rows: nat, cols: seq<ColumnStats>, highCorrelation: bool, m: Message)
    ensures m in Findings(rows, cols, highCorrelation) <==>
            (Kind(m) == 0 && m in FlatMap(cols, MissingItem(rows)))
            || (Kind(m) == 1 && m in FlatMap(Filter(cols, IsNumeric), SkewItem))
            || (Kind(m) == 2 && m in FlatMap(cols, IdentifierItem(rows)))
            || (Kind(m) == 3 && m in CorrelationItem(cols, highCorrelation))
  {
    KindsOfRuns(rows, cols);
  }

  /** A missing message for each column with more than 30% missing, naming
      that percentage. */
  lemma MissingMembers(rows: nat, cols: seq<ColumnStats>, highCorrelation: bool, m: Message)
    requires rows > 0
    ensures m in Findings(rows, cols, highCorrelation) && m.MissingMessage? <==>
              exists i :: 0 <= i < |cols| && cols[i].missingRatio * 100.0 > 30.0 &&
                m == MissingMessage(cols[i].name, cols[i].missingRatio * 100.0)
  {
    InOwnBlock(rows, cols, highCorrelation, m);
    FlatMapMember(cols, MissingItem(rows), m);
  }

  /** A skew message for each numeric column whose skew exceeds 1 in
      absolute value. */
  lemma SkewMembers(rows: nat, cols: seq<ColumnStats>, highCorrelation: bool, m: Message)
    ensures m in Findings(rows, cols, highCorrelation) && m.SkewMessage? <==>
              exists i :: 0 <= i < |cols| && cols[i].numeric && Abs(cols[i].skew) > 1.0 &&
                m == SkewMessage(cols[i].name)
  {
    InOwnBlock(rows, cols, highCorrelation, m);
    FlatMapFilterMember(cols, IsNumeric, SkewItem, m);
    if exists i :: 0 <= i < |cols| && IsNumeric(cols[i]) && m in SkewItem(cols[i]) {
      var i :| 0 <= i < |cols| && IsNumeric(cols[i]) && m in SkewItem(cols[i]);
      assert m == SkewMessage(cols[i].name);
    }
    if exists i :: 0 <= i < |cols| && cols[i].numeric && Abs(cols[i].skew) > 1.0 && m == SkewMessage(cols[i].name) {
      var i :| 0 <= i < |cols| && cols[i].numeric && Abs(cols[i].skew) > 1.0 && m == SkewMessage(cols[i].name);
      assert IsNumeric(cols[i]) && m in SkewItem(cols[i]);
    }
  }

  /** An identifier message for each column whose distinct share exceeds
      0.95. */
  lemma IdentifierMembers(rows: nat, cols: seq<ColumnStats>, highCorrelation: bool, m: Message)
    requires rows > 0
    ensures m in Findings(rows, cols, highCorrelation) && m.IdentifierMessage? <==>
              exists i :: 0 <= i < |cols| && Uniqueness(cols[i], rows) > 0.95 &&
                m == IdentifierMessage(cols[i].name)
  {
    InOwnBlock(rows, cols, highCorrelation, m);
    FlatMapMember(cols, IdentifierItem(rows), m);
  }

  /** No column meets any rule and the correlation warning does not fire. */
  predicate NothingFires(rows: nat, cols: seq<ColumnStats>, highCorrelation: bool)
    requires rows > 0
  {
    (forall i :: 0 <= i < |cols| ==>
       cols[i].missingRatio * 100.0 <= 30.0 && !(cols[i].numeric && Abs(cols[i].skew) > 1.0)
       && Uniqueness(cols[i], rows) <= 0.95)
    && !(|Filter(cols, IsNumeric)| > 1 && highCorrelation)
  }

  /** The healthy message is the whole answer exactly when no column meets
      any rule and the correlation warning does not fire. */
  lemma HealthyIffNothingElse(rows: nat, cols: seq<ColumnStats>, highCorrelation: bool)
    requires rows > 0
    ensures var out := Generation(rows, cols, highCorrelation).value;
            (HealthyMessage in out <==> out == [HealthyMessage])
            && (out == [HealthyMessage] <==> NothingFires(rows, cols, highCorrelation))
  {
    var findings := Findings(rows, cols, highCorrelation);
    InOwnBlock(rows, cols, highCorrelation, HealthyMessage);
    Fallback(findings);
    if findings != [] {
      FindingBreaksRule(rows, cols, highCorrelation, findings[0]);
    } else {
      NoFindingNoRule(rows, cols, highCorrelation);
    }
  }

  /** The fallback stands alone, and only when there are no findings. */
  lemma Fallback(findings: seq<Message>)
    requires HealthyMessage !in findings
    ensures var out := if findings == [] then [HealthyMessage] else findings;
            (HealthyMessage in out <==> out == [HealthyMessage])
            && (out == [HealthyMessage] <==> findings == [])
  {
  }

  /** Any finding is evidence of a rule that fires. */
  lemma FindingBreaksRule(rows: nat, cols: seq<ColumnStats>, highCorrelation: bool, m: Message)
    requires rows > 0
    requires m in Findings(rows, cols, highCorrelation)
    ensures !NothingFires(rows, cols, highCorrelation)
  {
    InOwnBlock(rows, cols, highCorrelation, m);
    if m.MissingMessage? {
      MissingMembers(rows, cols, highCorrelation, m);
      var i :| 0 <= i < |cols| && cols[i].missingRatio * 100.0 > 30.0 &&
               m == MissingMessage(cols[i].name, cols[i].missingRatio * 100.0);
    } else if m.SkewMessage? {
      SkewMembers(rows, cols, highCorrelation, m);
      var i :| 0 <= i < |cols| && cols[i].numeric && Abs(cols[i].skew) > 1.0 && m == SkewMessage(cols[i].name);
    } else if m.IdentifierMessage? {
      IdentifierMembers(rows, cols, highCorrelation, m);
      var i :| 0 <= i < |cols| && Uniqueness(cols[i], rows) > 0.95 && m == IdentifierMessage(cols[i].name);
    }
  }

  /** Without findings, no rule fires. */
  lemma NoFindingNoRule(rows: nat, cols: seq<ColumnStats>, highCorrelation: bool)
    requires rows > 0
    requires Findings(rows, cols, highCorrelation) == []
    ensures NothingFires(rows, cols, highCorrelation)
  {
    forall i | 0 <= i < |cols|
      ensures cols[i].missingRatio * 100.0 <= 30.0 && !(cols[i].numeric && Abs(cols[i].skew) > 1.0)
              && Uniqueness(cols[i], rows) <= 0.95
    {
      MissingMembers(rows, cols, highCorrelation, MissingMessage(cols[i].name, cols[i].missingRatio * 100.0));
      SkewMembers(rows, cols, highCorrelation, SkewMessage(cols[i].name));
      IdentifierMembers(rows, cols, highCorrelation, IdentifierMessage(cols[i].name));
    }
    InOwnBlock(rows, cols, highCorrelation, CorrelationMessage);
  }

  /** A run whose messages are all of one kind is ordered by kind. */
  lemma OneKind(s: seq<Message>, k: int)
    requires forall m :: m in s ==> Kind(m) == k
    ensures Ordered(s, Kind) && KeysWithin(s, Kind, k, k)
  {
    forall i | 0 <= i < |s| ensures Kind(s[i]) == k {
      assert s[i] in s;
    }
    forall i, j | 0 <= i < j < |s| ensures Kind(s[i]) <= Kind(s[j]) {
      assert s[i] in s && s[j] in s;
    }
  }

  /** Missing messages come first, then skew, then identifier, then the
      correlation warning. */
  lemma FindingsOrder(rows: nat, cols: seq<ColumnStats>, highCorrelation: bool)
    ensures Ordered(Findings(rows, cols, highCorrelation), Kind)
  {
    var a := FlatMap(cols, MissingItem(rows));
    var b := FlatMap(Filter(cols, IsNumeric), SkewItem);
    var c := FlatMap(cols, IdentifierItem(rows));
    var d := CorrelationItem(cols, highCorrelation);
    KindsOfRuns(rows, cols);
    OneKind(a, 0);
    OneKind(b, 1);
    OneKind(c, 2);
    OneKind(d, 3);
    OrderedJoin(a, b, Kind, 0, 1, 1);
    OrderedJoin(a + b, c, Kind, 0, 2, 2);
    OrderedJoin(a + b + c, d, Kind, 0, 3, 3);
  }

  /** The correlation warning appears iff there is more than one numeric
      column and the flag is set, and then once, as the last message. */
  lemma CorrelationLast(rows: nat, cols: seq<ColumnStats>, highCorrelation: bool)
    ensures var findings := Findings(rows, cols, highCorrelation);
            (CorrelationMessage in findings <==> |Filter(cols, IsNumeric)| > 1 && highCorrelation)
            && forall k :: 0 <= k < |findings| && findings[k] == CorrelationMessage ==> k == |findings| - 1
  {
    var front := FlatMap(cols, MissingItem(rows)) + FlatMap(Filter(cols, IsNumeric), SkewItem)
                 + FlatMap(cols, IdentifierItem(rows));
    var findings := Findings(rows, cols, highCorrelation);
    assert findings == front + CorrelationItem(cols, highCorrelation);
    InOwnBlock(rows, cols, highCorrelation, CorrelationMessage);
    KindsOfRuns(rows, cols);
    forall k | 0 <= k < |front| ensures findings[k] != CorrelationMessage {
      assert findings[k] == front[k];
      assert front[k] in front;
    }
  }
}
