/**
 * The rule engine: an ordered list of threshold rules classifies a score pair; the first
 * rule whose thresholds all hold wins, otherwise the machine's default rule is used.
 */
module StateMachine {
  import opened Wrappers
  import opened Schemas

  datatype Threshold = Threshold(metric: string, operator: string, value: real)

  datatype StateResponse = StateResponse(subtitle: string, tip: string, ttsText: string, stateId: string)

  datatype StateRule = StateRule(id: string, name: string, thresholds: seq<Threshold>, isDefault: bool, response: StateResponse)

  /** A constructed machine: its rules in configured order and the rule used when none matches. */
  datatype Machine = Machine(rules: seq<StateRule>, default: StateRule)

  datatype EngineError =
    | NoRules                          // `rules[-1]` on an empty list
    | UnsupportedOperator(op: string)  // `ValueError` from the comparison

  /** The comparison an operator spelling denotes. */
  datatype Operator = AtLeast | Above | AtMost | Below | Equal | NotEqual

  /** Absolute tolerance of the equality operators. */
  const Tolerance: real := 0.000001

  function Abs(x: real): real { if x < 0.0 then -x else x }

  // ---------------------------------------------------------------- construction

  /** Index of the first rule flagged default, or of the last rule when none is flagged. */
  function DefaultIndex(rules: seq<StateRule>): (k: nat)
    requires |rules| > 0
    ensures k < |rules|
    ensures rules[k].isDefault ==> forall j :: 0 <= j < k ==> !rules[j].isDefault
    ensures !rules[k].isDefault ==> k == |rules| - 1 && forall j :: 0 <= j < |rules| ==> !rules[j].isDefault
  {
    FirstDefaultFrom(rules, 0)
  }

  function FirstDefaultFrom(rules: seq<StateRule>, i: nat): (k: nat)
    requires i < |rules|
    ensures i <= k < |rules|
    ensures forall j :: i <= j < k ==> !rules[j].isDefault
    ensures !rules[k].isDefault ==> k == |rules| - 1
    decreases |rules| - i
  {
    if rules[i].isDefault || i == |rules| - 1 then i else FirstDefaultFrom(rules, i + 1)
  }

  /** `StateMachine(rules)`: an empty rule list cannot build a machine. */
  function NewMachine(rules: seq<StateRule>): (r: Result<Machine, EngineError>)
    ensures r.Err? <==> rules == []
    ensures r.Ok? ==> r.value.rules == rules && r.value.default == rules[DefaultIndex(rules)]
  {
    if rules == [] then Err(NoRules) else Ok(Machine(rules, rules[DefaultIndex(rules)]))
  }

  // ---------------------------------------------------------------- comparisons

  /** The operator an accepted spelling denotes; any other spelling denotes none. */
  function ParseOperator(op: string): Option<Operator> {
    if op == ">=" || op == "gte" then Some(AtLeast)
    else if op == ">" || op == "gt" then Some(Above)
    else if op == "<=" || op == "lte" then Some(AtMost)
    else if op == "<" || op == "lt" then Some(Below)
    else if op == "==" || op == "eq" then Some(Equal)
    else if op == "!=" || op == "ne" then Some(NotEqual)
    else None
  }

  /** What `metric <op> expected` means. */
  function Holds(op: Operator, metric: real, expected: real): bool {
    match op
    case AtLeast => metric >= expected
    case Above => metric > expected
    case AtMost => metric <= expected
    case Below => metric < expected
    case Equal => Abs(metric - expected) <= Tolerance
    case NotEqual => Abs(metric - expected) > Tolerance
  }

  /** `_compare`: the spelling-by-spelling operator dispatch. */
  function Compare(metric: real, op: string, expected: real): (r: Result<bool, EngineError>)
    ensures r.Err? <==> ParseOperator(op).None?
    ensures r.Err? ==> r.error == UnsupportedOperator(op)
    ensures r.Ok? ==> r.value == Holds(ParseOperator(op).value, metric, expected)
  {
    if op == ">=" || op == "gte" then Ok(metric >= expected)
    else if op == ">" || op == "gt" then Ok(metric > expected)
    else if op == "<=" || op == "lte" then Ok(metric <= expected)
    else if op == "<" || op == "lt" then Ok(metric < expected)
    else if op == "==" || op == "eq" then Ok(Abs(metric - expected) <= Tolerance)
    else if op == "!=" || op == "ne" then Ok(Abs(metric - expected) > Tolerance)
    else Err(UnsupportedOperator(op))
  }

  /** The symbolic and the word spelling of an operator compare identically. */
  lemma AliasesAgree(metric: real, expected: real)
    ensures Compare(metric, ">=", expected) == Compare(metric, "gte", expected)
    ensures Compare(metric, ">", expected) == Compare(metric, "gt", expected)
    ensures Compare(metric, "<=", expected) == Compare(metric, "lte", expected)
    ensures Compare(metric, "<", expected) == Compare(metric, "lt", expected)
    ensures Compare(metric, "==", expected) == Compare(metric, "eq", expected)
    ensures Compare(metric, "!=", expected) == Compare(metric, "ne", expected)
  {
  }

  /** Equality is within 1e-6, and inequality is exactly its complement. */
  lemma EqualityWithinTolerance(metric: real, expected: real)
    ensures Compare(metric, "==", expected) == Ok(-0.000001 <= metric - expected <= 0.000001)
    ensures Compare(metric, "!=", expected) == Ok(!Compare(metric, "==", expected).value)
  {
  }

  // ---------------------------------------------------------------- matching

  /** `getattr(scores, metric, None)` for the two score fields; every other name is treated as absent. */
  function MetricValue(scores: CoachingScore, metric: string): (r: Option<real>)
    ensures r.Some? <==> metric == "confidence" || metric == "anxiety"
  {
    if metric == "confidence" then Some(scores.confidence)
    else if metric == "anxiety" then Some(scores.anxiety)
    else None
  }

  /** The threshold names a score field and its comparison succeeds. */
  ghost predicate ThresholdHolds(t: Threshold, scores: CoachingScore) {
    && MetricValue(scores, t.metric).Some?
    && ParseOperator(t.operator).Some?
    && Holds(ParseOperator(t.operator).value, MetricValue(scores, t.metric).value, t.value)
  }

  /** The scan reaches threshold `k` (all before it hold) and its operator is unsupported. */
  ghost predicate FailsOnOperatorAt(ts: seq<Threshold>, scores: CoachingScore, k: nat) {
    && k < |ts|
    && (forall j :: 0 <= j < k ==> ThresholdHolds(ts[j], scores))
    && MetricValue(scores, ts[k].metric).Some?
    && ParseOperator(ts[k].operator).None?
  }

  /**
   * `_rule_matches`: the thresholds are checked in order; an unknown metric or a failed
   * comparison stops the scan with no match, and an unsupported operator raises only
   * when the scan reaches it.
   */
  function RuleMatches(ts: seq<Threshold>, scores: CoachingScore): (r: Result<bool, EngineError>)
    ensures r == Ok(true) <==> forall i :: 0 <= i < |ts| ==> ThresholdHolds(ts[i], scores)
    ensures r.Err? <==> exists k: nat :: FailsOnOperatorAt(ts, scores, k)
    decreases |ts|
  {
    if ts == [] then Ok(true)
    else
      var rest := RuleMatches(ts[1..], scores);
      RuleMatchesStep(ts, scores);
      match MetricValue(scores, ts[0].metric)
      case None => Ok(false)
      case Some(m) =>
        match Compare(m, ts[0].operator, ts[0].value)
        case Err(e) => Err(e)
        case Ok(holds) => if holds then rest else Ok(false)
  }

  /** How the first threshold and the rest of the list decide the two predicates above. */
  lemma RuleMatchesStep(ts: seq<Threshold>, scores: CoachingScore)
    requires ts != []
    ensures (forall i :: 0 <= i < |ts| ==> ThresholdHolds(ts[i], scores))
            <==> ThresholdHolds(ts[0], scores) && forall i :: 0 <= i < |ts| - 1 ==> ThresholdHolds(ts[1..][i], scores)
    ensures (exists k: nat :: FailsOnOperatorAt(ts, scores, k))
            <==> (MetricValue(scores, ts[0].metric).Some? && ParseOperator(ts[0].operator).None?)
                 || (ThresholdHolds(ts[0], scores) && exists k: nat :: FailsOnOperatorAt(ts[1..], scores, k))
  {
    if exists k: nat :: FailsOnOperatorAt(ts, scores, k) {
      var k: nat :| FailsOnOperatorAt(ts, scores, k);
      if k > 0 {
        assert FailsOnOperatorAt(ts[1..], scores, k - 1);
      }
    }
    if ThresholdHolds(ts[0], scores) && exists k: nat :: FailsOnOperatorAt(ts[1..], scores, k) {
      var k: nat :| FailsOnOperatorAt(ts[1..], scores, k);
      assert FailsOnOperatorAt(ts, scores, k + 1);
    }
    if MetricValue(scores, ts[0].metric).Some? && ParseOperator(ts[0].operator).None? {
      assert FailsOnOperatorAt(ts, scores, 0);
    }
  }

  /** A rule without thresholds matches every score (the AND of nothing holds). */
  lemma EmptyThresholdsMatch(scores: CoachingScore)
    ensures RuleMatches([], scores) == Ok(true)
  {
  }

  /** A threshold on a metric the score lacks makes its rule fail to match, even if a later threshold is malformed. */
  lemma UnknownMetricNeverMatches(ts: seq<Threshold>, scores: CoachingScore, k: nat)
    requires k < |ts|
    requires MetricValue(scores, ts[k].metric).None?
    requires forall j :: 0 <= j < k ==> ThresholdHolds(ts[j], scores)
    ensures RuleMatches(ts, scores) == Ok(false)
  {
    assert !ThresholdHolds(ts[k], scores);
    forall k': nat
      ensures !FailsOnOperatorAt(ts, scores, k')
    {
      if k' < k {
        assert ThresholdHolds(ts[k'], scores);
      }
    }
    var r := RuleMatches(ts, scores);
    assert !r.Err? && r != Ok(true);
    assert r.value == false;
    assert r == Ok(false);
  }

  // ---------------------------------------------------------------- selection

  /**
   * Scan from rule `from`: the index of the first matching rule, `|rules|` when none
   * matches, or the error of the first rule whose match raises.
   */
  function SelectIndex(rules: seq<StateRule>, scores: CoachingScore, from: nat): (r: Result<nat, EngineError>)
    requires from <= |rules|
    ensures r.Ok? ==> from <= r.value <= |rules|
    ensures r.Ok? ==> forall j :: from <= j < r.value ==> RuleMatches(rules[j].thresholds, scores) == Ok(false)
    ensures r.Ok? && r.value < |rules| ==> RuleMatches(rules[r.value].thresholds, scores) == Ok(true)
    ensures r.Err? ==> exists k :: from <= k < |rules| && RuleMatches(rules[k].thresholds, scores) == Err(r.error)
                                   && forall j :: from <= j < k ==> RuleMatches(rules[j].thresholds, scores) == Ok(false)
    decreases |rules| - from
  {
    if from == |rules| then Ok(from)
    else
      match RuleMatches(rules[from].thresholds, scores)
      case Err(e) => Err(e)
      case Ok(true) => Ok(from)
      case Ok(false) => SelectIndex(rules, scores, from + 1)
  }

  /** `_select_rule`. */
  function SelectRule(m: Machine, scores: CoachingScore): (r: Result<StateRule, EngineError>)
    ensures r.Ok? ==> r.value in m.rules || r.value == m.default
  {
    match SelectIndex(m.rules, scores, 0)
    case Err(e) => Err(e)
    case Ok(i) => if i < |m.rules| then Ok(m.rules[i]) else Ok(m.default)
  }

  /** The first rule that matches, after rules that all fail to match, is the one selected. */
  lemma {:induction false} FirstMatchWins(m: Machine, scores: CoachingScore, k: nat)
    requires k < |m.rules|
    requires RuleMatches(m.rules[k].thresholds, scores) == Ok(true)
    requires forall j :: 0 <= j < k ==> RuleMatches(m.rules[j].thresholds, scores) == Ok(false)
    ensures SelectRule(m, scores) == Ok(m.rules[k])
  {
    SelectIndexReaches(m.rules, scores, 0, k);
  }

  lemma {:induction false} SelectIndexReaches(rules: seq<StateRule>, scores: CoachingScore, from: nat, k: nat)
    requires from <= k < |rules|
    requires RuleMatches(rules[k].thresholds, scores) == Ok(true)
    requires forall j :: from <= j < k ==> RuleMatches(rules[j].thresholds, scores) == Ok(false)
    ensures SelectIndex(rules, scores, from) == Ok(k)
  {
  }

  /** When no rule matches (and none raises) the default rule is selected. */
  lemma {:induction false} NoMatchSelectsDefault(m: Machine, scores: CoachingScore)
    requires forall j :: 0 <= j < |m.rules| ==> RuleMatches(m.rules[j].thresholds, scores) == Ok(false)
    ensures SelectRule(m, scores) == Ok(m.default)
  {
    SelectIndexNoMatch(m.rules, scores, 0);
  }

  lemma {:induction false} SelectIndexNoMatch(rules: seq<StateRule>, scores: CoachingScore, from: nat)
    requires from <= |rules|
    requires forall j :: from <= j < |rules| ==> RuleMatches(rules[j].thresholds, scores) == Ok(false)
    ensures SelectIndex(rules, scores, from) == Ok(|rules|)
    decreases |rules| - from
  {
    if from < |rules| {
      SelectIndexNoMatch(rules, scores, from + 1);
    }
  }

  /** A rule without thresholds shadows every later rule: nothing after it is ever selected. */
  lemma EmptyRuleShadowsLater(m: Machine, scores: CoachingScore, k: nat)
    requires k < |m.rules| && m.rules[k].thresholds == []
    ensures SelectIndex(m.rules, scores, 0).Ok? ==> SelectIndex(m.rules, scores, 0).value <= k
  {
  }

  // ---------------------------------------------------------------- evaluation

  /**
   * `evaluate`: the selected rule names the state and supplies the texts; the score and
   * the latency pass through and no highlights are attached.
   */
  function Evaluate(m: Machine, sessionId: string, scores: CoachingScore, latencyMs: Option<real>)
    : (r: Result<CoachingResponse, EngineError>)
    ensures r.Err? <==> SelectRule(m, scores).Err?
    ensures r.Ok? ==> var rule := SelectRule(m, scores).value;
                      && r.value.state == rule.name
                      && r.value.subtitle == rule.response.subtitle
                      && r.value.tip == rule.response.tip
                      && r.value.ttsText == rule.response.ttsText
    ensures r.Ok? ==> r.value.sessionId == sessionId && r.value.scores == scores
                      && r.value.latencyMs == latencyMs && r.value.transcriptHighlights == []
  {
    match SelectRule(m, scores)
    case Err(e) => Err(e)
    case Ok(rule) =>
      Ok(CoachingResponse(sessionId, rule.name, scores, rule.response.subtitle, rule.response.tip,
                          rule.response.ttsText, [], latencyMs))
  }

  // ---------------------------------------------------------------- the test suite's rule files

  const AnxiousRule: StateRule :=
    StateRule("anxious", "Anxious", [Threshold("anxiety", ">=", 0.6)], false,
              StateResponse("Breathe", "Slow down", "Breathe", "anxious"))

  const DefaultRule: StateRule :=
    StateRule("default", "Default", [], true, StateResponse("Keep going", "Stay steady", "Keep", "default"))

  /** Anxiety 0.65 selects the anxious rule placed ahead of the default; anxiety 0.3 falls through. */
  lemma HighAnxietySelectsAnxious()
    ensures NewMachine([AnxiousRule, DefaultRule]).Ok?
    ensures var r := Evaluate(NewMachine([AnxiousRule, DefaultRule]).value, "abc", CoachingScore(0.7, 0.65), None);
            r.Ok? && r.value.state == "Anxious" && r.value.tip == "Slow down"
    ensures var r := Evaluate(NewMachine([AnxiousRule, DefaultRule]).value, "abc", CoachingScore(0.7, 0.3), None);
            r.Ok? && r.value.state == "Default" && r.value.tip == "Stay steady"
  {
    var m := NewMachine([AnxiousRule, DefaultRule]).value;
    assert RuleMatches(AnxiousRule.thresholds, CoachingScore(0.7, 0.65)) == Ok(true);
    FirstMatchWins(m, CoachingScore(0.7, 0.65), 0);
    assert RuleMatches(AnxiousRule.thresholds, CoachingScore(0.7, 0.3)) == Ok(false);
    FirstMatchWins(m, CoachingScore(0.7, 0.3), 1);
  }

  /** A machine whose only rule is the default always answers with it. */
  lemma SingleDefaultRuleAlwaysSelected(scores: CoachingScore)
    ensures NewMachine([DefaultRule]).Ok?
    ensures var r := Evaluate(NewMachine([DefaultRule]).value, "abc", scores, None);
            r.Ok? && r.value.state == "Default" && r.value.tip == "Stay steady"
  {
    FirstMatchWins(NewMachine([DefaultRule]).value, scores, 0);
  }
}
