/** The structured rule evaluator: each active rule's conditions are checked against a
    procurement record, their verdicts folded left to right with the conditions' logical
    operators, and the rule results summarised with counts, a status and recommendations. */
module RuleEngine {
  import opened Util
  import opened Values
  import opened RuleConfig

  // ---------------------------------------------------------------------------------------
  // Conditions
  // ---------------------------------------------------------------------------------------

  /** The outcome of one condition: a checked comparison, or the error of an unknown operator. */
  datatype ConditionResult =
    | Checked(field: string, operator: Operator, expectedValue: Value, actualValue: Value,
              passed: bool, message: string)
    | ConditionError(field: string, operator: Operator, error: string)
  {
    predicate Passed() {
      Checked? && passed
    }
  }

  /** `Number(a) < Number(b)`: false whenever either side is NaN. */
  predicate NumLess(a: Option<int>, b: Option<int>) {
    a.Some? && b.Some? && a.value < b.value
  }

  /** `Number(a) <= Number(b)`: false whenever either side is NaN. */
  predicate NumAtMost(a: Option<int>, b: Option<int>) {
    a.Some? && b.Some? && a.value <= b.value
  }

  /** The comparison an operator makes between the record's value and the rule's value;
      `None` is the "Unknown operator" error. */
  function OperatorHolds(op: Operator, actual: Value, expected: Value): (r: Option<bool>)
    ensures r.None? <==> op.UnknownOperator?
  {
    match op
    case Equals => Some(StrictEquals(actual, expected))
    case NotEquals => Some(!StrictEquals(actual, expected))
    case GreaterThan => Some(NumLess(ToNumber(expected), ToNumber(actual)))
    case LessThan => Some(NumLess(ToNumber(actual), ToNumber(expected)))
    case GreaterEqual => Some(NumAtMost(ToNumber(expected), ToNumber(actual)))
    case LessEqual => Some(NumAtMost(ToNumber(actual), ToNumber(expected)))
    case Contains => Some(Includes(ToStr(actual), ToStr(expected)))
    case NotContains => Some(!Includes(ToStr(actual), ToStr(expected)))
    case In => Some(expected.Arr? && ArrayIncludes(expected.items, actual))
    case NotIn => Some(expected.Arr? && !ArrayIncludes(expected.items, actual))
    case Exists => Some(!actual.Undefined? && !actual.Null?)
    case NotExists => Some(actual.Undefined? || actual.Null?)
    case UnknownOperator(_) => None
  }

  function UnknownOperatorMessage(op: Operator): string {
    "Unknown operator: " + OperatorName(op)
  }

  /** `evaluateCondition(condition, data)`. */
  function EvaluateCondition(c: Condition, data: Record): (r: ConditionResult)
    ensures r.field == c.field && r.operator == c.operator
  {
    var actual := GetNestedValue(data, c.field);
    match OperatorHolds(c.operator, actual, c.value)
    case Some(p) =>
      Checked(c.field, c.operator, c.value, actual, p,
              if p then "Condition satisfied" else "Condition not satisfied")
    case None => ConditionError(c.field, c.operator, UnknownOperatorMessage(c.operator))
  }

  /** `rule.conditions.map(condition => evaluateCondition(condition, data))`. */
  function ConditionResults(conditions: seq<Condition>, data: Record): (rs: seq<ConditionResult>)
    ensures |rs| == |conditions|
  {
    if conditions == [] then []
    else ConditionResults(conditions[..|conditions| - 1], data) + [EvaluateCondition(conditions[|conditions| - 1], data)]
  }

  /** The `i`-th condition result is the evaluation of the `i`-th condition. */
  lemma {:induction false} ConditionResultsAt(conditions: seq<Condition>, data: Record, i: nat)
    requires i < |conditions|
    ensures ConditionResults(conditions, data)[i] == EvaluateCondition(conditions[i], data)
  {
    if i < |conditions| - 1 {
      ConditionResultsAt(conditions[..|conditions| - 1], data, i);
    }
  }

  /** `in` and `not_in` both fail when the rule's value is not an array; on an array exactly
      one of them passes. */
  lemma InNotIn(actual: Value, expected: Value)
    ensures !expected.Arr? ==>
              (OperatorHolds(In, actual, expected) == Some(false) && OperatorHolds(NotIn, actual, expected) == Some(false))
    ensures expected.Arr? ==>
              (OperatorHolds(In, actual, expected).value != OperatorHolds(NotIn, actual, expected).value)
  {
  }

  /** `exists` and `not_exists` are complements, and a missing value and null are alike. */
  lemma ExistsNotExists(actual: Value, expected: Value)
    ensures OperatorHolds(Exists, actual, expected).value == !OperatorHolds(NotExists, actual, expected).value
    ensures OperatorHolds(Exists, actual, expected).value <==> actual != Undefined && actual != Null
  {
  }

  /** A condition on a path the record does not have is judged exactly as one on a null. */
  lemma MissingPathIsNull(c: Condition, data: Record)
    requires c.operator == Exists || c.operator == NotExists
    requires '.' !in c.field && (c.field !in data || data[c.field] == Null)
    ensures EvaluateCondition(c, data).Passed() <==> c.operator == NotExists
  {
    NestedValueOfPlainField(data, c.field);
  }

  /** `equals` and `not_equals` are complements; an array or object in the rule never equals
      anything read from the record. */
  lemma EqualsNotEquals(actual: Value, expected: Value)
    ensures OperatorHolds(Equals, actual, expected).value == !OperatorHolds(NotEquals, actual, expected).value
    ensures expected.Arr? || expected.Obj? || expected.NaN? ==> !OperatorHolds(Equals, actual, expected).value
  {
  }

  /** A numeric comparison with an operand that does not convert to a number fails. */
  lemma NumericWithNaN(op: Operator, actual: Value, expected: Value)
    requires op in {GreaterThan, LessThan, GreaterEqual, LessEqual}
    requires ToNumber(actual).None? || ToNumber(expected).None?
    ensures OperatorHolds(op, actual, expected) == Some(false)
  {
  }

  /** A numeric comparison of two numbers is the comparison of the integers. */
  lemma NumericOnNumbers(x: int, y: int)
    ensures OperatorHolds(GreaterThan, Num(x), Num(y)) == Some(x > y)
    ensures OperatorHolds(LessThan, Num(x), Num(y)) == Some(x < y)
    ensures OperatorHolds(GreaterEqual, Num(x), Num(y)) == Some(x >= y)
    ensures OperatorHolds(LessEqual, Num(x), Num(y)) == Some(x <= y)
  {
  }

  /** An unknown operator is reported as a failed condition carrying the error message. */
  lemma UnknownOperatorFails(c: Condition, data: Record)
    requires c.operator.UnknownOperator?
    ensures EvaluateCondition(c, data) == ConditionError(c.field, c.operator, "Unknown operator: " + c.operator.name)
    ensures !EvaluateCondition(c, data).Passed()
  {
  }

  /** A checked condition reports the record's value at the field's path and the rule's value. */
  lemma CheckedReportsValues(c: Condition, data: Record)
    requires !c.operator.UnknownOperator?
    ensures EvaluateCondition(c, data).Checked?
    ensures EvaluateCondition(c, data).actualValue == GetNestedValue(data, c.field)
    ensures EvaluateCondition(c, data).expectedValue == c.value
    ensures EvaluateCondition(c, data).Passed() == OperatorHolds(c.operator, GetNestedValue(data, c.field), c.value).value
  {
  }

  // ---------------------------------------------------------------------------------------
  // Folding the verdicts
  // ---------------------------------------------------------------------------------------

  /** One step of the fold; a connective other than AND and OR leaves the accumulator alone. */
  function Join(op: string, acc: bool, next: bool): bool {
    if op == "AND" then acc && next
    else if op == "OR" then acc || next
    else acc
  }

  /** The accumulator after the first `n` verdicts: condition `i - 1`'s connective joins
      verdict `i`, strictly left to right. */
  function FoldUpTo(conditions: seq<Condition>, results: seq<ConditionResult>, n: nat): bool
    requires 1 <= n <= |conditions| == |results|
    decreases n
  {
    if n == 1 then results[0].Passed()
    else Join(Connective(conditions[n - 2]), FoldUpTo(conditions, results, n - 1), results[n - 1].Passed())
  }

  /** The verdict of a rule; `None` when it has no conditions, where reading the first
      verdict fails. */
  function Verdict(conditions: seq<Condition>, results: seq<ConditionResult>): Option<bool>
    requires |conditions| == |results|
  {
    if |conditions| == 0 then None else Some(FoldUpTo(conditions, results, |conditions|))
  }

  /** `applyLogicalOperators(conditions, conditionResults)`. */
  method ApplyLogicalOperators(conditions: seq<Condition>, results: seq<ConditionResult>)
    returns (r: Option<bool>)
    requires |conditions| == |results|
    ensures r == Verdict(conditions, results)
  {
    if |conditions| == 0 {
      return None;
    }
    if |conditions| == 1 {
      return Some(results[0].Passed());
    }
    var result := results[0].Passed();
    var i := 1;
    while i < |conditions|
      invariant 1 <= i <= |conditions|
      invariant result == FoldUpTo(conditions, results, i)
    {
      var op := Connective(conditions[i - 1]);
      if op == "AND" {
        result := result && results[i].Passed();
      } else if op == "OR" {
        result := result || results[i].Passed();
      }
      i := i + 1;
    }
    return Some(result);
  }

  /** A single condition's verdict is the rule's verdict. */
  lemma VerdictSingle(conditions: seq<Condition>, results: seq<ConditionResult>)
    requires |conditions| == |results| == 1
    ensures Verdict(conditions, results) == Some(results[0].Passed())
  {
  }

  /** There is no precedence: `A AND B OR C` is `(A && B) || C`. With A failing and B, C
      passing the rule passes, where `A && (B || C)` would fail. */
  lemma VerdictNoPrecedence(conditions: seq<Condition>, results: seq<ConditionResult>)
    requires |conditions| == |results| == 3
    requires Connective(conditions[0]) == "AND" && Connective(conditions[1]) == "OR"
    ensures Verdict(conditions, results)
         == Some((results[0].Passed() && results[1].Passed()) || results[2].Passed())
    ensures !results[0].Passed() && results[1].Passed() && results[2].Passed() ==>
              Verdict(conditions, results) == Some(true)
  {
  }

  /** Joined only by AND, the fold is the conjunction of the verdicts. */
  lemma {:induction false} FoldAllAnd(conditions: seq<Condition>, results: seq<ConditionResult>, n: nat)
    requires 1 <= n <= |conditions| == |results|
    requires forall i :: 0 <= i < n - 1 ==> Connective(conditions[i]) == "AND"
    ensures FoldUpTo(conditions, results, n) <==> forall i :: 0 <= i < n ==> results[i].Passed()
    decreases n
  {
    if n > 1 {
      FoldAllAnd(conditions, results, n - 1);
    }
  }

  /** Joined only by OR, the fold is the disjunction of the verdicts. */
  lemma {:induction false} FoldAllOr(conditions: seq<Condition>, results: seq<ConditionResult>, n: nat)
    requires 1 <= n <= |conditions| == |results|
    requires forall i :: 0 <= i < n - 1 ==> Connective(conditions[i]) == "OR"
    ensures FoldUpTo(conditions, results, n) <==> exists i :: 0 <= i < n && results[i].Passed()
    decreases n
  {
    if n > 1 {
      FoldAllOr(conditions, results, n - 1);
      if results[n - 1].Passed() {
        assert 0 <= n - 1 < n && results[n - 1].Passed();
      }
    }
  }

  /** With connectives that are neither AND nor OR, only the first verdict counts. */
  lemma {:induction false} FoldUnknownConnectives(conditions: seq<Condition>, results: seq<ConditionResult>, n: nat)
    requires 1 <= n <= |conditions| == |results|
    requires forall i :: 0 <= i < n - 1 ==> Connective(conditions[i]) != "AND" && Connective(conditions[i]) != "OR"
    ensures FoldUpTo(conditions, results, n) == results[0].Passed()
    decreases n
  {
    if n > 1 {
      FoldUnknownConnectives(conditions, results, n - 1);
    }
  }

  /** The connective of the last condition never matters: it has no right-hand side. */
  lemma {:induction false} LastConnectiveIgnored(conditions: seq<Condition>, other: Condition,
                                                 results: seq<ConditionResult>, n: nat)
    requires 1 <= n <= |conditions| == |results|
    requires other.field == conditions[|conditions| - 1].field
    ensures FoldUpTo(conditions, results, n) == FoldUpTo(conditions[|conditions| - 1 := other], results, n)
    decreases n
  {
    if n > 1 {
      LastConnectiveIgnored(conditions, other, results, n - 1);
      assert conditions[|conditions| - 1 := other][n - 2] == conditions[n - 2];
    }
  }

  // ---------------------------------------------------------------------------------------
  // Rules
  // ---------------------------------------------------------------------------------------

  /** A rule's result: its verdict, or the error the evaluation caught. */
  datatype RuleResult =
    | RuleEvaluated(ruleId: string, ruleName: string, ruleType: RuleType, priority: int,
                    passed: bool, conditionResults: Option<seq<ConditionResult>>,
                    actions: seq<Action>, message: string, timestamp: string)
    | RuleError(ruleId: string, ruleName: string, error: string, timestamp: string)
  {
    predicate Passed() {
      RuleEvaluated? && passed
    }
  }

  /** The message of the error raised when a rule without conditions reads its first verdict. */
  const NoFirstVerdictError := "Cannot read properties of undefined (reading 'passed')"

  /** What `evaluateRule(rule, data, options)` returns, with `now` the time it is stamped. */
  function RuleOutcome(rule: Rule, data: Record, options: Options, now: string): RuleResult {
    var crs := ConditionResults(rule.conditions, data);
    match Verdict(rule.conditions, crs)
    case None => RuleError(rule.id, rule.name, NoFirstVerdictError, now)
    case Some(p) =>
      RuleEvaluated(rule.id, rule.name, rule.ruleType, rule.priority, p,
                    if options.includeRuleDetails then Some(crs) else None,
                    if p then rule.actions else [],
                    if p then "Rule passed successfully" else "Rule validation failed",
                    now)
  }

  /** `evaluateRule(rule, data, options)`. */
  method EvaluateRule(rule: Rule, data: Record, options: Options, now: string) returns (r: RuleResult)
    ensures r == RuleOutcome(rule, data, options, now)
  {
    var crs := ConditionResults(rule.conditions, data);
    var verdict := ApplyLogicalOperators(rule.conditions, crs);
    if verdict.None? {
      return RuleError(rule.id, rule.name, NoFirstVerdictError, now);
    }
    var passed := verdict.value;
    r := RuleEvaluated(rule.id, rule.name, rule.ruleType, rule.priority, passed,
                       Some(crs),
                       if passed then rule.actions else [],
                       if passed then "Rule passed successfully" else "Rule validation failed",
                       now);
    if !options.includeRuleDetails {
      r := r.(conditionResults := None);
    }
  }

  /** A rule without conditions is reported as failed with an error instead of throwing. */
  lemma NoConditionsIsError(rule: Rule, data: Record, options: Options, now: string)
    ensures RuleOutcome(rule, data, options, now).RuleError? <==> |rule.conditions| == 0
    ensures |rule.conditions| == 0 ==>
              RuleOutcome(rule, data, options, now) == RuleError(rule.id, rule.name, NoFirstVerdictError, now)
  {
  }

  /** A rule passes exactly when its fold is true; a failed rule carries no actions and a
      passed one all of its actions; condition results are kept only with rule details. */
  lemma RuleOutcomeShape(rule: Rule, data: Record, options: Options, now: string)
    requires |rule.conditions| > 0
    ensures var r := RuleOutcome(rule, data, options, now);
      && r.RuleEvaluated?
      && r.ruleId == rule.id && r.ruleName == rule.name
      && (r.Passed() <==> FoldUpTo(rule.conditions, ConditionResults(rule.conditions, data), |rule.conditions|))
      && r.actions == (if r.Passed() then rule.actions else [])
      && (r.conditionResults.Some? <==> options.includeRuleDetails)
      && (r.conditionResults.Some? ==> r.conditionResults.value == ConditionResults(rule.conditions, data))
  {
  }

  /** A rule whose conditions are all joined by AND passes exactly when every condition does. */
  lemma AllAndRule(rule: Rule, data: Record, options: Options, now: string)
    requires |rule.conditions| > 0
    requires forall i :: 0 <= i < |rule.conditions| - 1 ==> Connective(rule.conditions[i]) == "AND"
    ensures RuleOutcome(rule, data, options, now).Passed() <==>
              forall i :: 0 <= i < |rule.conditions| ==> EvaluateCondition(rule.conditions[i], data).Passed()
  {
    var crs := ConditionResults(rule.conditions, data);
    FoldAllAnd(rule.conditions, crs, |rule.conditions|);
    forall i | 0 <= i < |rule.conditions| ensures crs[i] == EvaluateCondition(rule.conditions[i], data) {
      ConditionResultsAt(rule.conditions, data, i);
    }
  }

  /** A rule with the single condition `totalAmount greater_than 10000` passes on a record
      whose amount is 15000 and carries its actions; on 5000 it fails and carries none. */
  lemma AmountThresholdScenario(rule: Rule, options: Options, now: string)
    requires rule.conditions == [Condition("totalAmount", GreaterThan, Num(10000), None)]
    ensures RuleOutcome(rule, map["totalAmount" := Num(15000)], options, now).Passed()
    ensures RuleOutcome(rule, map["totalAmount" := Num(15000)], options, now).actions == rule.actions
    ensures !RuleOutcome(rule, map["totalAmount" := Num(5000)], options, now).Passed()
    ensures RuleOutcome(rule, map["totalAmount" := Num(5000)], options, now).actions == []
  {
    var c := rule.conditions[0];
    assert '.' !in c.field;
    NestedValueOfPlainField(map["totalAmount" := Num(15000)], c.field);
    NestedValueOfPlainField(map["totalAmount" := Num(5000)], c.field);
  }

  // ---------------------------------------------------------------------------------------
  // Running the rules
  // ---------------------------------------------------------------------------------------

  /** Evaluating one rule against a record. */
  function OutcomeOf(data: Record, options: Options, now: string): Rule -> RuleResult {
    rule => RuleOutcome(rule, data, options, now)
  }

  /** `rules.map(evaluate)`. */
  function MapRules(rules: seq<Rule>, evaluate: Rule -> RuleResult): (outs: seq<RuleResult>)
    ensures |outs| == |rules|
  {
    seq(|rules|, i requires 0 <= i < |rules| => evaluate(rules[i]))
  }

  /** Every rule's result, as if none stopped the run. */
  function Outcomes(rules: seq<Rule>, data: Record, options: Options, now: string): (outs: seq<RuleResult>)
    ensures |outs| == |rules|
  {
    MapRules(rules, OutcomeOf(data, options, now))
  }

  /** The `i`-th outcome is the `i`-th rule's result. */
  lemma OutcomesAt(rules: seq<Rule>, data: Record, options: Options, now: string, i: nat)
    requires i < |rules|
    ensures Outcomes(rules, data, options, now)[i] == RuleOutcome(rules[i], data, options, now)
  {
  }

  /** The position of the first failed result, or the length when all passed. */
  function FirstFailure(outs: seq<RuleResult>): (k: nat)
    ensures k <= |outs|
    ensures forall j :: 0 <= j < k ==> outs[j].Passed()
    ensures k < |outs| ==> !outs[k].Passed()
  {
    if outs == [] then 0
    else if !outs[0].Passed() then 0
    else 1 + FirstFailure(outs[1..])
  }

  /** The results a run records: all of them, or with stop-on-first-failure those up to and
      including the first failure. */
  function RunResults(outs: seq<RuleResult>, stop: bool): seq<RuleResult> {
    if stop && FirstFailure(outs) < |outs| then outs[..FirstFailure(outs) + 1] else outs
  }

  /** A failure preceded only by passes is the first failure. */
  lemma FirstFailureAt(outs: seq<RuleResult>, i: nat)
    requires i < |outs| && !outs[i].Passed()
    requires forall j :: 0 <= j < i ==> outs[j].Passed()
    ensures FirstFailure(outs) == i
  {
  }

  /** When every result passed there is no first failure. */
  lemma FirstFailureNone(outs: seq<RuleResult>)
    requires forall j :: 0 <= j < |outs| ==> outs[j].Passed()
    ensures FirstFailure(outs) == |outs|
  {
  }

  /** Without stop-on-first-failure there is one result per rule, in rule order. */
  lemma RunWithoutStop(rules: seq<Rule>, data: Record, options: Options, now: string)
    requires !options.stopOnFirstFailure
    ensures var rs := RunResults(Outcomes(rules, data, options, now), options.stopOnFirstFailure);
      |rs| == |rules| && forall i :: 0 <= i < |rules| ==> rs[i] == RuleOutcome(rules[i], data, options, now)
  {
    forall i | 0 <= i < |rules|
      ensures Outcomes(rules, data, options, now)[i] == RuleOutcome(rules[i], data, options, now)
    {
      OutcomesAt(rules, data, options, now, i);
    }
  }

  /** With stop-on-first-failure the run is a prefix of the rules' results in which every
      result but the last passed; it is cut short only right after a failure. */
  lemma RunWithStop(rules: seq<Rule>, data: Record, options: Options, now: string)
    requires options.stopOnFirstFailure
    ensures var rs := RunResults(Outcomes(rules, data, options, now), true);
      && 1 <= |rs| + 1 <= |rules| + 1
      && rs == Outcomes(rules, data, options, now)[..|rs|]
      && (forall i :: 0 <= i < |rs| - 1 ==> rs[i].Passed())
      && (|rs| < |rules| ==> |rs| > 0 && !rs[|rs| - 1].Passed())
      && (|rs| == |rules| && |rs| > 0 && !rs[|rs| - 1].Passed() ==> FirstFailure(rs) == |rs| - 1)
  {
  }

  // ---------------------------------------------------------------------------------------
  // Summary and recommendations
  // ---------------------------------------------------------------------------------------

  datatype Status = Pass | Fail

  function StatusName(s: Status): string {
    match s
    case Pass => "PASSED"
    case Fail => "FAILED"
  }

  datatype Summary = Summary(totalRules: nat, passedRules: nat, failedRules: nat,
                             overallStatus: Status, evaluationTimestamp: string)

  /** What `evaluate` answers: the summary, the recorded results and the recommendations. */
  datatype Evaluation = Evaluation(summary: Summary, results: seq<RuleResult>, recommendations: seq<string>)

  /** `results.filter(r => r.passed).length`. */
  function CountPassed(rs: seq<RuleResult>): (n: nat)
    ensures n <= |rs|
  {
    if rs == [] then 0
    else CountPassed(rs[..|rs| - 1]) + (if rs[|rs| - 1].Passed() then 1 else 0)
  }

  /** All results passed exactly when the passed count is the number of results. */
  lemma {:induction false} CountPassedAll(rs: seq<RuleResult>)
    ensures CountPassed(rs) == |rs| <==> forall i :: 0 <= i < |rs| ==> rs[i].Passed()
  {
    if rs != [] {
      var init := rs[..|rs| - 1];
      CountPassedAll(init);
      assert forall i :: 0 <= i < |init| ==> init[i] == rs[i];
    }
  }

  function SummaryOf(results: seq<RuleResult>, now: string): (s: Summary)
    ensures s.totalRules == |results|
    ensures s.passedRules + s.failedRules == s.totalRules
    ensures s.overallStatus == Pass <==> s.failedRules == 0
  {
    var passed := CountPassed(results);
    var failed := |results| - passed;
    Summary(|results|, passed, failed, if failed == 0 then Pass else Fail, now)
  }

  /** The status is PASSED exactly when every recorded rule passed. */
  lemma SummaryStatus(results: seq<RuleResult>, now: string)
    ensures SummaryOf(results, now).overallStatus == Pass <==> forall i :: 0 <= i < |results| ==> results[i].Passed()
  {
    CountPassedAll(results);
  }

  const SuccessRecommendation := "All rules passed successfully." + " Procurement data is valid."

  /** `results.filter(r => !r.passed)`. */
  function FailedResults(rs: seq<RuleResult>): (f: seq<RuleResult>)
    ensures |f| == |rs| - CountPassed(rs)
    ensures forall i :: 0 <= i < |f| ==> !f[i].Passed() && f[i] in rs
  {
    if rs == [] then []
    else
      var init := FailedResults(rs[..|rs| - 1]);
      if rs[|rs| - 1].Passed() then init else init + [rs[|rs| - 1]]
  }

  function FixLine(r: RuleResult): string {
    "Fix rule violation: " + r.ruleName + " (" + r.ruleId + ")"
  }

  /** The text a template literal gives the expected and actual values; an error result has
      neither, which prints as "undefined". */
  function ExpectedText(c: ConditionResult): string {
    if c.Checked? then ToStr(c.expectedValue) else "undefined"
  }

  function ActualText(c: ConditionResult): string {
    if c.Checked? then ToStr(c.actualValue) else "undefined"
  }

  function ConditionLine(c: ConditionResult): string {
    "  - Field '" + c.field + "' should " + OperatorName(c.operator) + " '" + ExpectedText(c)
      + "' but got '" + ActualText(c) + "'"
  }

  /** One line per failed condition, in order. */
  function FailedConditionLines(crs: seq<ConditionResult>): (lines: seq<string>)
    ensures |lines| <= |crs|
  {
    if crs == [] then []
    else
      var init := FailedConditionLines(crs[..|crs| - 1]);
      if crs[|crs| - 1].Passed() then init else init + [ConditionLine(crs[|crs| - 1])]
  }

  /** The lines for one failed rule: its fix line, then its failed conditions when kept. */
  function RuleLines(r: RuleResult): (lines: seq<string>)
    ensures |lines| >= 1 && lines[0] == FixLine(r)
  {
    [FixLine(r)] + (if r.RuleEvaluated? && r.conditionResults.Some? then FailedConditionLines(r.conditionResults.value) else [])
  }

  function LinesOf(failed: seq<RuleResult>): seq<string> {
    if failed == [] then []
    else LinesOf(failed[..|failed| - 1]) + RuleLines(failed[|failed| - 1])
  }

  lemma LinesOfSnoc(failed: seq<RuleResult>, k: nat)
    requires k < |failed|
    ensures LinesOf(failed[..k + 1]) == LinesOf(failed[..k]) + RuleLines(failed[k])
  {
    assert failed[..k + 1][..k] == failed[..k];
  }

  lemma FailedConditionLinesSnoc(crs: seq<ConditionResult>, j: nat)
    requires j < |crs|
    ensures FailedConditionLines(crs[..j + 1])
         == FailedConditionLines(crs[..j]) + (if crs[j].Passed() then [] else [ConditionLine(crs[j])])
  {
    assert crs[..j + 1][..j] == crs[..j];
  }

  /** A failed rule gives its fix line and, only when its condition results were kept, one
      more line per failed condition. */
  lemma RuleLinesCount(r: RuleResult)
    ensures |RuleLines(r)| == 1 + if r.RuleEvaluated? && r.conditionResults.Some?
                                  then |r.conditionResults.value| - CountConditionsPassed(r.conditionResults.value)
                                  else 0
  {
    if r.RuleEvaluated? && r.conditionResults.Some? {
      FailedConditionLinesCount(r.conditionResults.value);
    }
  }

  /** What `generateRecommendations` returns for the recorded results. */
  function Recommendations(results: seq<RuleResult>): seq<string> {
    var failed := FailedResults(results);
    if |failed| == 0 then [SuccessRecommendation] else LinesOf(failed)
  }

  /** The lines of several failed rules start with the first one's fix line. */
  lemma {:induction false} LinesOfStart(failed: seq<RuleResult>)
    requires failed != []
    ensures |LinesOf(failed)| >= 1 && LinesOf(failed)[0] == FixLine(failed[0])
  {
    if |failed| > 1 {
      var init := failed[..|failed| - 1];
      LinesOfStart(init);
      assert init[0] == failed[0];
    } else {
      assert failed[..0] == [];
    }
  }

  lemma FixLineIsNotSuccess(r: RuleResult)
    ensures FixLine(r) != SuccessRecommendation
  {
    var line := FixLine(r);
    assert line[0] == 'F';
    assert SuccessRecommendation[0] == 'A';
  }

  /** The recommendations are the single success line exactly when every rule passed. */
  lemma RecommendationsSuccess(results: seq<RuleResult>)
    ensures Recommendations(results) == [SuccessRecommendation] <==>
              forall i :: 0 <= i < |results| ==> results[i].Passed()
  {
    CountPassedAll(results);
    var failed := FailedResults(results);
    if |failed| > 0 {
      LinesOfStart(failed);
      FixLineIsNotSuccess(failed[0]);
    }
  }

  /** Without condition details each failed rule gives exactly its fix line. */
  lemma {:induction false} LinesWithoutDetails(failed: seq<RuleResult>)
    requires forall i :: 0 <= i < |failed| ==> failed[i].RuleError? || failed[i].conditionResults.None?
    ensures LinesOf(failed) == seq(|failed|, i requires 0 <= i < |failed| => FixLine(failed[i]))
  {
    if failed != [] {
      var init := failed[..|failed| - 1];
      LinesWithoutDetails(init);
    }
  }

  /** With condition details, a failed rule's lines are its fix line and one line per failed
      condition. */
  lemma {:induction false} FailedConditionLinesCount(crs: seq<ConditionResult>)
    ensures |FailedConditionLines(crs)| == |crs| - CountConditionsPassed(crs)
  {
    if crs != [] {
      FailedConditionLinesCount(crs[..|crs| - 1]);
    }
  }

  function CountConditionsPassed(crs: seq<ConditionResult>): (n: nat)
    ensures n <= |crs|
  {
    if crs == [] then 0
    else CountConditionsPassed(crs[..|crs| - 1]) + (if crs[|crs| - 1].Passed() then 1 else 0)
  }

  /** Without rule details there is one recommendation per failed rule. */
  lemma RecommendationsWithoutDetails(results: seq<RuleResult>)
    requires exists i :: 0 <= i < |results| && !results[i].Passed()
    requires forall i :: 0 <= i < |results| ==> results[i].RuleError? || results[i].conditionResults.None?
    ensures |Recommendations(results)| == |results| - CountPassed(results)
    ensures forall i :: 0 <= i < |Recommendations(results)| ==>
              Recommendations(results)[i] == FixLine(FailedResults(results)[i])
  {
    CountPassedAll(results);
    var failed := FailedResults(results);
    forall i | 0 <= i < |failed| ensures failed[i].RuleError? || failed[i].conditionResults.None? {
      var k :| 0 <= k < |results| && results[k] == failed[i];
    }
    LinesWithoutDetails(failed);
  }

  /** Evaluating without rule details keeps no condition results in any rule's result. */
  lemma OutcomesWithoutDetails(rules: seq<Rule>, data: Record, options: Options, now: string)
    requires !options.includeRuleDetails
    ensures var outs := Outcomes(rules, data, options, now);
      forall i :: 0 <= i < |outs| ==> outs[i].RuleError? || outs[i].conditionResults.None?
  {
    forall i | 0 <= i < |rules|
      ensures Outcomes(rules, data, options, now)[i] == RuleOutcome(rules[i], data, options, now)
    {
      OutcomesAt(rules, data, options, now, i);
    }
  }

  /** The answer of `getEvaluationSummary` for the recorded results. */
  function EvaluationOf(results: seq<RuleResult>, now: string): Evaluation {
    Evaluation(SummaryOf(results, now), results, Recommendations(results))
  }

  // ---------------------------------------------------------------------------------------
  // The service
  // ---------------------------------------------------------------------------------------

  class RuleEngineService {
    var rules: seq<Rule>
    var results: seq<RuleResult>

    constructor()
      ensures rules == [] && results == []
    {
      rules := [];
      results := [];
    }

    /** `setRules(rules)`: keeps the active rules. */
    method SetRules(all: seq<Rule>)
      modifies this`rules
      ensures rules == ActiveRules(all)
    {
      rules := ActiveRules(all);
    }

    /** `evaluate(data, options)`, with `now` the time stamped on results and summary. */
    method Evaluate(data: Record, options: Options, now: string) returns (e: Evaluation)
      modifies this`results
      ensures results == RunResults(Outcomes(rules, data, options, now), options.stopOnFirstFailure)
      ensures e == EvaluationOf(results, now)
    {
      RecordResults(OutcomeOf(data, options, now), options.stopOnFirstFailure);
      e := GetEvaluationSummary(now);
    }

    /** The loop of `evaluate`: clears the recorded results, then records the result of each
        rule in order, stopping right after the first failed one when `stop` is set. */
    method RecordResults(evaluate: Rule -> RuleResult, stop: bool)
      modifies this`results
      ensures results == RunResults(MapRules(rules, evaluate), stop)
    {
      ghost var outs := MapRules(rules, evaluate);
      results := [];
      var i := 0;
      while i < |rules|
        invariant 0 <= i <= |rules|
        invariant results == outs[..i]
        invariant stop ==> forall j :: 0 <= j < i ==> outs[j].Passed()
      {
        var r := evaluate(rules[i]);
        PrefixSnoc(outs, i);
        results := results + [r];
        if stop && !r.Passed() {
          FirstFailureAt(outs, i);
          break;
        }
        i := i + 1;
      }
      if i == |rules| {
        PrefixAll(outs);
        if stop {
          FirstFailureNone(outs);
        }
      }
    }

    /** `getEvaluationSummary(options)`. */
    method GetEvaluationSummary(now: string) returns (e: Evaluation)
      ensures e == EvaluationOf(results, now)
    {
      var recs := GenerateRecommendations();
      e := Evaluation(SummaryOf(results, now), results, recs);
    }

    /** The inner loop of `generateRecommendations`: a line for each failed condition. */
    static method AppendConditionLines(recs: seq<string>, crs: seq<ConditionResult>) returns (out: seq<string>)
      ensures out == recs + FailedConditionLines(crs)
    {
      out := recs;
      for j := 0 to |crs|
        invariant out == recs + FailedConditionLines(crs[..j])
      {
        FailedConditionLinesSnoc(crs, j);
        if !crs[j].Passed() {
          out := out + [ConditionLine(crs[j])];
        }
      }
      assert crs[..|crs|] == crs;
    }

    /** `generateRecommendations()`. */
    method GenerateRecommendations() returns (recs: seq<string>)
      ensures recs == Recommendations(results)
    {
      var failed := FailedResults(results);
      if |failed| == 0 {
        return [SuccessRecommendation];
      }
      recs := [];
      for k := 0 to |failed|
        invariant recs == LinesOf(failed[..k])
      {
        LinesOfSnoc(failed, k);
        recs := AppendRuleLines(recs, failed[k]);
      }
      assert failed[..|failed|] == failed;
    }

    /** One pass of the loop of `generateRecommendations`: the fix line of a failed rule,
        then a line per failed condition when its details were kept. */
    static method AppendRuleLines(recs: seq<string>, rule: RuleResult) returns (out: seq<string>)
      ensures out == recs + RuleLines(rule)
    {
      out := recs + [FixLine(rule)];
      if rule.RuleEvaluated? && rule.conditionResults.Some? {
        out := AppendConditionLines(out, rule.conditionResults.value);
        assert out == recs + ([FixLine(rule)] + FailedConditionLines(rule.conditionResults.value));
      }
    }
  }
}
