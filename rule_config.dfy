/** The business-rule configuration: rules made of conditions joined by logical operators,
    and the actions a passing rule carries. The enumerations are those the configuration
    schema accepts; the engine itself also copes with an operator outside the list. */
module RuleConfig {
  import opened Util
  import opened Values

  datatype RuleType = Validation | Approval | Calculation | Notification

  function RuleTypeName(t: RuleType): string {
    match t
    case Validation => "validation"
    case Approval => "approval"
    case Calculation => "calculation"
    case Notification => "notification"
  }

  /** The twelve comparison operators, and any other name a stored condition might carry. */
  datatype Operator =
    | Equals | NotEquals
    | GreaterThan | LessThan | GreaterEqual | LessEqual
    | Contains | NotContains
    | In | NotIn
    | Exists | NotExists
    | UnknownOperator(name: string)

  function OperatorName(op: Operator): string {
    match op
    case Equals => "equals"
    case NotEquals => "not_equals"
    case GreaterThan => "greater_than"
    case LessThan => "less_than"
    case GreaterEqual => "greater_equal"
    case LessEqual => "less_equal"
    case Contains => "contains"
    case NotContains => "not_contains"
    case In => "in"
    case NotIn => "not_in"
    case Exists => "exists"
    case NotExists => "not_exists"
    case UnknownOperator(name) => name
  }

  /** `logicalOperator` joins this condition to the NEXT one; absent means "AND". */
  datatype Condition = Condition(field: string, operator: Operator, value: Value, logicalOperator: Option<string>)

  /** `condition.logical_operator || 'AND'`. */
  function Connective(c: Condition): (op: string)
    ensures op != ""
    ensures c.logicalOperator.Some? && c.logicalOperator.value != "" ==> op == c.logicalOperator.value
  {
    match c.logicalOperator
    case None => "AND"
    case Some(s) => if s == "" then "AND" else s
  }

  datatype ActionType = Approve | Reject | Flag | Calculate | Notify | Modify

  datatype Action = Action(actionType: ActionType, parameters: map<string, Value>)

  /** A rule; `priority` is 1 to 10 in a checked configuration, and `updatedAt` is stamped
      by the store's update. */
  datatype Rule = Rule(
    id: string,
    name: string,
    description: Option<string>,
    ruleType: RuleType,
    priority: int,
    active: bool,
    conditions: seq<Condition>,
    actions: seq<Action>,
    updatedAt: Option<string>)

  /** The evaluation options of a request. */
  datatype Options = Options(strictMode: bool, stopOnFirstFailure: bool, includeRuleDetails: bool)

  /** `rules.filter(rule => rule.active)`. */
  function ActiveRules(rules: seq<Rule>): (r: seq<Rule>)
    ensures |r| <= |rules|
    ensures forall i :: 0 <= i < |r| ==> r[i].active && r[i] in rules
  {
    if rules == [] then []
    else
      var init := ActiveRules(rules[..|rules| - 1]);
      if rules[|rules| - 1].active then init + [rules[|rules| - 1]] else init
  }

  /** `rules.filter(rule => !rule.active)`. */
  function InactiveRules(rules: seq<Rule>): (r: seq<Rule>)
    ensures forall i :: 0 <= i < |r| ==> !r[i].active && r[i] in rules
  {
    if rules == [] then []
    else
      var init := InactiveRules(rules[..|rules| - 1]);
      if rules[|rules| - 1].active then init else init + [rules[|rules| - 1]]
  }

  /** Filtering commutes with concatenation, so the kept rules stay in their original order. */
  lemma {:induction false} ActiveRulesConcat(a: seq<Rule>, b: seq<Rule>)
    ensures ActiveRules(a + b) == ActiveRules(a) + ActiveRules(b)
    decreases |b|
  {
    if b == [] {
      assert a + b == a;
    } else {
      var b' := b[..|b| - 1];
      assert (a + b)[..|a + b| - 1] == a + b';
      assert (a + b)[|a + b| - 1] == b[|b| - 1];
      ActiveRulesConcat(a, b');
    }
  }

  /** A rule is kept exactly when it is one of the rules and it is active. */
  lemma {:induction false} ActiveRulesMembers(rules: seq<Rule>, x: Rule)
    ensures x in ActiveRules(rules) <==> x in rules && x.active
  {
    if rules != [] {
      var init := rules[..|rules| - 1];
      ActiveRulesMembers(init, x);
      assert rules == init + [rules[|rules| - 1]];
    }
  }

  /** The active rules are exactly the rules whose `active` is set. */
  lemma ActiveRulesExactly(rules: seq<Rule>)
    ensures forall x :: x in ActiveRules(rules) <==> x in rules && x.active
  {
    forall x ensures x in ActiveRules(rules) <==> x in rules && x.active {
      ActiveRulesMembers(rules, x);
    }
  }

  /** Filtering twice keeps the same rules as filtering once. */
  lemma {:induction false} ActiveRulesIdempotent(rules: seq<Rule>)
    ensures ActiveRules(ActiveRules(rules)) == ActiveRules(rules)
  {
    if rules != [] {
      var init := rules[..|rules| - 1];
      ActiveRulesIdempotent(init);
      var last := rules[|rules| - 1];
      if last.active {
        ActiveRulesConcat(ActiveRules(init), [last]);
        assert ActiveRules([last]) == [last] by {
          assert [last][..0] == [];
        }
      }
    }
  }

  /** Every rule is either active or inactive. */
  lemma {:induction false} ActivePlusInactive(rules: seq<Rule>)
    ensures |ActiveRules(rules)| + |InactiveRules(rules)| == |rules|
  {
    if rules != [] {
      ActivePlusInactive(rules[..|rules| - 1]);
    }
  }

  /** A configuration with no inactive rule keeps every rule. */
  lemma {:induction false} ActiveRulesAllActive(rules: seq<Rule>)
    requires forall i :: 0 <= i < |rules| ==> rules[i].active
    ensures ActiveRules(rules) == rules
  {
    if rules != [] {
      ActiveRulesAllActive(rules[..|rules| - 1]);
      assert rules == rules[..|rules| - 1] + [rules[|rules| - 1]];
    }
  }
}
