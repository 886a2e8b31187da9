/** The in-memory business-rule store: one stored configuration whose rule list is replaced
    wholesale, read back, filtered, patched by id and spliced by id. */
module RulesStore {
  import opened Util
  import opened Values
  import opened RuleConfig

  /** The stored configuration. `version` and `rulesCount` are absent (`undefined`) when the
      saved configuration did not carry them. */
  datatype BusinessRules = BusinessRules(
    rules: seq<Rule>,
    lastUpdated: Option<string>,
    version: Option<string>,
    metadata: Value,
    rulesCount: Option<nat>)

  /** A configuration as posted: its rules, version and free-form metadata. */
  datatype RulesData = RulesData(rules: seq<Rule>, version: Option<string>, metadata: Value)

  /** What `saveRules` answers, besides `success: true`. */
  datatype SaveReport = SaveReport(rulesCount: nat, version: Option<string>, activeRules: nat, ruleTypes: seq<RuleType>)

  /** The fields a rule update may carry; an absent field keeps the rule's own value. `id` is
      not among them, so an update never changes a rule's id. */
  datatype RulePatch = RulePatch(
    name: Option<string>,
    description: Option<string>,
    ruleType: Option<RuleType>,
    priority: Option<int>,
    active: Option<bool>,
    conditions: Option<seq<Condition>>,
    actions: Option<seq<Action>>)

  datatype RulesSummary = RulesSummary(
    version: Option<string>,
    lastUpdated: Option<string>,
    metadata: Value,
    rulesCount: nat,
    activeRules: nat,
    ruleTypes: seq<RuleType>,
    rules: seq<Rule>)

  /** `rulesByType` is an object keyed by rule type in the order types first occur. */
  datatype RulesStats = RulesStats(
    totalRules: nat,
    activeRules: nat,
    inactiveRules: nat,
    rulesByType: seq<(RuleType, nat)>,
    lastUpdated: Option<string>)

  const InitialRules := BusinessRules([], None, Some("1.0.0"), Obj(map[]), None)

  // ---------------------------------------------------------------------------------------
  // Rule types
  // ---------------------------------------------------------------------------------------

  /** `rules.map(rule => rule.type)`. */
  function TypesOf(rules: seq<Rule>): (ts: seq<RuleType>)
    ensures |ts| == |rules|
    ensures forall i :: 0 <= i < |rules| ==> ts[i] == rules[i].ruleType
  {
    seq(|rules|, i requires 0 <= i < |rules| => rules[i].ruleType)
  }

  /** `[...new Set(rules.map(rule => rule.type))]`: each type that occurs, once. */
  function DistinctTypes(rules: seq<Rule>): (ts: seq<RuleType>)
    ensures NoDuplicates(ts)
    ensures forall t :: t in ts <==> exists i :: 0 <= i < |rules| && rules[i].ruleType == t
  {
    var all := TypesOf(rules);
    var ts := Dedup(all);
    assert forall t :: t in ts ==> exists i :: 0 <= i < |rules| && rules[i].ruleType == t by {
      forall t | t in ts ensures exists i :: 0 <= i < |rules| && rules[i].ruleType == t {
        var i :| 0 <= i < |all| && all[i] == t;
      }
    }
    ts
  }

  /** The number of rules of type `t`. */
  function CountType(rules: seq<Rule>, t: RuleType): (n: nat)
    ensures n <= |rules|
  {
    if rules == [] then 0
    else CountType(rules[..|rules| - 1], t) + (if rules[|rules| - 1].ruleType == t then 1 else 0)
  }

  /** The per-type counts add up to the number of rules. */
  lemma {:induction false} CountTypesSum(rules: seq<Rule>)
    ensures CountType(rules, Validation) + CountType(rules, Approval)
          + CountType(rules, Calculation) + CountType(rules, Notification) == |rules|
  {
    if rules != [] {
      CountTypesSum(rules[..|rules| - 1]);
    }
  }

  /** The `reduce` of `getRulesStats`: `acc[rule.type] = (acc[rule.type] || 0) + 1`. */
  function TypeCounts(rules: seq<Rule>): seq<(RuleType, nat)> {
    if rules == [] then []
    else
      var acc := TypeCounts(rules[..|rules| - 1]);
      var t := rules[|rules| - 1].ruleType;
      MapSet(acc, t, MapGet(acc, t).GetOr(0) + 1)
  }

  /** Each type appears at most once among the counts. */
  lemma {:induction false} TypeCountsKeys(rules: seq<Rule>)
    ensures NoDuplicates(Keys(TypeCounts(rules)))
  {
    if rules != [] {
      var init := rules[..|rules| - 1];
      var acc := TypeCounts(init);
      var last := rules[|rules| - 1].ruleType;
      TypeCountsKeys(init);
      MapSetKeys(acc, last, MapGet(acc, last).GetOr(0) + 1);
    }
  }

  /** A type is among the counts exactly when some rule has it, with the number of rules of
      that type. */
  lemma {:induction false} TypeCountsCorrect(rules: seq<Rule>, t: RuleType)
    ensures MapGet(TypeCounts(rules), t) == if CountType(rules, t) == 0 then None else Some(CountType(rules, t))
  {
    if rules != [] {
      var init := rules[..|rules| - 1];
      var acc := TypeCounts(init);
      var last := rules[|rules| - 1].ruleType;
      var v := MapGet(acc, last).GetOr(0) + 1;
      assert TypeCounts(rules) == MapSet(acc, last, v);
      TypeCountsKeys(init);
      MapGetSet(acc, last, v, t);
      if t == last {
        TypeCountsCorrect(init, last);
        assert v == CountType(init, last) + 1;
      } else {
        TypeCountsCorrect(init, t);
      }
    }
  }

  // ---------------------------------------------------------------------------------------
  // Lookup, update and delete by id
  // ---------------------------------------------------------------------------------------

  /** `rules.findIndex(r => r.id === id)`, with `None` for -1. */
  function FindRule(rules: seq<Rule>, id: string): (r: Option<nat>)
    ensures r.Some? ==> r.value < |rules| && rules[r.value].id == id
    ensures r.Some? ==> forall k :: 0 <= k < r.value ==> rules[k].id != id
    ensures r.None? <==> forall k :: 0 <= k < |rules| ==> rules[k].id != id
  {
    if rules == [] then None
    else if rules[0].id == id then Some(0)
    else match FindRule(rules[1..], id)
      case None => None
      case Some(k) => Some(k + 1)
  }

  /** `{...rule, ...patch, updated_at: now}`. */
  function ApplyPatch(rule: Rule, patch: RulePatch, now: string): (r: Rule)
    ensures r.id == rule.id && r.updatedAt == Some(now)
    ensures r.name == patch.name.GetOr(rule.name)
    ensures r.description == (if patch.description.Some? then patch.description else rule.description)
    ensures r.ruleType == patch.ruleType.GetOr(rule.ruleType)
    ensures r.priority == patch.priority.GetOr(rule.priority)
    ensures r.active == patch.active.GetOr(rule.active)
    ensures r.conditions == patch.conditions.GetOr(rule.conditions)
    ensures r.actions == patch.actions.GetOr(rule.actions)
  {
    Rule(
      rule.id,
      patch.name.GetOr(rule.name),
      if patch.description.Some? then patch.description else rule.description,
      patch.ruleType.GetOr(rule.ruleType),
      patch.priority.GetOr(rule.priority),
      patch.active.GetOr(rule.active),
      patch.conditions.GetOr(rule.conditions),
      patch.actions.GetOr(rule.actions),
      Some(now))
  }

  /** Applying the same patch twice, at the same time, is applying it once. */
  lemma ApplyPatchIdempotent(rule: Rule, patch: RulePatch, now: string)
    ensures ApplyPatch(ApplyPatch(rule, patch, now), patch, now) == ApplyPatch(rule, patch, now)
  {
  }

  /** An empty patch only stamps the update time. */
  lemma EmptyPatch(rule: Rule, now: string)
    ensures ApplyPatch(rule, RulePatch(None, None, None, None, None, None, None), now) == rule.(updatedAt := Some(now))
  {
  }

  /** The rule list after `updateRule(id, patch)`. */
  function UpdateById(rules: seq<Rule>, id: string, patch: RulePatch, now: string): (r: seq<Rule>)
    ensures |r| == |rules|
    ensures FindRule(rules, id).None? ==> r == rules
    ensures FindRule(rules, id).Some? ==>
      var i := FindRule(rules, id).value;
      r[i] == ApplyPatch(rules[i], patch, now) && forall k :: 0 <= k < |rules| && k != i ==> r[k] == rules[k]
  {
    match FindRule(rules, id)
    case None => rules
    case Some(i) => rules[i := ApplyPatch(rules[i], patch, now)]
  }

  /** The rule list after `deleteRule(id)`. */
  function DeleteById(rules: seq<Rule>, id: string): (r: seq<Rule>)
    ensures FindRule(rules, id).None? ==> r == rules
    ensures FindRule(rules, id).Some? ==>
      var i := FindRule(rules, id).value;
      |r| == |rules| - 1 && r == rules[..i] + rules[i + 1..]
  {
    match FindRule(rules, id)
    case None => rules
    case Some(i) => RemoveAt(rules, i)
  }

  /** Deleting the first match removes exactly one occurrence of that rule and keeps the others. */
  lemma DeleteByIdMultiset(rules: seq<Rule>, id: string)
    requires FindRule(rules, id).Some?
    ensures multiset(DeleteById(rules, id)) + multiset{rules[FindRule(rules, id).value]} == multiset(rules)
  {
  }

  /** Ids are kept by updates, so an update cannot make a later lookup find another rule. */
  lemma {:induction false} UpdateKeepsLookup(rules: seq<Rule>, id: string, patch: RulePatch, now: string, other: string)
    ensures FindRule(UpdateById(rules, id, patch, now), other) == FindRule(rules, other)
  {
    var r := UpdateById(rules, id, patch, now);
    assert forall k :: 0 <= k < |rules| ==> r[k].id == rules[k].id;
    FindRuleSameIds(rules, r, other);
  }

  /** Lookup depends only on the ids, in order. */
  lemma {:induction false} FindRuleSameIds(a: seq<Rule>, b: seq<Rule>, id: string)
    requires |a| == |b|
    requires forall k :: 0 <= k < |a| ==> a[k].id == b[k].id
    ensures FindRule(a, id) == FindRule(b, id)
  {
    if a != [] && a[0].id != id {
      FindRuleSameIds(a[1..], b[1..], id);
    }
  }

  // ---------------------------------------------------------------------------------------
  // Reports
  // ---------------------------------------------------------------------------------------

  /** The answer of `saveRules` for a configuration. */
  function SaveReportOf(data: RulesData): (r: SaveReport)
    ensures r.rulesCount == |data.rules| && r.version == data.version
    ensures r.activeRules == |ActiveRules(data.rules)|
    ensures NoDuplicates(r.ruleTypes)
    ensures forall t :: t in r.ruleTypes <==> exists i :: 0 <= i < |data.rules| && data.rules[i].ruleType == t
  {
    SaveReport(|data.rules|, data.version, |ActiveRules(data.rules)|, DistinctTypes(data.rules))
  }

  /** The stored configuration `saveRules` leaves: the posted one, stamped and counted. */
  function Saved(data: RulesData, now: string): (b: BusinessRules)
    ensures b.rules == data.rules && b.version == data.version && b.metadata == data.metadata
    ensures b.lastUpdated == Some(now) && b.rulesCount == Some(|data.rules|)
  {
    BusinessRules(data.rules, Some(now), data.version, data.metadata, Some(|data.rules|))
  }

  /** How many rules a stats answer attributes to type `t`; a missing key counts zero. */
  function StatsCount(s: RulesStats, t: RuleType): nat {
    MapGet(s.rulesByType, t).GetOr(0)
  }

  class RulesModel {
    var businessRules: BusinessRules

    constructor()
      ensures businessRules == InitialRules
    {
      businessRules := InitialRules;
    }

    /** `saveRules(data)`, with `now` the time of the save. */
    method SaveRules(data: RulesData, now: string) returns (report: SaveReport)
      modifies this
      ensures businessRules == Saved(data, now)
      ensures report == SaveReportOf(data)
    {
      businessRules := BusinessRules(data.rules, Some(now), data.version, data.metadata, Some(|data.rules|));
      report := SaveReport(|data.rules|, data.version, |ActiveRules(data.rules)|, DistinctTypes(data.rules));
    }

    /** `getRules()`: the stored list itself. */
    function GetRules(): (rs: seq<Rule>)
      reads this
      ensures |rs| == |businessRules.rules| && forall i :: 0 <= i < |rs| ==> rs[i] == businessRules.rules[i]
    {
      businessRules.rules
    }

    /** `getActiveRules()`: the active rules in stored order. */
    function GetActiveRules(): (rs: seq<Rule>)
      reads this
      ensures forall x :: x in rs <==> x in businessRules.rules && x.active
      ensures |rs| + |InactiveRules(businessRules.rules)| == |businessRules.rules|
    {
      ActiveRulesExactly(businessRules.rules);
      ActivePlusInactive(businessRules.rules);
      ActiveRules(businessRules.rules)
    }

    /** `getRuleById(id)`: the first rule with that id, if any. */
    function GetRuleById(id: string): (r: Option<Rule>)
      reads this
      ensures r.Some? <==> exists k :: 0 <= k < |businessRules.rules| && businessRules.rules[k].id == id
      ensures r.Some? ==> r.value.id == id && r.value in businessRules.rules
      ensures r.Some? ==> exists k :: (0 <= k < |businessRules.rules| && businessRules.rules[k] == r.value
                && forall j :: 0 <= j < k ==> businessRules.rules[j].id != id)
    {
      match FindRule(businessRules.rules, id)
      case None => None
      case Some(k) => Some(businessRules.rules[k])
    }

    /** `updateRule(id, patch)`, with `now` the time of the update: the first rule with that
        id is patched in place and returned; an unknown id changes nothing. */
    method UpdateRule(id: string, patch: RulePatch, now: string) returns (r: Option<Rule>)
      modifies this
      ensures businessRules == old(businessRules).(rules := UpdateById(old(businessRules.rules), id, patch, now))
      ensures r == match FindRule(old(businessRules.rules), id)
          case None => None
          case Some(i) => Some(businessRules.rules[i])
    {
      var found := FindRule(businessRules.rules, id);
      if found.None? {
        return None;
      }
      var i := found.value;
      var updated := ApplyPatch(businessRules.rules[i], patch, now);
      businessRules := businessRules.(rules := businessRules.rules[i := updated]);
      r := Some(businessRules.rules[i]);
    }

    /** `deleteRule(id)`: the first rule with that id is spliced out; the answer says whether
        one was found. */
    method DeleteRule(id: string) returns (deleted: bool)
      modifies this
      ensures deleted <==> FindRule(old(businessRules.rules), id).Some?
      ensures businessRules == old(businessRules).(rules := DeleteById(old(businessRules.rules), id))
    {
      var found := FindRule(businessRules.rules, id);
      if found.None? {
        return false;
      }
      businessRules := businessRules.(rules := RemoveAt(businessRules.rules, found.value));
      deleted := true;
    }

    /** `getRulesSummary(rules)`: counts over the list passed in, with the stored metadata. */
    function GetRulesSummary(rules: seq<Rule>): (s: RulesSummary)
      reads this
      ensures s.rules == rules && s.rulesCount == |rules|
      ensures s.activeRules == |ActiveRules(rules)| && s.activeRules <= s.rulesCount
      ensures NoDuplicates(s.ruleTypes)
      ensures forall t :: t in s.ruleTypes <==> exists i :: 0 <= i < |rules| && rules[i].ruleType == t
      ensures s.version == businessRules.version && s.lastUpdated == businessRules.lastUpdated
    {
      RulesSummary(businessRules.version, businessRules.lastUpdated, businessRules.metadata,
        |rules|, |ActiveRules(rules)|, DistinctTypes(rules), rules)
    }

    /** `getRulesStats()`. */
    function GetRulesStats(): (s: RulesStats)
      reads this
      ensures s.totalRules == |businessRules.rules|
      ensures s.activeRules + s.inactiveRules == s.totalRules
      ensures NoDuplicates(Keys(s.rulesByType))
      ensures forall t :: StatsCount(s, t) == CountType(businessRules.rules, t)
      ensures StatsCount(s, Validation) + StatsCount(s, Approval)
            + StatsCount(s, Calculation) + StatsCount(s, Notification) == s.totalRules
      ensures s.lastUpdated == businessRules.lastUpdated
    {
      var rules := businessRules.rules;
      ActivePlusInactive(rules);
      CountTypesSum(rules);
      TypeCountsKeys(rules);
      forall t ensures MapGet(TypeCounts(rules), t).GetOr(0) == CountType(rules, t) {
        TypeCountsCorrect(rules, t);
      }
      RulesStats(|rules|, |ActiveRules(rules)|, |InactiveRules(rules)|, TypeCounts(rules), businessRules.lastUpdated)
    }
  }
}
