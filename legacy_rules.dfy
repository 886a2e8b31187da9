/** The legacy purchase-request rule applier: each approval rule's condition is tested on a
    copy of the request, which it may extend with the days left until delivery, and the rule's
    action is run on the copy when the condition holds. The test itself evaluates the
    condition text as JavaScript and is a parameter of the model. */
module LegacyRules {
  import opened Util
  import opened Values

  /** One entry of `approvalRules`: the condition text, the action name and the action's
      settings as loaded from the rules file. */
  datatype ApprovalRule = ApprovalRule(condition: string, action: string, setStatus: Value, urgency: Value, approvalLevel: Value)

  /** The evaluation of a condition text on a request: its value, or `None` where evaluating it
      throws. */
  type ConditionEval = (string, Record) -> Option<Value>

  /** `new Date(value)` in milliseconds, or `None` for an invalid date. */
  type DateParse = Value -> Option<int>

  const MillisPerDay: int := 1000 * 60 * 60 * 24

  /** `b` agrees with `a` on every key outside `keys`. */
  ghost predicate SameExcept(a: Record, b: Record, keys: set<string>) {
    forall k :: k !in keys ==> (k in a <==> k in b) && (k in a ==> a[k] == b[k])
  }

  // ---------------------------------------------------------------------------------------
  // Conditions
  // ---------------------------------------------------------------------------------------

  /** `Math.ceil((new Date(requiredDeliveryDate) - now) / 86400000)`; NaN for an invalid or
      missing date. */
  function DeliveryDays(pr: Record, now: Clock, parse: DateParse): (d: Value)
    ensures d.Num? || d == NaN
    ensures d.Num? ==> var due := parse(if "requiredDeliveryDate" in pr then pr["requiredDeliveryDate"] else Undefined);
      && due.Some?
      && (d.n - 1) * MillisPerDay < due.value - now.millis <= d.n * MillisPerDay
  {
    var due := parse(if "requiredDeliveryDate" in pr then pr["requiredDeliveryDate"] else Undefined);
    if due.Some? then Num(CeilDivPos(due.value - now.millis, MillisPerDay)) else NaN
  }

  /** The request once the condition has been looked at: `deliveryDays` is written exactly
      when the condition text mentions it. */
  function Prepared(condition: string, pr: Record, now: Clock, parse: DateParse): (r: Record)
    ensures !Includes(condition, "deliveryDays") ==> r == pr
    ensures Includes(condition, "deliveryDays") ==>
              "deliveryDays" in r && r["deliveryDays"] == DeliveryDays(pr, now, parse)
              && SameExcept(pr, r, {"deliveryDays"})
  {
    if Includes(condition, "deliveryDays") then pr["deliveryDays" := DeliveryDays(pr, now, parse)] else pr
  }

  /** Whether the condition holds on the prepared request; an evaluation that throws is false. */
  predicate Holds(condition: string, prepared: Record, eval: ConditionEval) {
    match eval(condition, prepared)
    case None => false
    case Some(v) => IsTruthy(v)
  }

  // ---------------------------------------------------------------------------------------
  // Actions
  // ---------------------------------------------------------------------------------------

  /** `executeAction(rule, pr)` with `now` the time stamped by the action. */
  function ActionResult(rule: ApprovalRule, pr: Record, now: Clock): (r: Record)
    ensures rule.action == "autoApprove" ==>
              && "status" in r && r["status"] == OrElse(rule.setStatus, Str("Approved"))
              && "approvalType" in r && r["approvalType"] == Str("Auto")
              && "approvedAt" in r && r["approvedAt"] == Str(now.iso)
              && SameExcept(pr, r, {"status", "approvalType", "approvedAt"})
    ensures rule.action == "setUrgency" ==>
              && "urgency" in r && r["urgency"] == OrElse(rule.urgency, Str("High"))
              && "urgencySetAt" in r && r["urgencySetAt"] == Str(now.iso)
              && SameExcept(pr, r, {"urgency", "urgencySetAt"})
    ensures rule.action == "requireApproval" ==>
              && "status" in r && r["status"] == Str("Pending Approval")
              && "approvalRequired" in r && r["approvalRequired"] == Bool(true)
              && "approvalLevel" in r && r["approvalLevel"] == rule.approvalLevel
              && SameExcept(pr, r, {"status", "approvalRequired", "approvalLevel"})
    ensures rule.action !in {"autoApprove", "setUrgency", "requireApproval"} ==> r == pr
  {
    match rule.action
    case "autoApprove" =>
      pr["status" := OrElse(rule.setStatus, Str("Approved"))]["approvalType" := Str("Auto")]["approvedAt" := Str(now.iso)]
    case "setUrgency" =>
      pr["urgency" := OrElse(rule.urgency, Str("High"))]["urgencySetAt" := Str(now.iso)]
    case "requireApproval" =>
      pr["status" := Str("Pending Approval")]["approvalRequired" := Bool(true)]["approvalLevel" := rule.approvalLevel]
    case _ => pr
  }

  // ---------------------------------------------------------------------------------------
  // The rule pass
  // ---------------------------------------------------------------------------------------

  /** The request and the number of rules applied after visiting `rules` in order. */
  function ApplyAll(rules: seq<ApprovalRule>, pr: Record, now: Clock, parse: DateParse, eval: ConditionEval): (s: (Record, nat))
    ensures s.1 <= |rules|
  {
    if rules == [] then (pr, 0)
    else
      var before := ApplyAll(rules[..|rules| - 1], pr, now, parse, eval);
      var rule := rules[|rules| - 1];
      var prepared := Prepared(rule.condition, before.0, now, parse);
      if Holds(rule.condition, prepared, eval) then (ActionResult(rule, prepared, now), before.1 + 1)
      else (prepared, before.1)
  }

  /** Whether rule `i`'s condition holds on the request as the rules before it left it. */
  ghost predicate HeldAt(rules: seq<ApprovalRule>, i: nat, pr: Record, now: Clock, parse: DateParse, eval: ConditionEval)
    requires i < |rules|
  {
    Holds(rules[i].condition, Prepared(rules[i].condition, ApplyAll(rules[..i], pr, now, parse, eval).0, now, parse), eval)
  }

  /** The positions among the first `n` rules whose condition held during the pass. */
  ghost function HeldSet(rules: seq<ApprovalRule>, n: nat, pr: Record, now: Clock, parse: DateParse, eval: ConditionEval): set<nat>
    requires n <= |rules|
  {
    set i: nat | i < n && HeldAt(rules, i, pr, now, parse, eval)
  }

  /** Whether a rule held depends only on the rules before it. */
  lemma HeldAtPrefix(rules: seq<ApprovalRule>, n: nat, i: nat, pr: Record, now: Clock, parse: DateParse, eval: ConditionEval)
    requires i < n <= |rules|
    ensures HeldAt(rules[..n], i, pr, now, parse, eval) == HeldAt(rules, i, pr, now, parse, eval)
  {
    assert rules[..n][..i] == rules[..i];
  }

  /** One step of the pass: rule `i`'s action runs on the prepared request, and the rule is
      counted, exactly when its condition held there; otherwise the prepared request goes on. */
  lemma ActionRunsWhenHeld(rules: seq<ApprovalRule>, i: nat, pr: Record, now: Clock, parse: DateParse, eval: ConditionEval)
    requires i < |rules|
    ensures var before := ApplyAll(rules[..i], pr, now, parse, eval);
            var prepared := Prepared(rules[i].condition, before.0, now, parse);
            ApplyAll(rules[..i + 1], pr, now, parse, eval)
              == if HeldAt(rules, i, pr, now, parse, eval) then (ActionResult(rules[i], prepared, now), before.1 + 1)
                 else (prepared, before.1)
  {
    assert rules[..i + 1][..i] == rules[..i];
  }

  /** The held positions among a prefix of the rules are those among the whole list below its
      length. */
  lemma HeldSetPrefix(rules: seq<ApprovalRule>, k: nat, pr: Record, now: Clock, parse: DateParse, eval: ConditionEval)
    requires k <= |rules|
    ensures HeldSet(rules[..k], k, pr, now, parse, eval) == HeldSet(rules, k, pr, now, parse, eval)
  {
    forall i: nat | i < k
      ensures HeldAt(rules[..k], i, pr, now, parse, eval) == HeldAt(rules, i, pr, now, parse, eval)
    {
      HeldAtPrefix(rules, k, i, pr, now, parse, eval);
    }
  }

  /** Looking at one more rule adds its position exactly when its condition held. */
  lemma HeldSetStep(rules: seq<ApprovalRule>, k: nat, pr: Record, now: Clock, parse: DateParse, eval: ConditionEval)
    requires k < |rules|
    ensures |HeldSet(rules, k + 1, pr, now, parse, eval)|
            == |HeldSet(rules, k, pr, now, parse, eval)| + if HeldAt(rules, k, pr, now, parse, eval) then 1 else 0
  {
    var a := HeldSet(rules, k, pr, now, parse, eval);
    var b := HeldSet(rules, k + 1, pr, now, parse, eval);
    var added := if HeldAt(rules, k, pr, now, parse, eval) then {k} else {};
    forall i | i in b ensures i in a + added { }
    forall i | i in a + added ensures i in b { }
    assert b == a + added;
    assert a !! added;
  }

  /** The count of the pass is the number of rules whose condition held on the request as the
      earlier rules left it. */
  lemma {:induction false} AppliedCount(rules: seq<ApprovalRule>, pr: Record, now: Clock, parse: DateParse, eval: ConditionEval)
    ensures ApplyAll(rules, pr, now, parse, eval).1 == |HeldSet(rules, |rules|, pr, now, parse, eval)|
  {
    if rules == [] {
      assert HeldSet(rules, 0, pr, now, parse, eval) == {};
    } else {
      var k := |rules| - 1;
      AppliedCount(rules[..k], pr, now, parse, eval);
      HeldSetPrefix(rules, k, pr, now, parse, eval);
      HeldSetStep(rules, k, pr, now, parse, eval);
    }
  }

  /** `applyRules(pr)`: the pass over the rules, then the processing stamp and the number of
      rules whose condition held. */
  function Processed(rules: seq<ApprovalRule>, pr: Record, now: Clock, parse: DateParse, eval: ConditionEval): (r: Record)
    ensures "processedAt" in r && r["processedAt"] == Str(now.iso)
    ensures "rulesApplied" in r && r["rulesApplied"] == Num(|HeldSet(rules, |rules|, pr, now, parse, eval)|)
    ensures r["rulesApplied"].n <= |rules|
  {
    AppliedCount(rules, pr, now, parse, eval);
    var s := ApplyAll(rules, pr, now, parse, eval);
    s.0["processedAt" := Str(now.iso)]["rulesApplied" := Num(s.1)]
  }

  /** A rule with an unknown action whose condition holds leaves the request as its condition
      left it, yet it is still counted as applied. */
  lemma UnknownActionCounts(rules: seq<ApprovalRule>, rule: ApprovalRule, pr: Record, now: Clock, parse: DateParse, eval: ConditionEval)
    requires rule.action !in {"autoApprove", "setUrgency", "requireApproval"}
    requires var before := ApplyAll(rules, pr, now, parse, eval).0;
             Holds(rule.condition, Prepared(rule.condition, before, now, parse), eval)
    ensures var before := ApplyAll(rules, pr, now, parse, eval);
            ApplyAll(rules + [rule], pr, now, parse, eval)
              == (Prepared(rule.condition, before.0, now, parse), before.1 + 1)
  {
    assert (rules + [rule])[..|rules|] == rules;
  }

  /** With no condition holding and none mentioning the delivery days, the request comes out
      of the pass as it went in and no rule is counted. */
  lemma {:induction false} NothingHolds(rules: seq<ApprovalRule>, pr: Record, now: Clock, parse: DateParse, eval: ConditionEval)
    requires forall i :: 0 <= i < |rules| ==> !Includes(rules[i].condition, "deliveryDays")
    requires forall i :: 0 <= i < |rules| ==> !Holds(rules[i].condition, pr, eval)
    ensures ApplyAll(rules, pr, now, parse, eval) == (pr, 0)
  {
    if rules != [] {
      NothingHolds(rules[..|rules| - 1], pr, now, parse, eval);
    }
  }

  /** A rule whose `requireApproval` action runs last decides the status, whatever earlier
      rules set. */
  lemma LaterRuleOverrides(rules: seq<ApprovalRule>, rule: ApprovalRule, pr: Record, now: Clock, parse: DateParse, eval: ConditionEval)
    requires rule.action == "requireApproval"
    requires Holds(rule.condition, Prepared(rule.condition, ApplyAll(rules, pr, now, parse, eval).0, now, parse), eval)
    ensures ApplyAll(rules + [rule], pr, now, parse, eval).0["status"] == Str("Pending Approval")
  {
    assert (rules + [rule])[..|rules|] == rules;
  }

  class PurchaseRequest {
    var fields: Record

    constructor(init: Record)
      ensures fields == init
    {
      fields := init;
    }
  }

  class BusinessRulesEngine {
    var approvalRules: seq<ApprovalRule>

    /** `loaded` is the parsed rules file, `None` when reading or parsing it failed. */
    constructor(loaded: Option<seq<ApprovalRule>>)
      ensures approvalRules == loaded.GetOr([])
    {
      approvalRules := loaded.GetOr([]);
    }

    /** `applyRules(prData)`: works on a shallow copy, so the caller's request keeps its fields. */
    method ApplyRules(prData: PurchaseRequest, now: Clock, parse: DateParse, eval: ConditionEval)
      returns (processed: PurchaseRequest)
      ensures fresh(processed) && unchanged(prData)
      ensures processed.fields == Processed(approvalRules, prData.fields, now, parse, eval)
    {
      processed := new PurchaseRequest(prData.fields);
      var rulesAppliedCount := 0;
      for i := 0 to |approvalRules|
        invariant (processed.fields, rulesAppliedCount) == ApplyAll(approvalRules[..i], prData.fields, now, parse, eval)
      {
        var rule := approvalRules[i];
        assert approvalRules[..i + 1][..i] == approvalRules[..i];
        var holds := EvaluateCondition(rule.condition, processed, now, parse, eval);
        if holds {
          ExecuteAction(rule, processed, now);
          rulesAppliedCount := rulesAppliedCount + 1;
        }
      }
      assert approvalRules[..|approvalRules|] == approvalRules;
      processed.fields := processed.fields["processedAt" := Str(now.iso)];
      processed.fields := processed.fields["rulesApplied" := Num(rulesAppliedCount)];
    }

    /** `evaluateCondition(condition, data)`: writes the delivery days into `data` when the
        condition mentions them, then tests the condition. */
    method EvaluateCondition(condition: string, data: PurchaseRequest, now: Clock, parse: DateParse, eval: ConditionEval)
      returns (holds: bool)
      modifies data
      ensures data.fields == Prepared(condition, old(data.fields), now, parse)
      ensures holds == Holds(condition, data.fields, eval)
    {
      if Includes(condition, "deliveryDays") {
        data.fields := data.fields["deliveryDays" := DeliveryDays(data.fields, now, parse)];
      }
      var value := eval(condition, data.fields);
      holds := value.Some? && IsTruthy(value.value);
    }

    /** `executeAction(rule, prData)`: sets the fields of the rule's action on `prData`. */
    method ExecuteAction(rule: ApprovalRule, prData: PurchaseRequest, now: Clock)
      modifies prData
      ensures prData.fields == ActionResult(rule, old(prData.fields), now)
    {
      match rule.action
      case "autoApprove" =>
        prData.fields := prData.fields["status" := OrElse(rule.setStatus, Str("Approved"))];
        prData.fields := prData.fields["approvalType" := Str("Auto")];
        prData.fields := prData.fields["approvedAt" := Str(now.iso)];
      case "setUrgency" =>
        prData.fields := prData.fields["urgency" := OrElse(rule.urgency, Str("High"))];
        prData.fields := prData.fields["urgencySetAt" := Str(now.iso)];
      case "requireApproval" =>
        prData.fields := prData.fields["status" := Str("Pending Approval")];
        prData.fields := prData.fields["approvalRequired" := Bool(true)];
        prData.fields := prData.fields["approvalLevel" := rule.approvalLevel];
      case _ =>
    }
  }
}
