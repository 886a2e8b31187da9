# Procurement rule engine — a Dafny model

This project models the core of a procurement validation service. The service works in
these steps:

- An administrator stores a set of business rules. Each rule has conditions on fields of a
  procurement record, joined by `AND`/`OR`, and a list of actions.
- A client posts one record, or a batch of records, to be checked against the active rules.
- The rule engine evaluates every active rule in order. It then summarises the run as
  `PASSED`/`FAILED` and writes recommendations for the failed rules.
- The controller stores each evaluation in a bounded in-memory validation history. The
  history can be paged, filtered by status and summarised.

The core also includes the surrounding pieces:

- the legacy approval-rule pass over purchase requests;
- the invoice payment hook;
- the two vendor comparison reports, which merge purchase-order and invoice aggregates per
  vendor;
- the endpoint that seeds sample data.

Modules:

- `Util`: option and result types, and the clock reading passed in as a parameter.
  - Sequence helpers: `slice(-n)`, `Array.prototype.slice`, `Math.ceil` of a quotient, `new Set`.
  - An insertion-ordered map (a JS `Map` or object), the stable descending sort and sums.
- `Values`: JavaScript values and the operators the engine applies to them.
  - Truthiness, `String()`, `Number()`, `===`, `Array.prototype.includes`.
  - `String.prototype.includes` and the dot-path walk of `getNestedValue`.
- `RuleConfig`: the rule data model and the `active` filter.
- `RuleEngine`: `RuleEngineService`, with the conditions, the left-to-right fold of the
  logical operators, rule results, stop-on-first-failure, the summary and the recommendations.
- `RulesStore`: `RulesModel`, the in-memory rule store.
- `ValidationHistory`: `ValidationModel`, the history with its 1000-record cap, filter,
  pagination and statistics.
- `ValidateController`: the single and batch validation endpoints.
- `LegacyRules`: `BusinessRulesEngine`, the approval-rule pass over purchase requests.
- `Invoices`: the invoice pre-save hook and `addPayment`.
- `VendorMerge`: the generic per-vendor merge into a map, keyed by vendor id, shared by both
  reports.
- `ReportsModel`: `getVendorComparisonReport` and the statistics defaults.
- `ReportsController`: `getVendorComparison` and `createSampleData`.

Objects whose fields the source updates in place are classes with `modifies` clauses:
`RuleEngineService`, `RulesModel`, `ValidationModel`, the controller, `BusinessRulesEngine`
and its purchase request, `Invoice`, and the sample-data collections. Each method is proved
against a function of its inputs and old state, and the lemmas state the properties of that
function. The service's own loops are methods with loop invariants. These are the evaluation
loop with its `break`, the fold of logical operators, the recommendation loops, the batch
loop, the approval-rule pass and the report merges.

## Model

| member | source | states |
|---|---|---|
| RuleConfig.Connective | src/services/RuleEngineService.js:152 | a condition's connective is its `logical_operator` when that is non-empty, and `AND` otherwise |
| RuleConfig.ActiveRules | src/services/RuleEngineService.js:11 | keeps only active rules, each one drawn from the input |
| RuleConfig.ActiveRulesConcat | src/services/RuleEngineService.js:11 | filtering distributes over concatenation, so kept rules stay in their original order |
| RuleConfig.ActiveRulesMembers | src/model/RulesModel.js:50 | a rule is kept exactly when it is among the rules and is active |
| RuleConfig.ActiveRulesExactly | src/model/RulesModel.js:50 | the kept rules are exactly the active rules (both directions) |
| RuleConfig.ActiveRulesIdempotent | src/controller/validateController.js:32-42 | filtering the active rules again keeps all of them, so `setRules` on `getActiveRules()` loads them unchanged |
| RuleConfig.ActivePlusInactive | src/model/RulesModel.js:119-121 | active count + inactive count = total rules |
| RuleConfig.ActiveRulesAllActive | src/services/RuleEngineService.js:11 | when every rule is active, the filter returns all of them |
| RuleConfig.InactiveRules | src/model/RulesModel.js:121 | keeps only inactive rules, each one drawn from the input |
| Values.OrElse | src/controller/reportsController.js:341-342 | `a \|\| b` gives `a` when it is truthy, else `b` |
| Values.NumberOfStringOfNumber | src/services/RuleEngineService.js:91-100 | `Number(String(n))` gives back the integer `n` |
| Values.IncludesIffOccurs | src/services/RuleEngineService.js:103 | `s.includes(t)` holds exactly when `t` occurs in `s` at some index |
| Values.JoinSplitPath | src/services/RuleEngineService.js:165 | joining `path.split('.')` with dots gives back the path |
| Values.SplitPathConcat | src/services/RuleEngineService.js:165 | splitting `p.q` gives the parts of `p` followed by the parts of `q` |
| Values.WalkConcat | src/services/RuleEngineService.js:165-167 | walking a path in two halves equals walking it whole |
| Values.WalkStopsAtFalsy | src/services/RuleEngineService.js:166 | once the walk reaches a falsy value, the nested value is `undefined` |
| Values.NestedValueOfDottedPath | src/services/RuleEngineService.js:164-168 | the value at `p.q` is the walk of `q` from the value at `p` |
| Values.NestedValueOfPlainField | src/services/RuleEngineService.js:164-168 | a path without dots reads the record's own field, and is `undefined` when the field is absent |
| RuleEngine.OperatorHolds | src/services/RuleEngineService.js:83-122 | a result exists exactly when the operator is one of the twelve known ones |
| RuleEngine.EvaluateCondition | src/services/RuleEngineService.js:75-140 | the condition result carries the condition's field and operator |
| RuleEngine.ConditionResults | src/services/RuleEngineService.js:39-41 | one result per condition |
| RuleEngine.ConditionResultsAt | src/services/RuleEngineService.js:39-41 | the i-th result is the evaluation of the i-th condition |
| RuleEngine.InNotIn | src/services/RuleEngineService.js:108-113 | `in` and `not_in` both fail when the rule value is not an array; on an array exactly one of them holds |
| RuleEngine.ExistsNotExists | src/services/RuleEngineService.js:114-119 | `exists`/`not_exists` are complements; `exists` holds exactly when the value is neither undefined nor null |
| RuleEngine.MissingPathIsNull | src/services/RuleEngineService.js:114-119 | on a missing or null field, only `not_exists` passes |
| RuleEngine.EqualsNotEquals | src/services/RuleEngineService.js:84-89 | `equals`/`not_equals` are complements; an array, object or NaN in the rule never equals anything |
| RuleEngine.NumericWithNaN | src/services/RuleEngineService.js:90-101 | a numeric comparison fails when either side does not convert to a number |
| RuleEngine.NumericOnNumbers | src/services/RuleEngineService.js:90-101 | on two numbers, the four comparisons are the integer comparisons |
| RuleEngine.UnknownOperatorFails | src/services/RuleEngineService.js:120-121 | an unknown operator gives a failed result carrying `Unknown operator: <name>` |
| RuleEngine.CheckedReportsValues | src/services/RuleEngineService.js:124-131 | a checked result reports the nested value at the field, the rule's value, and the operator's verdict |
| RuleEngine.ApplyLogicalOperators | src/services/RuleEngineService.js:142-162 | the loop's verdict is the left-to-right fold `Verdict`, with no result for zero conditions |
| RuleEngine.VerdictSingle | src/services/RuleEngineService.js:143-145 | a single condition's verdict is the rule's verdict |
| RuleEngine.VerdictNoPrecedence | src/services/RuleEngineService.js:149-159 | `A AND B OR C` folds as `(A && B) \|\| C`; with A failing and B, C passing, the rule passes |
| RuleEngine.FoldAllAnd | src/services/RuleEngineService.js:151-159 | with only AND connectives, the fold holds exactly when every condition passed |
| RuleEngine.FoldAllOr | src/services/RuleEngineService.js:151-159 | with only OR connectives, the fold holds exactly when some condition passed |
| RuleEngine.FoldUnknownConnectives | src/services/RuleEngineService.js:154-158 | connectives other than AND/OR leave the first verdict as the result |
| RuleEngine.LastConnectiveIgnored | src/services/RuleEngineService.js:151-152 | the last condition's connective never affects the verdict |
| RuleEngine.EvaluateRule | src/services/RuleEngineService.js:35-73 | the method returns the rule's outcome `RuleOutcome` |
| RuleEngine.NoConditionsIsError | src/services/RuleEngineService.js:63-72 | a rule with no conditions is reported as failed with an error, and only such a rule is |
| RuleEngine.RuleOutcomeShape | src/services/RuleEngineService.js:44-60 | a rule passes exactly when its fold holds; a passed rule carries its actions, a failed one none; condition results are kept only with rule details |
| RuleEngine.AllAndRule | src/services/RuleEngineService.js:44-159 | a rule whose conditions are all joined by AND passes exactly when each condition passes |
| RuleEngine.AmountThresholdScenario | src/services/RuleEngineService.js:90-91 | `totalAmount greater_than 10000` passes at 15000 with the rule's actions, and fails at 5000 with none |
| RuleEngine.MapRules | src/services/RuleEngineService.js:19-22 | one result per rule |
| RuleEngine.Outcomes | src/services/RuleEngineService.js:19-22 | one outcome per rule |
| RuleEngine.OutcomesAt | src/services/RuleEngineService.js:20 | the i-th outcome is the i-th rule's result |
| RuleEngine.FirstFailure | src/services/RuleEngineService.js:23-25 | the index of the first failed result: every earlier result passed, and the one at the index failed |
| RuleEngine.RunWithoutStop | src/services/RuleEngineService.js:19-26 | without stop-on-first-failure, every rule is evaluated, in order |
| RuleEngine.RunWithStop | src/services/RuleEngineService.js:19-26 | with stop-on-first-failure, the recorded results are a prefix of the outcomes in which every result but possibly the last passed; a run that stops early ends with its first failure |
| RuleEngine.CountPassedAll | src/services/RuleEngineService.js:172 | the passed count equals the number of results exactly when all passed |
| RuleEngine.SummaryOf | src/services/RuleEngineService.js:170-182 | total = number of results; passed + failed = total; the status is PASSED exactly when nothing failed |
| RuleEngine.SummaryStatus | src/services/RuleEngineService.js:180 | the status is PASSED exactly when every recorded rule passed |
| RuleEngine.FailedResults | src/services/RuleEngineService.js:189 | the failed results number total minus passed; each one failed and comes from the results |
| RuleEngine.FailedConditionLines | src/services/RuleEngineService.js:200-205 | at most one line per condition result |
| RuleEngine.RuleLines | src/services/RuleEngineService.js:197-206 | a failed rule's lines start with its fix line |
| RuleEngine.RuleLinesCount | src/services/RuleEngineService.js:197-206 | a failed rule gives 1 line, plus 1 per failed condition when its condition results were kept |
| RuleEngine.FailedConditionLinesCount | src/services/RuleEngineService.js:200-205 | one line per failed condition exactly |
| RuleEngine.RecommendationsSuccess | src/services/RuleEngineService.js:189-192 | the recommendations are the single success line exactly when every rule passed |
| RuleEngine.RecommendationsWithoutDetails | src/services/RuleEngineService.js:196-207 | without condition details, there is exactly one fix line per failed rule, naming that rule |
| RuleEngine.OutcomesWithoutDetails | src/services/RuleEngineService.js:58-60 | without rule details, no result keeps its condition results |
| RuleEngine.RuleEngineService.constructor | src/services/RuleEngineService.js:4-8 | starts with no rules and no results |
| RuleEngine.RuleEngineService.SetRules | src/services/RuleEngineService.js:10-13 | the loaded rules are the active ones |
| RuleEngine.RuleEngineService.Evaluate | src/services/RuleEngineService.js:15-33 | records the results of the run, with or without stopping, and returns the summary, results and recommendations |
| RuleEngine.RuleEngineService.RecordResults | src/services/RuleEngineService.js:17-26 | the loop with `break` records exactly the run results |
| RuleEngine.RuleEngineService.GetEvaluationSummary | src/services/RuleEngineService.js:170-186 | the evaluation of the recorded results |
| RuleEngine.RuleEngineService.GenerateRecommendations | src/services/RuleEngineService.js:188-210 | the loops produce exactly `Recommendations(results)` |
| RuleEngine.RuleEngineService.AppendConditionLines | src/services/RuleEngineService.js:200-205 | appends exactly the failed conditions' lines |
| RuleEngine.RuleEngineService.AppendRuleLines | src/services/RuleEngineService.js:196-207 | appends exactly one failed rule's lines |
| RulesStore.DistinctTypes | src/model/RulesModel.js:30 | `[...new Set(types)]` has no duplicates and holds exactly the types that occur |
| RulesStore.CountTypesSum | src/model/RulesModel.js:122-125 | the per-type counts add up to the number of rules |
| RulesStore.TypeCountsKeys | src/model/RulesModel.js:122-125 | the per-type tally has each type once |
| RulesStore.TypeCountsCorrect | src/model/RulesModel.js:122-125 | a type's tally is the number of rules of that type, and the type is absent when there are none |
| RulesStore.FindRule | src/model/RulesModel.js:57-64 | returns the first index with that id, or none exactly when no rule has it |
| RulesStore.ApplyPatch | src/model/RulesModel.js:74-78 | the patched rule takes each field from the patch when given and from the rule otherwise; the id is kept and `updated_at` is stamped |
| RulesStore.ApplyPatchIdempotent | src/model/RulesModel.js:74-78 | applying the same patch twice equals applying it once |
| RulesStore.EmptyPatch | src/model/RulesModel.js:74-78 | an empty patch only stamps `updated_at` |
| RulesStore.UpdateById | src/model/RulesModel.js:68-80 | only the first rule with the id is patched; the length is kept; with no match nothing changes |
| RulesStore.DeleteById | src/model/RulesModel.js:89-96 | removes exactly the first rule with the id; with no match nothing changes |
| RulesStore.DeleteByIdMultiset | src/model/RulesModel.js:95 | the removed rule plus the rest is the original multiset |
| RulesStore.UpdateKeepsLookup | src/model/RulesModel.js:74-78 | an update never moves any id's first position |
| RulesStore.SaveReportOf | src/model/RulesModel.js:23-32 | the report counts the saved rules, the active rules and the distinct types |
| RulesStore.Saved | src/model/RulesModel.js:17-21 | the stored set keeps the saved data, stamps the time and records the rule count |
| RulesStore.RulesModel.constructor | src/model/RulesModel.js:4-13 | starts with no rules, version 1.0.0, no update time and empty metadata |
| RulesStore.RulesModel.SaveRules | src/model/RulesModel.js:15-37 | replaces the stored set with `Saved(data)` and returns its report |
| RulesStore.RulesModel.GetRules | src/model/RulesModel.js:39-46 | returns the stored rules element by element |
| RulesStore.RulesModel.GetActiveRules | src/model/RulesModel.js:48-55 | exactly the active stored rules; with the inactive ones, they make up all the rules |
| RulesStore.RulesModel.GetRuleById | src/model/RulesModel.js:57-64 | finds a rule exactly when one has the id, and returns the first such rule |
| RulesStore.RulesModel.UpdateRule | src/model/RulesModel.js:66-85 | patches the first rule with the id and returns it, or returns null and changes nothing |
| RulesStore.RulesModel.DeleteRule | src/model/RulesModel.js:87-101 | returns true exactly when a rule had the id, and removes that first rule |
| RulesStore.RulesModel.GetRulesSummary | src/model/RulesModel.js:103-113 | counts the given rules, the active ones and the distinct types, and copies version and update time |
| RulesStore.RulesModel.GetRulesStats | src/model/RulesModel.js:115-132 | active + inactive = total; each type's tally is its rule count, and the tallies add up to the total |
| ValidationHistory.ToLower | src/model/ValidationModel.js:56-64 | lower-cases the ASCII letters `A`-`Z`, leaves every other character alone and keeps the length |
| ValidationHistory.ToLowerIdempotent | src/model/ValidationModel.js:58 | lower-casing twice equals lower-casing once |
| ValidationHistory.FilterByStatus | src/model/ValidationModel.js:56-64 | keeps only records whose status matches, each one drawn from the history |
| ValidationHistory.FilterByStatusMembers | src/model/ValidationModel.js:56-64 | a record is kept exactly when it is in the history and its status matches |
| ValidationHistory.FilterIgnoresCase | src/model/ValidationModel.js:56-64 | two status filters that differ only in case give the same records |
| ValidationHistory.Filtered | src/model/ValidationModel.js:55 | a missing or empty status filters nothing |
| ValidationHistory.HistoryQuery | src/model/ValidationModel.js:51-81 | the page is the sorted slice of the filtered history; the total is the filtered count; pages is the ceiling of total over limit, and absent when the limit is 0 |
| ValidationHistory.PageDataWindow | src/model/ValidationModel.js:67-71 | the page is the window from `(page-1)*limit`, of at most `limit` records, in the newest-first order |
| ValidationHistory.PageDataContents | src/model/ValidationModel.js:67-71 | every paged record is from the filtered history, and the page is ordered newest first |
| ValidationHistory.HistoryPageWindow | src/model/ValidationModel.js:67-80 | the page holds at most `limit` records, taken from the filtered history |
| ValidationHistory.HistoryPageContents | src/model/ValidationModel.js:55-80 | every paged record is in the status-filtered history, and the page is ordered newest first |
| ValidationHistory.PageBeyondLast | src/model/ValidationModel.js:67-79 | a page past the last one is empty |
| ValidationHistory.StatsOf | src/model/ValidationModel.js:88-103 | passed + failed = total; the last validation is the newest record's time, and null exactly when the history is empty |
| ValidationHistory.StatusTextLower | src/model/ValidationModel.js:57-62 | a stored status is PASSED or FAILED, and matches `passed` in any case exactly when it is PASSED |
| ValidationHistory.PassedIsFilter | src/model/ValidationModel.js:91-95 | the passed count in the statistics equals the size of the `passed` filter |
| ValidationHistory.SaveKeepsNewest | src/model/ValidationModel.js:18-23 | after a save, at most 1000 records remain, ending with the new one; they are the newest in order |
| ValidationHistory.SaveIsLastValidation | src/model/ValidationModel.js:18-102 | a saved record's time becomes the last validation, whether the save trims or not |
| ValidationHistory.BatchSaveExceedsCap | src/model/ValidationModel.js:42 | a batch save onto a full history leaves 1001 records, which a single save would trim to 1000 |
| ValidationHistory.ValidationModel.constructor | src/model/ValidationModel.js:4-8 | starts with an empty history |
| ValidationHistory.ValidationModel.SaveValidationResult | src/model/ValidationModel.js:10-30 | appends the record and keeps the last 1000 |
| ValidationHistory.ValidationModel.SaveBatchValidationResult | src/model/ValidationModel.js:32-49 | appends the batch record without trimming |
| ValidationHistory.ValidationModel.GetValidationHistory | src/model/ValidationModel.js:51-86 | answers `HistoryQuery` on the stored history |
| ValidationHistory.ValidationModel.GetValidationStats | src/model/ValidationModel.js:88-108 | answers `StatsOf` on the stored history |
| ValidateController.RecordId | src/controller/validateController.js:95 | the record's id when it is truthy, else `record_<i>` |
| ValidateController.BatchStatus | src/controller/validateController.js:87-101 | FAILED exactly when some record's evaluation failed |
| ValidateController.BatchStatusSnoc | src/controller/validateController.js:99-101 | one loop step: a failed record makes the batch FAILED, anything else keeps the status |
| ValidateController.PassedPlusFailed | src/controller/validateController.js:105-107 | passed records + failed records = all records |
| ValidateController.BatchStatusCount | src/controller/validateController.js:99-108 | the batch status is FAILED exactly when the failed count is positive |
| ValidateController.BatchSummaryOf | src/controller/validateController.js:104-110 | passed + failed = total records; FAILED exactly when some failed |
| ValidateController.Controller.constructor | src/controller/validateController.js:8-15 | wires the history and store, with a fresh empty rule engine |
| ValidateController.Controller.ValidateData | src/controller/validateController.js:18-62 | refuses invalid input, and refuses when there are no active rules, changing nothing; otherwise loads the active rules, evaluates and saves the result in the capped history |
| ValidateController.Controller.ValidateBatch | src/controller/validateController.js:64-129 | the same refusals; otherwise gives one entry per record in order, the batch summary, and appends one uncapped batch record |
| ValidateController.Controller.RunBatch | src/controller/validateController.js:85-102 | the loop gives entry i for record i, and the batch status of those entries |
| LegacyRules.DeliveryDays | src/helper/businessRules.js:43-46 | the days until delivery, the ceiling of the difference in days; NaN when the date does not parse |
| LegacyRules.Prepared | src/helper/businessRules.js:43-48 | `deliveryDays` is written, and nothing else, exactly when the condition mentions it |
| LegacyRules.ActionResult | src/helper/businessRules.js:73-97 | each known action sets its fields, with their defaults, and changes nothing else; an unknown action changes nothing |
| LegacyRules.ApplyAll | src/helper/businessRules.js:26-31 | at most one application per rule |
| LegacyRules.HeldAtPrefix | src/helper/businessRules.js:26-35 | whether rule i held depends only on the rules before it, so it is the same in any longer list |
| LegacyRules.ActionRunsWhenHeld | src/helper/businessRules.js:26-35 | after rule i, the request is rule i's action applied to the prepared request and the count goes up by one when its condition held on the request as the earlier rules left it; otherwise the prepared request passes on with the count unchanged |
| LegacyRules.HeldSetPrefix | src/helper/businessRules.js:26-35 | the rules that held among the first k of a list are those that held among the first k of any longer list |
| LegacyRules.HeldSetStep | src/helper/businessRules.js:26-35 | looking at one more rule adds one to the number that held exactly when its condition held |
| LegacyRules.AppliedCount | src/helper/businessRules.js:26-35 | the pass's count is the number of rules whose condition held on the request as updated by the rules before it |
| LegacyRules.Processed | src/helper/businessRules.js:22-38 | the result carries `processedAt` and `rulesApplied`, which is the number of rules whose condition held on the progressively updated request, hence at most the number of rules |
| LegacyRules.UnknownActionCounts | src/helper/businessRules.js:26-31 | a rule whose condition holds but whose action is unknown is still counted as applied |
| LegacyRules.NothingHolds | src/helper/businessRules.js:22-31 | when no condition mentions `deliveryDays` and none holds on the request itself, it passes through unchanged with count 0 |
| LegacyRules.LaterRuleOverrides | src/helper/businessRules.js:26-89 | a later `requireApproval` that holds overrides any earlier status |
| LegacyRules.PurchaseRequest.constructor | src/helper/businessRules.js:23 | the request holds the given fields |
| LegacyRules.BusinessRulesEngine.constructor | src/helper/businessRules.js:7-20 | the loaded approval rules, or none when loading fails |
| LegacyRules.BusinessRulesEngine.ApplyRules | src/helper/businessRules.js:22-38 | returns a fresh request equal to `Processed(...)` and leaves the input untouched |
| LegacyRules.BusinessRulesEngine.EvaluateCondition | src/helper/businessRules.js:40-71 | writes the delivery days into the request and returns whether the condition holds; a throwing evaluation is false |
| LegacyRules.BusinessRulesEngine.ExecuteAction | src/helper/businessRules.js:73-97 | updates the request to `ActionResult` |
| Invoices.AfterHook | src/model/InvoiceModel.js:145-159 | the amounts are kept; unpaid gives received, or cancelled when it was cancelled; paid in full gives paid with nothing outstanding; otherwise partially paid with outstanding = total - paid |
| Invoices.HookBounds | src/model/InvoiceModel.js:146-153 | with non-negative amounts, 0 <= outstanding <= total |
| Invoices.HookIdempotent | src/model/InvoiceModel.js:145-159 | saving twice equals saving once |
| Invoices.PayingOffSettles | src/model/InvoiceModel.js:151-153 | paying the outstanding amount of a partially paid invoice settles it as paid |
| Invoices.HookIgnoresOldFields | src/model/InvoiceModel.js:145-159 | the result depends only on total and paid, except for an unpaid cancelled invoice |
| Invoices.Invoice.constructor | src/model/InvoiceModel.js:34-64 | a new invoice is a draft with nothing paid and no payments |
| Invoices.Invoice.PreSave | src/model/InvoiceModel.js:145-159 | the state becomes `AfterHook` of the old state |
| Invoices.AddPayment | src/model/InvoiceModel.js:240-258 | no invoice gives `Invoice not found`; otherwise the payment is appended, the amount added and the hook applied |
| ReportsModel.SummaryOf | src/model/ReportsModel.js:240-256 | spend, billed, paid and outstanding are copied; variance = spend - billed; of the unrounded figures, billing rate + variance % = 100 and billing rate × spend = 100 × billed when spend > 0, both 0 otherwise |
| ReportsModel.Rows | src/model/ReportsModel.js:240-257 | one row per vendor entry, in order |
| ReportsModel.MergedKeys | src/model/ReportsModel.js:155-237 | each vendor once in the map; exactly the vendors of either side; each entry is stored under its own id |
| ReportsModel.ReportVendorsOnce | src/model/ReportsModel.js:155-264 | the report lists each vendor once, and exactly the vendors of either side |
| ReportsModel.ReportSorted | src/model/ReportsModel.js:260 | the report is sorted by spend, descending |
| ReportsModel.ReportRowsAreMerged | src/model/ReportsModel.js:240-260 | each row is the summary of a merged entry |
| ReportsModel.PurchaseOnlyVendor | src/model/ReportsModel.js:158-187 | a vendor with purchase rows only has its last purchase row's entry and zero invoices |
| ReportsModel.VendorOnBothSides | src/model/ReportsModel.js:158-237 | such a vendor keeps the name and purchase figures of its last purchase row, with the invoice figures of its last invoice row |
| ReportsModel.InvoiceOnlyVendor | src/model/ReportsModel.js:190-237 | such a vendor has zero purchases, its last invoice row's figures and its first invoice row's name |
| ReportsModel.GetVendorComparisonReport | src/model/ReportsModel.js:146-269 | the loops and the sort produce exactly `Report(...)` |
| ReportsModel.PurchaseOrderStatsOf | src/model/ReportsModel.js:331-338 | the first aggregate row, or all zeros when there is none |
| ReportsModel.InvoiceStatsOf | src/model/ReportsModel.js:392-402 | the first aggregate row, or all zeros when there is none |
| ReportsController.RowOf | src/controller/reportsController.js:290-306 | variance = PO - invoiced; of the unrounded figures, variance % + invoice/PO ratio = 100 when PO > 0, both 0 otherwise; payment % is paid/invoiced × 100, or 0 |
| ReportsController.Rows | src/controller/reportsController.js:290-306 | one row per entry, in order |
| ReportsController.GetVendorComparison | src/controller/reportsController.js:240-319 | the response's vendors are `Results` and its summary is computed from them |
| ReportsController.MergedKeys | src/controller/reportsController.js:240-287 | each vendor once in the map; exactly the vendors of either side |
| ReportsController.ResultsVendorsOnce | src/controller/reportsController.js:240-307 | the results list each vendor once, and exactly the vendors of either side |
| ReportsController.ResultsSorted | src/controller/reportsController.js:307 | the results are sorted by PO total, descending |
| ReportsController.ResultsAreMerged | src/controller/reportsController.js:290-307 | each row is the row of a merged entry |
| ReportsController.PurchaseFiguresKept | src/controller/reportsController.js:243-287 | invoices never change PO figures: the last PO row's figures, or zero without one |
| ReportsController.InvoiceFiguresSet | src/controller/reportsController.js:262-287 | a vendor's invoice figures are its last invoice row's, or zero without one |
| ReportsController.ResultsSum | src/controller/reportsController.js:290-315 | a sum over the results equals the same sum over the merged entries |
| ReportsController.MergedInvoiceSum | src/controller/reportsController.js:243-287 | with one row per vendor, the merged invoice figures add up to the invoice aggregate's totals |
| ReportsController.ComparisonTotals | src/controller/reportsController.js:309-316 | with one row per vendor on each side, the summary's totals equal the aggregates' totals, and the vendor count is the number of distinct vendors |
| ReportsController.Total | src/controller/reportsController.js:460-463 | a sum exists exactly when every amount is a number or missing |
| ReportsController.TotalSkipsMissing | src/controller/reportsController.js:460-463 | a missing or falsy amount adds nothing |
| ReportsController.TotalAddsNumber | src/controller/reportsController.js:460-463 | a numeric amount is added to the total |
| ReportsController.Labels | src/controller/reportsController.js:477-478 | one `id: name` label per record |
| ReportsController.VendorList | src/controller/reportsController.js:476-479 | no duplicates, and exactly the labels from either list |
| ReportsController.DataSourceAsWritten | src/controller/reportsController.js:467 | the label as written: `request_body` for any non-empty body |
| ReportsController.DataSource | src/controller/reportsController.js:337-467 | the corrected label names the lists actually used: `request_body` means the body's lists, `hardcoded` the hardcoded sample |
| ReportsController.DataSourceMislabelled | src/controller/reportsController.js:337-467 | a body `{note: "x"}` gets the hardcoded sample but is labelled `request_body`, where the corrected label says `hardcoded` |
| ReportsController.DataSourceLabelsAgree | src/controller/reportsController.js:337-467 | the label as written and the corrected one differ exactly for a non-empty body naming neither list |
| ReportsController.SamplePOFields | src/controller/reportsController.js:349-441 | a sample purchase order carries its label and total |
| ReportsController.SampleInvoiceFields | src/controller/reportsController.js:349-441 | a sample invoice carries its label and its three amounts |
| ReportsController.HardcodedTotals | src/controller/reportsController.js:349-463 | the hardcoded sample totals are 113500 for POs and invoices, 26750 paid and 86750 outstanding |
| ReportsController.HardcodedSampleReport | src/controller/reportsController.js:337-486 | a body without lists creates the hardcoded sample, reported under the label as written on line 467 |
| ReportsController.HardcodedSampleStatistics | src/controller/reportsController.js:465-475 | the hardcoded response has 3 + 3 records and the totals above; it is labelled `hardcoded` for an empty body and `request_body` for a non-empty one |
| ReportsController.Collections.constructor | src/controller/reportsController.js:456-457 | both collections start empty |
| ReportsController.CreateSampleData | src/controller/reportsController.js:331-492 | refuses non-arrays without touching the collections; otherwise appends both lists and answers `SampleOutcomeOf(body)`, whose label is the one line 467 computes |

## Left out

- The condition text of the legacy approval rules is run with `eval`. Here it is an abstract
  function of the text and the request; `None` stands for a throw. The regex substitution of
  field values into the text is part of that function. Date parsing is likewise an abstract
  function, and the clock is a parameter.
- Loading `businessRules.json` is not modelled; the constructor receives the parsed rules, or
  none when reading fails. A file without `approvalRules` makes `applyRules` throw; that case
  is not modelled.
- The MongoDB aggregation pipelines, schemas, indexes and CRUD methods are not modelled.
  The reports take the aggregate rows as inputs, and `findById` becomes an `Invoice?` argument.
  `insertMany` is an append to a sequence. Database ids and `insertedData` are left out, and
  the inserted count is the list length.
- The Joi input schemas of the validation helper are not modelled. A request that the schema
  refuses is `None`, and an accepted one carries the parsed record(s) and options.
- HTTP routing, response helpers, status codes, logging and `try`/`catch` around
  infrastructure failures are not modelled. So are the SQL queries, the seeder and
  `server.js`.
- Floating point is not modelled.
  - Numbers inside records are integers; decimals and numeric strings with whitespace,
    signs other than a leading `-`, hex or exponents are outside the model.
  - Amounts in the invoice and report modules are exact reals, and
    `Math.round(x * 100) / 100` is not applied.
  - `successRate` (`toFixed(2)`) is left out of the history statistics.
- Record ids (`generateId`, with `Date.now()` and `Math.random()`) and ISO timestamps are
  parameters. One `now` stamps every rule result and the summary of one evaluation, where the
  source reads the clock each time.
- `Promise.all` over the conditions is a sequential map. The rule engine instance shared by
  concurrent requests, and interleavings between them, are not modelled.
- Arrays and objects are compared by identity under `===`. A value read from a record is never
  the same object as one in a rule, so the model treats them as never equal.
- `getValidationHistory` with `limit = 0` yields `pages` as absent, where the source gives
  `Infinity` or `NaN`. Non-integer `page` or `limit` values are outside the model.
- `getValidationHistory` sorts the filtered copy by `createdAt`. The sort key here is the
  clock reading of each record, and the JS sort's stability is taken as given.
- A history record with neither `summary` nor `batchSummary` cannot arise here: every stored
  record is built from an evaluation or a batch.
- The stored rule store's `metadata` and the rules' `updated_at` are opaque values.
- ReportsModel.SummaryOf: the laws billing rate + variance % = 100 hold of the exact figures; the source rounds each percentage to cents, and for spend 32 and billed 1 the rounded figures are 3.13 and 96.88, which add to 100.01.
- ReportsController.RowOf: variance % + invoice/PO ratio = 100 holds of the exact figures only; cent rounding can break it (PO 32, invoiced 1 gives 96.88 + 3.13 = 100.01).
- ValidationHistory.ToLower: only the ASCII letters are lowered. `toLowerCase` maps every Unicode letter and can change the length (`İ` becomes two characters); stored statuses are ASCII, so the status filter is unaffected.
- `createSampleData` is modelled as written: its response carries the line 467 label. `DataSource` is the corrected label, used in the finding below.
- `Total` is `None` when an amount is a non-numeric truthy value. JavaScript would concatenate
  strings or produce `NaN` there; that result is not modelled.

## Findings

| source | as written | input that shows it | evidently intended | confidence | as-written member | corrected member |
|---|---|---|---|---|---|---|
| src/controller/reportsController.js:467 | `dataSource` is `request_body` for any non-empty body, though the body's lists are used only when it has `purchaseOrders` or `invoices` (lines 337-342) | body `{note: "x"}`: the hardcoded sample is inserted but labelled `request_body` | the label should use the same test as the data choice | not executed | ReportsController.DataSourceMislabelled | ReportsController.DataSource |
