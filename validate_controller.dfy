/** The validation endpoints: one record is evaluated against the active rules and logged, or
    every record of a batch is, and the batch is summarised and logged as one entry. Input
    checking is a schema library and appears here only as its verdict. */
module ValidateController {
  import opened Util
  import opened Values
  import opened RuleConfig
  import opened RuleEngine
  import opened RulesStore
  import opened ValidationHistory

  /** A checked single-record request: the record and its evaluation options. */
  datatype SingleInput = SingleInput(procurementData: Record, options: Options)

  /** A checked batch request: the records and their evaluation options. */
  datatype BatchInput = BatchInput(procurementRecords: seq<Record>, options: Options)

  /** The batch endpoint's answer. */
  datatype BatchReport = BatchReport(batchSummary: BatchSummary, results: seq<BatchEntry>)

  /** An endpoint's answer: a success carrying the body, or a "400 Bad Request". */
  datatype Response<T> = Success(body: T) | BadRequest(message: string)

  const InvalidInput := "Invalid input data"
  const InvalidBatchInput := "Invalid batch input data"
  const NoRules := "No business rules configured"

  /** What one evaluation of `data` answers once the engine holds `rules`. */
  function EvaluationFor(rules: seq<Rule>, data: Record, options: Options, now: string): Evaluation {
    EvaluationOf(RunResults(Outcomes(rules, data, options, now), options.stopOnFirstFailure), now)
  }

  /** `record.id || 'record_' + i`. */
  function RecordId(record: Record, i: nat): (id: Value)
    ensures "id" in record && IsTruthy(record["id"]) ==> id == record["id"]
    ensures !("id" in record && IsTruthy(record["id"])) ==> id == Str("record_" + NatToString(i))
  {
    OrElse(if "id" in record then record["id"] else Undefined, Str("record_" + NatToString(i)))
  }

  /** The entry the batch loop pushes for the `i`-th record. */
  function EntryFor(rules: seq<Rule>, records: seq<Record>, i: nat, options: Options, now: string): BatchEntry
    requires i < |records|
  {
    BatchEntry(i, RecordId(records[i], i), EvaluationFor(rules, records[i], options, now))
  }

  function EntryStatus(entry: BatchEntry): Status {
    entry.evaluation.summary.overallStatus
  }

  /** The batch's status: FAILED as soon as one record's summary is. */
  function BatchStatus(entries: seq<BatchEntry>): (s: Status)
    ensures s == Fail <==> exists k :: 0 <= k < |entries| && EntryStatus(entries[k]) == Fail
  {
    if entries == [] then Pass
    else if EntryStatus(entries[|entries| - 1]) == Fail then Fail
    else BatchStatus(entries[..|entries| - 1])
  }

  lemma BatchStatusSnoc(entries: seq<BatchEntry>, entry: BatchEntry)
    ensures BatchStatus(entries + [entry]) == if EntryStatus(entry) == Fail then Fail else BatchStatus(entries)
  {
    assert (entries + [entry])[..|entries|] == entries;
  }

  /** `batchResults.filter(r => r.summary.overallStatus === status).length`. */
  function CountStatus(entries: seq<BatchEntry>, status: Status): (n: nat)
    ensures n <= |entries|
  {
    if entries == [] then 0
    else CountStatus(entries[..|entries| - 1], status) + (if EntryStatus(entries[|entries| - 1]) == status then 1 else 0)
  }

  /** Every record is either passed or failed. */
  lemma {:induction false} PassedPlusFailed(entries: seq<BatchEntry>)
    ensures CountStatus(entries, Pass) + CountStatus(entries, Fail) == |entries|
  {
    if entries != [] {
      PassedPlusFailed(entries[..|entries| - 1]);
    }
  }

  /** The batch failed exactly when at least one record is counted as failed. */
  lemma {:induction false} BatchStatusCount(entries: seq<BatchEntry>)
    ensures BatchStatus(entries) == Fail <==> CountStatus(entries, Fail) > 0
  {
    if entries != [] {
      BatchStatusCount(entries[..|entries| - 1]);
    }
  }

  /** The summary `validateBatch` builds over its entries. */
  function BatchSummaryOf(entries: seq<BatchEntry>, now: string): (s: BatchSummary)
    ensures s.totalRecords == |entries|
    ensures s.passedRecords + s.failedRecords == s.totalRecords
    ensures s.overallStatus == Fail <==> s.failedRecords > 0
  {
    PassedPlusFailed(entries);
    BatchStatusCount(entries);
    BatchSummary(|entries|, CountStatus(entries, Pass), CountStatus(entries, Fail), BatchStatus(entries), now)
  }

  class Controller {
    const validationModel: ValidationModel
    const rulesModel: RulesModel
    const ruleEngineService: RuleEngineService

    constructor(history: ValidationModel, store: RulesModel)
      ensures validationModel == history && rulesModel == store && fresh(ruleEngineService)
      ensures ruleEngineService.rules == [] && ruleEngineService.results == []
    {
      validationModel := history;
      rulesModel := store;
      ruleEngineService := new RuleEngineService();
    }

    /** `validateData`: `input` is the checked request, `None` when the schema refused it.
        `id`, `now` and `savedAt` stand for the generated record id and the two clock readings. */
    method ValidateData(input: Option<SingleInput>, id: string, now: string, savedAt: Clock)
      returns (resp: Response<Evaluation>)
      modifies ruleEngineService, validationModel
      ensures input.None? ==> resp == BadRequest(InvalidInput)
      ensures input.Some? && rulesModel.GetActiveRules() == [] ==> resp == BadRequest(NoRules)
      ensures resp.BadRequest? ==> unchanged(ruleEngineService, validationModel)
      ensures input.Some? && rulesModel.GetActiveRules() != [] ==>
        var active := rulesModel.GetActiveRules();
        var e := EvaluationFor(active, input.value.procurementData, input.value.options, now);
        && resp == Success(e)
        && ruleEngineService.rules == active
        && validationModel.validationHistory
           == KeepLast(old(validationModel.validationHistory) + [HistoryRecord(id, Single(e), savedAt)], MaxHistory)
    {
      if input.None? {
        return BadRequest(InvalidInput);
      }
      var active := rulesModel.GetActiveRules();
      if active == [] {
        return BadRequest(NoRules);
      }
      ruleEngineService.SetRules(active);
      ActiveRulesIdempotent(rulesModel.businessRules.rules);
      var e := ruleEngineService.Evaluate(input.value.procurementData, input.value.options, now);
      var _ := validationModel.SaveValidationResult(e, id, savedAt);
      resp := Success(e);
    }

    /** `validateBatch`: every record is evaluated in order, whatever its outcome and the
        options; `now` stamps the evaluations and the batch summary. */
    method ValidateBatch(input: Option<BatchInput>, id: string, now: string, savedAt: Clock)
      returns (resp: Response<BatchReport>)
      modifies ruleEngineService, validationModel
      ensures input.None? ==> resp == BadRequest(InvalidBatchInput)
      ensures input.Some? && rulesModel.GetActiveRules() == [] ==> resp == BadRequest(NoRules)
      ensures resp.BadRequest? ==> unchanged(ruleEngineService, validationModel)
      ensures input.Some? && rulesModel.GetActiveRules() != [] ==>
        var active := rulesModel.GetActiveRules();
        var records := input.value.procurementRecords;
        && resp.Success?
        && |resp.body.results| == |records|
        && (forall i :: 0 <= i < |records| ==> resp.body.results[i] == EntryFor(active, records, i, input.value.options, now))
        && resp.body.batchSummary == BatchSummaryOf(resp.body.results, now)
        && validationModel.validationHistory
           == old(validationModel.validationHistory)
              + [HistoryRecord(id, Batch(resp.body.batchSummary, resp.body.results), savedAt)]
    {
      if input.None? {
        return BadRequest(InvalidBatchInput);
      }
      var active := rulesModel.GetActiveRules();
      if active == [] {
        return BadRequest(NoRules);
      }
      ruleEngineService.SetRules(active);
      ActiveRulesIdempotent(rulesModel.businessRules.rules);
      var entries, overallStatus := RunBatch(input.value.procurementRecords, input.value.options, now);
      var summary := BatchSummary(|input.value.procurementRecords|, CountStatus(entries, Pass),
                                  CountStatus(entries, Fail), overallStatus, now);
      var _ := validationModel.SaveBatchValidationResult(summary, entries, id, savedAt);
      resp := Success(BatchReport(summary, entries));
    }

    /** The loop of `validateBatch` (lines 85-102): one entry per record, in order. */
    method RunBatch(records: seq<Record>, options: Options, now: string)
      returns (entries: seq<BatchEntry>, overallStatus: Status)
      modifies ruleEngineService`results
      ensures |entries| == |records|
      ensures overallStatus == BatchStatus(entries)
      ensures forall i :: 0 <= i < |records| ==> entries[i] == EntryFor(ruleEngineService.rules, records, i, options, now)
    {
      entries := [];
      overallStatus := Pass;
      for i := 0 to |records|
        invariant |entries| == i
        invariant forall k :: 0 <= k < i ==> entries[k] == EntryFor(ruleEngineService.rules, records, k, options, now)
        invariant overallStatus == BatchStatus(entries)
      {
        var result := ruleEngineService.Evaluate(records[i], options, now);
        var entry := BatchEntry(i, RecordId(records[i], i), result);
        assert entry == EntryFor(ruleEngineService.rules, records, i, options, now);
        BatchStatusSnoc(entries, entry);
        entries := entries + [entry];
        if result.summary.overallStatus == Fail {
          overallStatus := Fail;
        }
      }
    }
  }
}
