/** The in-memory validation log: every single evaluation and every batch is appended as a
    record; single saves keep only the newest entries, batch saves never trim. Queries filter
    by status case-insensitively, sort newest first and cut one page. */
module ValidationHistory {
  import opened Util
  import opened Values
  import opened RuleEngine

  /** How many records a single save keeps. */
  const MaxHistory: nat := 1000

  /** One entry of a batch: its position, its id (the record's own `id` or `record_<i>`) and
      the evaluation of that record. */
  datatype BatchEntry = BatchEntry(recordIndex: nat, recordId: Value, evaluation: Evaluation)

  datatype BatchSummary = BatchSummary(
    totalRecords: nat,
    passedRecords: nat,
    failedRecords: nat,
    overallStatus: Status,
    processingTimestamp: string)

  /** What a record holds besides its id and creation time: a single evaluation, whose fields
      are spread into the record, or a batch (`type: 'batch'`). */
  datatype Payload =
    | Single(evaluation: Evaluation)
    | Batch(batchSummary: BatchSummary, batchResults: seq<BatchEntry>)

  datatype HistoryRecord = HistoryRecord(id: string, payload: Payload, createdAt: Clock)

  /** One page of history and its pagination data; `pages` is `None` where `Math.ceil` of a
      division by a zero limit is not a finite number. */
  datatype HistoryPage = HistoryPage(data: seq<HistoryRecord>, page: int, limit: int, total: nat, pages: Option<int>)

  datatype HistoryStats = HistoryStats(
    totalValidations: nat,
    passedValidations: nat,
    failedValidations: nat,
    lastValidation: Option<string>)

  // ---------------------------------------------------------------------------------------
  // Status filter
  // ---------------------------------------------------------------------------------------

  function LowerChar(c: char): char {
    if 'A' <= c <= 'Z' then (c as int + 32) as char else c
  }

  /** `toLowerCase()` on the ASCII letters. */
  function ToLower(s: string): (r: string)
    ensures |r| == |s|
    ensures forall i :: 0 <= i < |s| ==> r[i] == LowerChar(s[i])
  {
    seq(|s|, i requires 0 <= i < |s| => LowerChar(s[i]))
  }

  /** Lower-casing twice is lower-casing once. */
  lemma ToLowerIdempotent(s: string)
    ensures ToLower(ToLower(s)) == ToLower(s)
  {
    assert forall i :: 0 <= i < |s| ==> LowerChar(LowerChar(s[i])) == LowerChar(s[i]);
  }

  /** `summary.overallStatus`, or failing that `batchSummary.overallStatus`. Every stored
      record has one of the two. */
  function StatusText(r: HistoryRecord): string {
    match r.payload
    case Single(e) => StatusName(e.summary.overallStatus)
    case Batch(b, _) => StatusName(b.overallStatus)
  }

  predicate MatchesStatus(r: HistoryRecord, status: string) {
    ToLower(StatusText(r)) == ToLower(status)
  }

  /** The records whose status equals `status` ignoring case, in stored order. */
  function FilterByStatus(h: seq<HistoryRecord>, status: string): (r: seq<HistoryRecord>)
    ensures |r| <= |h|
    ensures forall i :: 0 <= i < |r| ==> r[i] in h && MatchesStatus(r[i], status)
  {
    if h == [] then []
    else
      var init := FilterByStatus(h[..|h| - 1], status);
      if MatchesStatus(h[|h| - 1], status) then init + [h[|h| - 1]] else init
  }

  /** A record survives the filter exactly when it is stored and matches. */
  lemma {:induction false} FilterByStatusMembers(h: seq<HistoryRecord>, status: string, x: HistoryRecord)
    ensures x in FilterByStatus(h, status) <==> x in h && MatchesStatus(x, status)
  {
    if h != [] {
      var init := h[..|h| - 1];
      var last := h[|h| - 1];
      FilterByStatusMembers(init, status, x);
      assert h == init + [last];
      assert x in h <==> x in init || x == last;
      if MatchesStatus(last, status) {
        assert FilterByStatus(h, status) == FilterByStatus(init, status) + [last];
      } else {
        assert FilterByStatus(h, status) == FilterByStatus(init, status);
      }
    }
  }

  /** Two requested statuses that differ only in case select the same records. */
  lemma {:induction false} FilterIgnoresCase(h: seq<HistoryRecord>, s: string, t: string)
    requires ToLower(s) == ToLower(t)
    ensures FilterByStatus(h, s) == FilterByStatus(h, t)
  {
    if h != [] {
      FilterIgnoresCase(h[..|h| - 1], s, t);
    }
  }

  /** `if (status) filteredHistory = filteredHistory.filter(...)`: an absent or empty status
      keeps every record. */
  function Filtered(h: seq<HistoryRecord>, status: Option<string>): (r: seq<HistoryRecord>)
    ensures status.None? || status.value == "" ==> r == h
  {
    if status.Some? && status.value != "" then FilterByStatus(h, status.value) else h
  }

  // ---------------------------------------------------------------------------------------
  // Pagination
  // ---------------------------------------------------------------------------------------

  /** The sort key: `new Date(createdAt)`. */
  function CreatedKey(r: HistoryRecord): real {
    r.createdAt.millis as real
  }

  /** `(page - 1) * limit`, the index of a page's first record. */
  function PageStart(page: int, limit: int): (start: int)
    ensures page >= 1 && limit >= 0 ==> start >= 0
  {
    var start := (page - 1) * limit;
    assert page >= 1 && limit >= 0 ==> start >= 0 by {
      if page >= 1 && limit >= 0 {
        MultiplyMonotone(0, page - 1, limit);
      }
    }
    start
  }

  /** The records of page `page`: the window of `limit` records starting at the page's first
      record, within the newest-first order of `f`. */
  function PageData(f: seq<HistoryRecord>, page: int, limit: int): seq<HistoryRecord> {
    var start := PageStart(page, limit);
    JsSlice(SortDescBy(f, CreatedKey), start, start + limit)
  }

  /** `getValidationHistory(page, limit, status)` on the history `h`. */
  function HistoryQuery(h: seq<HistoryRecord>, page: int, limit: int, status: Option<string>): (p: HistoryPage)
    ensures p.data == PageData(Filtered(h, status), page, limit)
    ensures p.page == page && p.limit == limit
    ensures p.total == |Filtered(h, status)|
    ensures limit == 0 <==> p.pages.None?
    ensures limit > 0 ==> p.pages == Some(CeilDivPos(p.total, limit))
  {
    var f := Filtered(h, status);
    HistoryPage(PageData(f, page, limit), page, limit, |f|,
      if limit == 0 then None else Some(CeilDiv(|f|, limit)))
  }

  /** A page holds the records of its window within the newest-first order of the filtered
      history, so at most `limit` of them. */
  lemma PageDataWindow(f: seq<HistoryRecord>, page: int, limit: int)
    requires page >= 1 && limit >= 0
    ensures var sorted := SortDescBy(f, CreatedKey);
            var start := PageStart(page, limit);
            var data := PageData(f, page, limit);
            |data| <= limit
            && (start >= |sorted| ==> data == [])
            && (start < |sorted| ==> data == sorted[start..if start + limit < |sorted| then start + limit else |sorted|])
  {
    JsSliceWindow(SortDescBy(f, CreatedKey), PageStart(page, limit), limit);
  }

  /** Every record of a page is one of the records paged, and the page is newest first. */
  lemma PageDataContents(f: seq<HistoryRecord>, page: int, limit: int)
    requires page >= 1 && limit >= 0
    ensures (forall x :: x in PageData(f, page, limit) ==> x in f)
            && SortedDesc(PageData(f, page, limit), CreatedKey)
  {
    var sorted := SortDescBy(f, CreatedKey);
    var start := PageStart(page, limit);
    var data := PageData(f, page, limit);
    PageDataWindow(f, page, limit);
    if start < |sorted| {
      var e := if start + limit < |sorted| then start + limit else |sorted|;
      assert data == sorted[start..e];
      SortedWindow(f, CreatedKey, start, e);
    } else {
      assert data == [];
    }
  }

  /** A page of the history query is the window of the filtered history. */
  lemma HistoryPageWindow(h: seq<HistoryRecord>, page: int, limit: int, status: Option<string>)
    requires page >= 1 && limit >= 0
    ensures var p := HistoryQuery(h, page, limit, status);
            var sorted := SortDescBy(Filtered(h, status), CreatedKey);
            var start := PageStart(page, limit);
            |p.data| <= limit
            && (start >= |sorted| ==> p.data == [])
            && (start < |sorted| ==> p.data == sorted[start..if start + limit < |sorted| then start + limit else |sorted|])
  {
    PageDataWindow(Filtered(h, status), page, limit);
  }

  /** Every record on a page is one of the filtered records, and the page is newest first. */
  lemma HistoryPageContents(h: seq<HistoryRecord>, page: int, limit: int, status: Option<string>)
    requires page >= 1 && limit >= 0
    ensures var p := HistoryQuery(h, page, limit, status);
            (forall x :: x in p.data ==> x in Filtered(h, status))
            && SortedDesc(p.data, CreatedKey)
  {
    PageDataContents(Filtered(h, status), page, limit);
  }

  /** A page past the last one is empty. */
  lemma PageBeyondLast(h: seq<HistoryRecord>, page: int, limit: int, status: Option<string>)
    requires limit > 0 && page >= 1
    requires page > CeilDivPos(|Filtered(h, status)|, limit)
    ensures HistoryQuery(h, page, limit, status).data == []
  {
    var total := |Filtered(h, status)|;
    var q := CeilDivPos(total, limit);
    assert PageStart(page, limit) >= q * limit by {
      MultiplyMonotone(q, page - 1, limit);
    }
    HistoryPageWindow(h, page, limit, status);
  }

  lemma MultiplyMonotone(a: int, b: int, c: int)
    requires a <= b && c >= 0
    ensures a * c <= b * c
  {
  }

  // ---------------------------------------------------------------------------------------
  // Statistics
  // ---------------------------------------------------------------------------------------

  /** The stats' notion of a passed record: a summary or batch summary that is exactly
      `PASSED`. */
  predicate RecordPassed(r: HistoryRecord) {
    StatusText(r) == "PASSED"
  }

  function CountPassedRecords(h: seq<HistoryRecord>): (n: nat)
    ensures n <= |h|
  {
    if h == [] then 0
    else CountPassedRecords(h[..|h| - 1]) + (if RecordPassed(h[|h| - 1]) then 1 else 0)
  }

  /** `getValidationStats()` on the history `h`, without the success rate. */
  function StatsOf(h: seq<HistoryRecord>): (s: HistoryStats)
    ensures s.totalValidations == |h|
    ensures s.passedValidations + s.failedValidations == s.totalValidations
    ensures s.lastValidation.None? <==> h == []
    ensures h != [] ==> s.lastValidation == Some(h[|h| - 1].createdAt.iso)
  {
    var passed := CountPassedRecords(h);
    HistoryStats(|h|, passed, |h| - passed, if |h| > 0 then Some(h[|h| - 1].createdAt.iso) else None)
  }

  /** The only statuses a record carries, lower-cased. */
  lemma StatusTextLower(r: HistoryRecord)
    ensures StatusText(r) == "PASSED" || StatusText(r) == "FAILED"
    ensures ToLower(StatusText(r)) == ToLower("passed") <==> StatusText(r) == "PASSED"
  {
    var lp := ToLower("passed");
    assert lp == "passed";
    if StatusText(r) == "PASSED" {
      assert ToLower("PASSED") == "passed";
    } else {
      assert ToLower("FAILED")[0] == 'f';
    }
  }

  /** A record passes the statistics' test exactly when the `passed` filter of the history keeps
      it, so the passed count is the size of that filtered history. */
  lemma {:induction false} PassedIsFilter(h: seq<HistoryRecord>)
    ensures CountPassedRecords(h) == |FilterByStatus(h, "passed")|
  {
    if h != [] {
      PassedIsFilter(h[..|h| - 1]);
      StatusTextLower(h[|h| - 1]);
    }
  }

  // ---------------------------------------------------------------------------------------
  // Saving
  // ---------------------------------------------------------------------------------------

  /** After a single save the history holds at most `MaxHistory` records, ends with the new
      record, and keeps the newest of the earlier ones in their order. */
  lemma SaveKeepsNewest(h: seq<HistoryRecord>, record: HistoryRecord)
    ensures var r := KeepLast(h + [record], MaxHistory);
            |r| == (if |h| + 1 < MaxHistory then |h| + 1 else MaxHistory)
            && r[|r| - 1] == record
            && r[..|r| - 1] == h[|h| + 1 - |r|..]
  {
  }

  /** The statistics after a save report the new record's time as the last validation. */
  lemma SaveIsLastValidation(h: seq<HistoryRecord>, record: HistoryRecord)
    ensures StatsOf(KeepLast(h + [record], MaxHistory)).lastValidation == Some(record.createdAt.iso)
    ensures StatsOf(h + [record]).lastValidation == Some(record.createdAt.iso)
  {
  }

  /** A batch save on a full history leaves more than `MaxHistory` records: the cap applies to
      single saves only. */
  lemma BatchSaveExceedsCap(h: seq<HistoryRecord>, record: HistoryRecord)
    requires |h| == MaxHistory
    ensures |h + [record]| == MaxHistory + 1
    ensures |KeepLast(h + [record], MaxHistory)| == MaxHistory
  {
  }

  class ValidationModel {
    var validationHistory: seq<HistoryRecord>

    constructor()
      ensures validationHistory == []
    {
      validationHistory := [];
    }

    /** `saveValidationResult(evaluation)`: `id` and `now` stand for the generated id and the
        time of the save. */
    method SaveValidationResult(evaluation: Evaluation, id: string, now: Clock) returns (record: HistoryRecord)
      modifies this
      ensures record == HistoryRecord(id, Single(evaluation), now)
      ensures validationHistory == KeepLast(old(validationHistory) + [record], MaxHistory)
    {
      record := HistoryRecord(id, Single(evaluation), now);
      validationHistory := validationHistory + [record];
      if |validationHistory| > MaxHistory {
        validationHistory := validationHistory[|validationHistory| - MaxHistory..];
      }
    }

    /** `saveBatchValidationResult(batchSummary, batchResults)`; nothing is trimmed. */
    method SaveBatchValidationResult(batchSummary: BatchSummary, batchResults: seq<BatchEntry>, id: string, now: Clock)
      returns (record: HistoryRecord)
      modifies this
      ensures record == HistoryRecord(id, Batch(batchSummary, batchResults), now)
      ensures validationHistory == old(validationHistory) + [record]
    {
      record := HistoryRecord(id, Batch(batchSummary, batchResults), now);
      validationHistory := validationHistory + [record];
    }

    /** `getValidationHistory(page, limit, status)`: works on a copy, the log is not changed. */
    function GetValidationHistory(page: int, limit: int, status: Option<string>): (p: HistoryPage)
      reads this
      ensures p == HistoryQuery(validationHistory, page, limit, status)
      ensures p.total <= |validationHistory|
    {
      HistoryQuery(validationHistory, page, limit, status)
    }

    /** `getValidationStats()`, without the success rate. */
    function GetValidationStats(): (s: HistoryStats)
      reads this
      ensures s == StatsOf(validationHistory)
      ensures s.totalValidations == |validationHistory|
    {
      StatsOf(validationHistory)
    }
  }
}
