/** The reports controller: the vendor comparison, which joins the per-vendor purchase-order
    and invoice aggregates by vendor id, derives variance figures and totals and orders the
    vendors by purchase-order amount; and the sample-data endpoint, which picks the records to
    insert, refuses anything but arrays and reports totals and the distinct vendors. The
    aggregates are database pipelines and enter as their result rows. */
module ReportsController {
  import opened Util
  import opened Values
  import opened VendorMerge

  // ---------------------------------------------------------------------------------------
  // The vendor comparison
  // ---------------------------------------------------------------------------------------

  /** One row of the purchase-order aggregate, grouped by vendor id. */
  datatype PoGroup = PoGroup(id: string, vendorName: string, totalPOAmount: real, totalPOs: nat, avgPOAmount: real)

  /** One row of the invoice aggregate, grouped by vendor id. */
  datatype InvoiceGroup = InvoiceGroup(
    id: string, vendorName: string,
    totalInvoiceAmount: real, totalPaidAmount: real, totalOutstanding: real, totalInvoices: nat)

  datatype PoFigures = PoFigures(totalAmount: real, totalOrders: nat, averageAmount: real)
  datatype InvoiceFigures = InvoiceFigures(totalAmount: real, totalPaidAmount: real, totalOutstanding: real, totalInvoices: nat)

  /** The zero figures of the side a vendor has no rows for. */
  const NoPOs := PoFigures(0.0, 0, 0.0)
  const NoInvoices := InvoiceFigures(0.0, 0.0, 0.0, 0)

  datatype VendorEntry = VendorEntry(vendorId: string, vendorName: string, purchaseOrders: PoFigures, invoices: InvoiceFigures)

  /** Derived figures; exact, without the rounding to cents. */
  datatype Variance = Variance(amount: real, percentage: real)
  datatype Metrics = Metrics(invoiceToPoRatio: real, paymentPercentage: real)

  /** One element of `vendors`: the entry spread out, plus the derived figures. */
  datatype ComparisonRow = ComparisonRow(vendor: VendorEntry, variance: Variance, metrics: Metrics)

  datatype ComparisonSummary = ComparisonSummary(
    totalVendors: nat, totalPOAmount: real, totalInvoiceAmount: real, totalPaidAmount: real,
    totalOutstanding: real, reportGeneratedAt: string)

  /** The response body. */
  datatype Comparison = Comparison(summary: ComparisonSummary, vendors: seq<ComparisonRow>)

  function PoId(po: PoGroup): string { po.id }
  function InvoiceId(inv: InvoiceGroup): string { inv.id }
  function EntryId(e: VendorEntry): string { e.vendorId }
  function RowId(r: ComparisonRow): string { r.vendor.vendorId }
  function EntryName(e: VendorEntry): string { e.vendorName }
  function EntryPurchases(e: VendorEntry): PoFigures { e.purchaseOrders }
  function EntryInvoices(e: VendorEntry): InvoiceFigures { e.invoices }

  // The amounts the summary adds up, read from a row, from an entry and from a group.
  function RowPoAmount(r: ComparisonRow): real { r.vendor.purchaseOrders.totalAmount }
  function RowInvoiceAmount(r: ComparisonRow): real { r.vendor.invoices.totalAmount }
  function RowPaidAmount(r: ComparisonRow): real { r.vendor.invoices.totalPaidAmount }
  function RowOutstanding(r: ComparisonRow): real { r.vendor.invoices.totalOutstanding }
  function EntryPoAmount(e: VendorEntry): real { e.purchaseOrders.totalAmount }
  function EntryInvoiceAmount(e: VendorEntry): real { e.invoices.totalAmount }
  function EntryPaidAmount(e: VendorEntry): real { e.invoices.totalPaidAmount }
  function EntryOutstanding(e: VendorEntry): real { e.invoices.totalOutstanding }
  function GroupPoAmount(po: PoGroup): real { po.totalPOAmount }
  function GroupInvoiceAmount(inv: InvoiceGroup): real { inv.totalInvoiceAmount }
  function GroupPaidAmount(inv: InvoiceGroup): real { inv.totalPaidAmount }
  function GroupOutstanding(inv: InvoiceGroup): real { inv.totalOutstanding }

  function PoFiguresOf(po: PoGroup): PoFigures {
    PoFigures(po.totalPOAmount, po.totalPOs, po.avgPOAmount)
  }

  function InvoiceFiguresOf(inv: InvoiceGroup): InvoiceFigures {
    InvoiceFigures(inv.totalInvoiceAmount, inv.totalPaidAmount, inv.totalOutstanding, inv.totalInvoices)
  }

  /** The entry a purchase-order row sets: its figures, and no invoices. */
  function PoEntry(po: PoGroup): VendorEntry {
    VendorEntry(po.id, po.vendorName, PoFiguresOf(po), NoInvoices)
  }

  /** The stand-in for a vendor not yet in the map: zero on both sides. */
  function FreshEntry(inv: InvoiceGroup): VendorEntry {
    VendorEntry(inv.id, inv.vendorName, NoPOs, NoInvoices)
  }

  /** `vendor.invoices = {...}`: only the invoices part is replaced. */
  function WithInvoices(e: VendorEntry, inv: InvoiceGroup): VendorEntry {
    e.(invoices := InvoiceFiguresOf(inv))
  }

  /** What an invoice row stores for a vendor not yet in the map. */
  function NewEntry(inv: InvoiceGroup): VendorEntry {
    WithInvoices(FreshEntry(inv), inv)
  }

  /** `vendorMap` after both `forEach` passes. */
  function Merged(poResults: seq<PoGroup>, invoiceResults: seq<InvoiceGroup>): seq<(string, VendorEntry)> {
    UpdateEach(SetEach([], poResults, PoId, PoEntry), invoiceResults, InvoiceId, WithInvoices, NewEntry)
  }

  /** The derived figures of one vendor. The invoiced and the not-invoiced shares of the
      purchase-order amount add up to 100 percent whenever that amount is positive. */
  function RowOf(e: VendorEntry): (r: ComparisonRow)
    ensures r.vendor == e
    ensures r.variance.amount == e.purchaseOrders.totalAmount - e.invoices.totalAmount
    ensures e.purchaseOrders.totalAmount <= 0.0 ==> r.variance.percentage == 0.0 && r.metrics.invoiceToPoRatio == 0.0
    ensures e.purchaseOrders.totalAmount > 0.0 ==> r.variance.percentage + r.metrics.invoiceToPoRatio == 100.0
    ensures e.purchaseOrders.totalAmount > 0.0 ==>
              r.metrics.invoiceToPoRatio * e.purchaseOrders.totalAmount == 100.0 * e.invoices.totalAmount
    ensures e.invoices.totalAmount <= 0.0 ==> r.metrics.paymentPercentage == 0.0
    ensures e.invoices.totalAmount > 0.0 ==>
              r.metrics.paymentPercentage * e.invoices.totalAmount == 100.0 * e.invoices.totalPaidAmount
  {
    var poTotal := e.purchaseOrders.totalAmount;
    var invoiceTotal := e.invoices.totalAmount;
    var variance := poTotal - invoiceTotal;
    ComparisonRow(
      e,
      Variance(variance, if poTotal > 0.0 then variance / poTotal * 100.0 else 0.0),
      Metrics(if poTotal > 0.0 then invoiceTotal / poTotal * 100.0 else 0.0,
              if invoiceTotal > 0.0 then e.invoices.totalPaidAmount / invoiceTotal * 100.0 else 0.0))
  }

  function Rows(entries: seq<VendorEntry>): (rows: seq<ComparisonRow>)
    ensures |rows| == |entries|
    ensures forall i :: 0 <= i < |entries| ==> rows[i] == RowOf(entries[i])
  {
    seq(|entries|, i requires 0 <= i < |entries| => RowOf(entries[i]))
  }

  /** `results`: the map's entries in insertion order with their figures, sorted by
      purchase-order amount, largest first. */
  function Results(poResults: seq<PoGroup>, invoiceResults: seq<InvoiceGroup>): seq<ComparisonRow> {
    SortDescBy(Rows(MapValues(Merged(poResults, invoiceResults))), RowPoAmount)
  }

  /** The summary: the number of vendors and four totals over the results. */
  function SummaryOf(results: seq<ComparisonRow>, now: string): ComparisonSummary {
    ComparisonSummary(|results|, Sum(results, RowPoAmount), Sum(results, RowInvoiceAmount),
                      Sum(results, RowPaidAmount), Sum(results, RowOutstanding), now)
  }

  /** The in-memory part of `getVendorComparison`, given the two aggregates' rows; `now` is
      the report time. */
  method GetVendorComparison(poResults: seq<PoGroup>, invoiceResults: seq<InvoiceGroup>, now: string)
    returns (response: Comparison)
    ensures response.vendors == Results(poResults, invoiceResults)
    ensures response.summary == SummaryOf(response.vendors, now)
  {
    var vendorMap: seq<(string, VendorEntry)> := [];
    for k := 0 to |poResults|
      invariant vendorMap == SetEach([], poResults[..k], PoId, PoEntry)
    {
      assert poResults[..k + 1][..k] == poResults[..k];
      var po := poResults[k];
      vendorMap := MapSet(vendorMap, po.id, PoEntry(po));
    }
    assert poResults[..|poResults|] == poResults;
    ghost var afterPOs := vendorMap;
    for k := 0 to |invoiceResults|
      invariant vendorMap == UpdateEach(afterPOs, invoiceResults[..k], InvoiceId, WithInvoices, NewEntry)
    {
      assert invoiceResults[..k + 1][..k] == invoiceResults[..k];
      var invoice := invoiceResults[k];
      var vendor := MapGet(vendorMap, invoice.id).GetOr(FreshEntry(invoice));
      vendor := vendor.(invoices := InvoiceFiguresOf(invoice));
      vendorMap := MapSet(vendorMap, invoice.id, vendor);
    }
    assert invoiceResults[..|invoiceResults|] == invoiceResults;
    var vendors := MapValues(vendorMap);
    var rows: seq<ComparisonRow> := [];
    for k := 0 to |vendors|
      invariant |rows| == k
      invariant forall j :: 0 <= j < k ==> rows[j] == RowOf(vendors[j])
    {
      rows := rows + [RowOf(vendors[k])];
    }
    assert rows == Rows(vendors);
    var results := SortDescBy(rows, RowPoAmount);
    response := Comparison(SummaryOf(results, now), results);
  }

  // ---------------------------------------------------------------------------------------
  // What the comparison holds
  // ---------------------------------------------------------------------------------------

  /** The map holds one entry per vendor id of either aggregate, each under its own id. */
  lemma MergedKeys(poResults: seq<PoGroup>, invoiceResults: seq<InvoiceGroup>)
    ensures NoDuplicates(Keys(Merged(poResults, invoiceResults)))
    ensures forall x :: x in Keys(Merged(poResults, invoiceResults)) <==>
                        x in IdsOf(poResults, PoId) || x in IdsOf(invoiceResults, InvoiceId)
    ensures KeyedBy(Merged(poResults, invoiceResults), EntryId)
  {
    var first := SetEach([], poResults, PoId, PoEntry);
    SetEachKeys([], poResults, PoId, PoEntry);
    UpdateEachKeys(first, invoiceResults, InvoiceId, WithInvoices, NewEntry);
    SetEachKeyed([], poResults, PoId, PoEntry, EntryId);
    UpdateEachKeyed(first, invoiceResults, InvoiceId, WithInvoices, NewEntry, EntryId);
  }

  /** Each vendor id of either aggregate appears in the results exactly once, and no other
      id does. */
  lemma ResultsVendorsOnce(poResults: seq<PoGroup>, invoiceResults: seq<InvoiceGroup>)
    ensures NoDuplicates(IdsOf(Results(poResults, invoiceResults), RowId))
    ensures forall x :: x in IdsOf(Results(poResults, invoiceResults), RowId) <==>
                        x in IdsOf(poResults, PoId) || x in IdsOf(invoiceResults, InvoiceId)
  {
    var m := Merged(poResults, invoiceResults);
    MergedKeys(poResults, invoiceResults);
    KeyedIds(m, EntryId);
    var rows := Rows(MapValues(m));
    assert IdsOf(rows, RowId) == IdsOf(MapValues(m), EntryId);
    IdsOfPermutation(rows, Results(poResults, invoiceResults), RowId);
  }

  /** The results are ordered by purchase-order amount, largest first. */
  lemma ResultsSorted(poResults: seq<PoGroup>, invoiceResults: seq<InvoiceGroup>)
    ensures SortedDesc(Results(poResults, invoiceResults), RowPoAmount)
  {
    SortDescBySorted(Rows(MapValues(Merged(poResults, invoiceResults))), RowPoAmount);
  }

  /** Every result row is a merged vendor entry with its own derived figures. */
  lemma ResultsAreMerged(poResults: seq<PoGroup>, invoiceResults: seq<InvoiceGroup>)
    ensures forall r :: r in Results(poResults, invoiceResults) ==>
              r == RowOf(r.vendor) && MapGet(Merged(poResults, invoiceResults), r.vendor.vendorId) == Some(r.vendor)
  {
    var m := Merged(poResults, invoiceResults);
    MergedKeys(poResults, invoiceResults);
    var rows := Rows(MapValues(m));
    forall r | r in Results(poResults, invoiceResults)
      ensures r == RowOf(r.vendor) && MapGet(m, r.vendor.vendorId) == Some(r.vendor)
    {
      assert r in multiset(rows);
      var k :| 0 <= k < |rows| && rows[k] == r;
      MapGetAt(m, k);
    }
  }

  /** Invoice processing never alters the purchase-order figures: a vendor with purchase-order
      rows keeps those of its last one, a vendor without has zero. */
  lemma PurchaseFiguresKept(poResults: seq<PoGroup>, invoiceResults: seq<InvoiceGroup>, x: string)
    requires x in IdsOf(poResults, PoId) || x in IdsOf(invoiceResults, InvoiceId)
    ensures MapGet(Merged(poResults, invoiceResults), x).Some?
    ensures var e := MapGet(Merged(poResults, invoiceResults), x).value;
            && e.vendorId == x
            && e.purchaseOrders == if x in IdsOf(poResults, PoId) then PoFiguresOf(LastWith(poResults, PoId, x).value) else NoPOs
  {
    var first := SetEach([], poResults, PoId, PoEntry);
    SetEachKeys([], poResults, PoId, PoEntry);
    SetEachGet([], poResults, PoId, PoEntry, x);
    UpdateEachGet(first, invoiceResults, InvoiceId, WithInvoices, NewEntry, x);
    var c := if x in IdsOf(poResults, PoId) then PoFiguresOf(LastWith(poResults, PoId, x).value) else NoPOs;
    FoldedPreserves(MapGet(first, x), invoiceResults, InvoiceId, x, WithInvoices, NewEntry, EntryPurchases, c);
    MergedKeys(poResults, invoiceResults);
    MapGetKeyed(Merged(poResults, invoiceResults), x, EntryId);
  }

  /** The invoice figures are those of the vendor's last invoice row, or zero without one. */
  lemma InvoiceFiguresSet(poResults: seq<PoGroup>, invoiceResults: seq<InvoiceGroup>, x: string)
    requires x in IdsOf(poResults, PoId) || x in IdsOf(invoiceResults, InvoiceId)
    ensures MapGet(Merged(poResults, invoiceResults), x).Some?
    ensures MapGet(Merged(poResults, invoiceResults), x).value.invoices ==
              if x in IdsOf(invoiceResults, InvoiceId) then InvoiceFiguresOf(LastWith(invoiceResults, InvoiceId, x).value)
              else NoInvoices
  {
    var first := SetEach([], poResults, PoId, PoEntry);
    SetEachKeys([], poResults, PoId, PoEntry);
    SetEachGet([], poResults, PoId, PoEntry, x);
    UpdateEachGet(first, invoiceResults, InvoiceId, WithInvoices, NewEntry, x);
    MergedKeys(poResults, invoiceResults);
    if x in IdsOf(invoiceResults, InvoiceId) {
      FoldedLast(MapGet(first, x), invoiceResults, InvoiceId, x, WithInvoices, NewEntry, EntryInvoices, InvoiceFiguresOf);
    } else {
      FoldedUntouched(MapGet(first, x), invoiceResults, InvoiceId, x, WithInvoices, NewEntry);
    }
  }

  /** A total over the results is the same total over the merged entries. */
  lemma ResultsSum(poResults: seq<PoGroup>, invoiceResults: seq<InvoiceGroup>, fr: ComparisonRow -> real, fe: VendorEntry -> real)
    requires forall e :: fr(RowOf(e)) == fe(e)
    ensures Sum(Results(poResults, invoiceResults), fr) == Sum(MapValues(Merged(poResults, invoiceResults)), fe)
  {
    var rows := Rows(MapValues(Merged(poResults, invoiceResults)));
    SumPermutation(Results(poResults, invoiceResults), rows, fr);
    SumPointwise(rows, fr, MapValues(Merged(poResults, invoiceResults)), fe);
  }

  /** An invoice amount summed over the merged entries: with one row per vendor in the
      invoice aggregate, it is that amount summed over the aggregate. */
  lemma MergedInvoiceSum(poResults: seq<PoGroup>, invoiceResults: seq<InvoiceGroup>, fe: VendorEntry -> real, g: InvoiceGroup -> real)
    requires NoDuplicates(IdsOf(invoiceResults, InvoiceId))
    requires forall e, inv :: fe(WithInvoices(e, inv)) == g(inv)
    requires forall po :: fe(PoEntry(po)) == 0.0
    ensures Sum(MapValues(Merged(poResults, invoiceResults)), fe) == Sum(invoiceResults, g)
  {
    var first := SetEach([], poResults, PoId, PoEntry);
    SetEachKeys([], poResults, PoId, PoEntry);
    SetEachZero([], poResults, PoId, PoEntry, fe);
    SumAllZero(MapValues(first), fe);
    UpdateEachSumReplaced(first, invoiceResults, InvoiceId, WithInvoices, NewEntry, fe, g);
  }

  /** With one row per vendor in each aggregate, as grouping by vendor id gives, nothing is
      lost or counted twice: the summary's totals are the aggregates' totals, and there is one
      result per distinct vendor. */
  lemma ComparisonTotals(poResults: seq<PoGroup>, invoiceResults: seq<InvoiceGroup>, now: string)
    requires NoDuplicates(IdsOf(poResults, PoId)) && NoDuplicates(IdsOf(invoiceResults, InvoiceId))
    ensures var s := SummaryOf(Results(poResults, invoiceResults), now);
            && s.totalVendors == |Keys(Merged(poResults, invoiceResults))|
            && s.totalPOAmount == Sum(poResults, GroupPoAmount)
            && s.totalInvoiceAmount == Sum(invoiceResults, GroupInvoiceAmount)
            && s.totalPaidAmount == Sum(invoiceResults, GroupPaidAmount)
            && s.totalOutstanding == Sum(invoiceResults, GroupOutstanding)
  {
    var first := SetEach([], poResults, PoId, PoEntry);
    ResultsSum(poResults, invoiceResults, RowPoAmount, EntryPoAmount);
    ResultsSum(poResults, invoiceResults, RowInvoiceAmount, EntryInvoiceAmount);
    ResultsSum(poResults, invoiceResults, RowPaidAmount, EntryPaidAmount);
    ResultsSum(poResults, invoiceResults, RowOutstanding, EntryOutstanding);
    UpdateEachSumKept(first, invoiceResults, InvoiceId, WithInvoices, NewEntry, EntryPoAmount);
    SetEachSum(poResults, PoId, PoEntry, EntryPoAmount, GroupPoAmount);
    MergedInvoiceSum(poResults, invoiceResults, EntryInvoiceAmount, GroupInvoiceAmount);
    MergedInvoiceSum(poResults, invoiceResults, EntryPaidAmount, GroupPaidAmount);
    MergedInvoiceSum(poResults, invoiceResults, EntryOutstanding, GroupOutstanding);
  }

  // ---------------------------------------------------------------------------------------
  // Sample data
  // ---------------------------------------------------------------------------------------

  const NotArrays := "Purchase orders and invoices must be arrays"

  /** `Object.keys(v).length` for the values of this model. */
  function KeyCount(v: Value): nat {
    match v
    case Obj(m) => |m|
    case Arr(items) => |items|
    case Str(s) => |s|
    case _ => 0
  }

  /** `req.body && Object.keys(req.body).length > 0`. */
  predicate HasBody(body: Value) {
    IsTruthy(body) && KeyCount(body) > 0
  }

  /** The records come from the body when it is non-empty and names purchase orders or
      invoices. */
  predicate UsesBody(body: Value) {
    HasBody(body) && (IsTruthy(GetProperty(body, "purchaseOrders")) || IsTruthy(GetProperty(body, "invoices")))
  }

  /** The body's two lists, a missing one read as empty. */
  function BodyInputs(body: Value): (Value, Value) {
    (OrElse(GetProperty(body, "purchaseOrders"), Arr([])), OrElse(GetProperty(body, "invoices"), Arr([])))
  }

  /** The fields that matter here of a hardcoded purchase order and of a hardcoded invoice. */
  function SamplePO(vendorId: string, vendorName: string, totalAmount: int): Value {
    Obj(map["vendorId" := Str(vendorId), "vendorName" := Str(vendorName), "totalAmount" := Num(totalAmount)])
  }

  function SampleInvoice(vendorId: string, vendorName: string, totalAmount: int, paidAmount: int, outstandingAmount: int): Value {
    Obj(map["vendorId" := Str(vendorId), "vendorName" := Str(vendorName), "totalAmount" := Num(totalAmount),
            "paidAmount" := Num(paidAmount), "outstandingAmount" := Num(outstandingAmount)])
  }

  /** The hardcoded sample: three purchase orders and their three invoices. */
  const HardcodedPOs: seq<Value> := [
    SamplePO("VENDOR_001", "TechCorp Solutions", 25000),
    SamplePO("VENDOR_002", "Office Supplies Pro", 3500),
    SamplePO("VENDOR_003", "Industrial Equipment LLC", 85000)
  ]

  const HardcodedInvoices: seq<Value> := [
    SampleInvoice("VENDOR_001", "TechCorp Solutions", 25000, 25000, 0),
    SampleInvoice("VENDOR_002", "Office Supplies Pro", 3500, 1750, 1750),
    SampleInvoice("VENDOR_003", "Industrial Equipment LLC", 85000, 0, 85000)
  ]

  /** `samplePOs` and `sampleInvoices`: the body's lists when it names them, the hardcoded
      sample otherwise. */
  function SampleInputs(body: Value): (Value, Value) {
    if UsesBody(body) then BodyInputs(body) else (Arr(HardcodedPOs), Arr(HardcodedInvoices))
  }

  /** `(r.field || 0)` as an amount to add: 0 for a missing or falsy field, the number for a
      numeric one, `None` for any other value, which `+` would not add as a number. */
  function AmountOf(r: Value, field: string): Option<int> {
    match OrElse(GetProperty(r, field), Num(0))
    case Num(n) => Some(n)
    case _ => None
  }

  /** `records.reduce((sum, r) => sum + (r.field || 0), 0)`; `None` when an amount is not a
      number. */
  function Total(records: seq<Value>, field: string): (t: Option<int>)
    ensures t.Some? <==> forall i :: 0 <= i < |records| ==> AmountOf(records[i], field).Some?
  {
    if records == [] then Some(0)
    else
      var before := Total(records[..|records| - 1], field);
      var amount := AmountOf(records[|records| - 1], field);
      if before.Some? && amount.Some? then Some(before.value + amount.value) else None
  }

  lemma TotalSnoc(records: seq<Value>, r: Value, field: string)
    ensures Total(records + [r], field) ==
              if Total(records, field).Some? && AmountOf(r, field).Some?
              then Some(Total(records, field).value + AmountOf(r, field).value) else None
  {
    var all := records + [r];
    assert all[..|all| - 1] == records && all[|all| - 1] == r;
  }

  /** A record without the amount, or with a falsy one, adds nothing to the total. */
  lemma TotalSkipsMissing(records: seq<Value>, r: Value, field: string)
    requires !IsTruthy(GetProperty(r, field))
    ensures Total(records + [r], field) == Total(records, field)
  {
    TotalSnoc(records, r, field);
    assert AmountOf(r, field) == Some(0);
  }

  /** A numeric amount is added as it is. */
  lemma TotalAddsNumber(records: seq<Value>, r: Value, field: string, n: int)
    requires GetProperty(r, field) == Num(n)
    ensures Total(records + [r], field) == if Total(records, field).Some? then Some(Total(records, field).value + n) else None
  {
    TotalSnoc(records, r, field);
    assert AmountOf(r, field) == Some(n) by {
      if n == 0 {
        assert OrElse(Num(n), Num(0)) == Num(0);
      } else {
        assert OrElse(Num(n), Num(0)) == Num(n);
      }
    }
  }

  /** `${r.vendorId}: ${r.vendorName}`. */
  function VendorLabel(r: Value): string {
    ToStr(GetProperty(r, "vendorId")) + ": " + ToStr(GetProperty(r, "vendorName"))
  }

  function Labels(records: seq<Value>): (ls: seq<string>)
    ensures |ls| == |records|
    ensures forall i :: 0 <= i < |records| ==> ls[i] == VendorLabel(records[i])
  {
    seq(|records|, i requires 0 <= i < |records| => VendorLabel(records[i]))
  }

  /** `[...new Set([...])]` over the labels of both lists: each label once, in order of first
      appearance, and nothing else. */
  function VendorList(pos: seq<Value>, invs: seq<Value>): (vs: seq<string>)
    ensures NoDuplicates(vs)
    ensures forall v :: v in vs <==> v in Labels(pos) || v in Labels(invs)
  {
    var all := Labels(pos) + Labels(invs);
    assert forall v :: v in all <==> v in Labels(pos) || v in Labels(invs);
    Dedup(all)
  }

  /** Reading a field of `undefined` or `null` throws. */
  predicate Readable(records: seq<Value>) {
    forall i :: 0 <= i < |records| ==> !records[i].Undefined? && !records[i].Null?
  }

  datatype SampleStatistics = SampleStatistics(
    purchaseOrders: nat, invoices: nat,
    totalPOAmount: Option<int>, totalInvoiceAmount: Option<int>,
    totalPaidAmount: Option<int>, totalOutstandingAmount: Option<int>)

  datatype SampleResponse = SampleResponse(dataSource: string, statistics: SampleStatistics, vendors: seq<string>)

  /** `created`, `invalid` or, for a thrown error, `serverError`. */
  datatype SampleOutcome = Created(response: SampleResponse) | Invalid(message: string) | ServerError

  /** `dataSource` as written: it looks only at whether the body is non-empty. */
  function DataSourceAsWritten(body: Value): string {
    if HasBody(body) then "request_body" else "hardcoded"
  }

  /** `dataSource` naming where the records came from: the body's lists under
      "request_body", the hardcoded sample under "hardcoded". */
  function DataSource(body: Value): (d: string)
    ensures d == "request_body" || d == "hardcoded"
    ensures d == "request_body" ==> SampleInputs(body) == BodyInputs(body)
    ensures d == "hardcoded" ==> SampleInputs(body) == (Arr(HardcodedPOs), Arr(HardcodedInvoices))
  {
    if UsesBody(body) then "request_body" else "hardcoded"
  }

  /** A non-empty body that names neither list is answered with the hardcoded sample, yet
      labelled as coming from the body; the corrected label says "hardcoded". */
  lemma DataSourceMislabelled()
    ensures var body := Obj(map["note" := Str("x")]);
            && SampleInputs(body) == (Arr(HardcodedPOs), Arr(HardcodedInvoices))
            && SampleInputs(body) != BodyInputs(body)
            && DataSourceAsWritten(body) == "request_body"
            && DataSource(body) == "hardcoded"
  {
    var body := Obj(map["note" := Str("x")]);
    assert KeyCount(body) == 1;
  }

  /** The two labels differ exactly on a non-empty body that names neither list. */
  lemma DataSourceLabelsAgree(body: Value)
    ensures DataSourceAsWritten(body) != DataSource(body) <==> HasBody(body) && !UsesBody(body)
  {
  }

  /** What `createSampleData` answers for a request body. */
  function SampleOutcomeOf(body: Value): SampleOutcome {
    var (samplePOs, sampleInvoices) := SampleInputs(body);
    if !samplePOs.Arr? || !sampleInvoices.Arr? then Invalid(NotArrays)
    else if !Readable(samplePOs.items) || !Readable(sampleInvoices.items) then ServerError
    else
      Created(ResponseOf(body, samplePOs.items, sampleInvoices.items))
  }

  /** The response for the inserted records: where they came from, their count and totals, and
      the vendors they name. */
  function ResponseOf(body: Value, pos: seq<Value>, invs: seq<Value>): SampleResponse {
    SampleResponse(
      DataSourceAsWritten(body),
      SampleStatistics(|pos|, |invs|, Total(pos, "totalAmount"), Total(invs, "totalAmount"),
                       Total(invs, "paidAmount"), Total(invs, "outstandingAmount")),
      VendorList(pos, invs))
  }

  lemma SamplePOFields(vendorId: string, vendorName: string, totalAmount: int)
    ensures VendorLabel(SamplePO(vendorId, vendorName, totalAmount)) == vendorId + ": " + vendorName
    ensures AmountOf(SamplePO(vendorId, vendorName, totalAmount), "totalAmount") == Some(totalAmount)
  {
  }

  lemma SampleInvoiceFields(vendorId: string, vendorName: string, totalAmount: int, paidAmount: int, outstandingAmount: int)
    ensures var r := SampleInvoice(vendorId, vendorName, totalAmount, paidAmount, outstandingAmount);
            && VendorLabel(r) == vendorId + ": " + vendorName
            && AmountOf(r, "totalAmount") == Some(totalAmount)
            && AmountOf(r, "paidAmount") == Some(paidAmount)
            && AmountOf(r, "outstandingAmount") == Some(outstandingAmount)
  {
  }

  lemma TotalOfThree(r0: Value, r1: Value, r2: Value, field: string, a: int, b: int, c: int)
    requires AmountOf(r0, field) == Some(a) && AmountOf(r1, field) == Some(b) && AmountOf(r2, field) == Some(c)
    ensures Total([r0, r1, r2], field) == Some(a + b + c)
  {
    assert [r0, r1, r2][..2] == [r0, r1];
    assert [r0, r1][..1] == [r0];
    assert [r0][..0] == [];
    assert Total([r0], field) == Some(a);
    assert Total([r0, r1], field) == Some(a + b);
  }

  lemma HardcodedTotals()
    ensures Total(HardcodedPOs, "totalAmount") == Some(113500)
    ensures Total(HardcodedInvoices, "totalAmount") == Some(113500)
    ensures Total(HardcodedInvoices, "paidAmount") == Some(26750)
    ensures Total(HardcodedInvoices, "outstandingAmount") == Some(86750)
  {
    SamplePOFields("VENDOR_001", "TechCorp Solutions", 25000);
    SamplePOFields("VENDOR_002", "Office Supplies Pro", 3500);
    SamplePOFields("VENDOR_003", "Industrial Equipment LLC", 85000);
    SampleInvoiceFields("VENDOR_001", "TechCorp Solutions", 25000, 25000, 0);
    SampleInvoiceFields("VENDOR_002", "Office Supplies Pro", 3500, 1750, 1750);
    SampleInvoiceFields("VENDOR_003", "Industrial Equipment LLC", 85000, 0, 85000);
    var p := HardcodedPOs;
    var q := HardcodedInvoices;
    TotalOfThree(p[0], p[1], p[2], "totalAmount", 25000, 3500, 85000);
    TotalOfThree(q[0], q[1], q[2], "totalAmount", 25000, 3500, 85000);
    TotalOfThree(q[0], q[1], q[2], "paidAmount", 25000, 1750, 0);
    TotalOfThree(q[0], q[1], q[2], "outstandingAmount", 0, 1750, 85000);
  }

  /** Without purchase orders or invoices in the body the hardcoded sample is inserted and
      reported, */
  lemma HardcodedSampleReport(body: Value)
    requires !UsesBody(body)
    ensures SampleOutcomeOf(body) == Created(ResponseOf(body, HardcodedPOs, HardcodedInvoices))
  {
    assert Readable(HardcodedPOs) && Readable(HardcodedInvoices);
  }

  /** and its report has three of each and the sample's totals; it is labelled "hardcoded"
      only for an empty body, and "request_body" for a non-empty one naming neither list. */
  lemma HardcodedSampleStatistics(body: Value)
    requires !UsesBody(body)
    ensures ResponseOf(body, HardcodedPOs, HardcodedInvoices).dataSource
              == if HasBody(body) then "request_body" else "hardcoded"
    ensures ResponseOf(body, HardcodedPOs, HardcodedInvoices).statistics ==
              SampleStatistics(3, 3, Some(113500), Some(113500), Some(26750), Some(86750))
  {
    HardcodedTotals();
  }

  /** The two collections the sample records are inserted into. */
  class Collections {
    var purchaseOrders: seq<Value>
    var invoices: seq<Value>

    constructor()
      ensures purchaseOrders == [] && invoices == []
    {
      purchaseOrders := [];
      invoices := [];
    }
  }

  /** `createSampleData`: anything but two arrays is refused before either collection is
      touched; otherwise both lists are inserted and the statistics are computed from them. */
  method CreateSampleData(body: Value, store: Collections) returns (outcome: SampleOutcome)
    modifies store
    ensures outcome == SampleOutcomeOf(body)
    ensures outcome.Invalid? ==> unchanged(store)
    ensures !outcome.Invalid? ==>
              && store.purchaseOrders == old(store.purchaseOrders) + SampleInputs(body).0.items
              && store.invoices == old(store.invoices) + SampleInputs(body).1.items
  {
    var samplePOs: Value;
    var sampleInvoices: Value;
    if UsesBody(body) {
      samplePOs := OrElse(GetProperty(body, "purchaseOrders"), Arr([]));
      sampleInvoices := OrElse(GetProperty(body, "invoices"), Arr([]));
    } else {
      samplePOs := Arr(HardcodedPOs);
      sampleInvoices := Arr(HardcodedInvoices);
    }
    if !samplePOs.Arr? || !sampleInvoices.Arr? {
      return Invalid(NotArrays);
    }
    store.purchaseOrders := store.purchaseOrders + samplePOs.items;
    store.invoices := store.invoices + sampleInvoices.items;
    if !Readable(samplePOs.items) || !Readable(sampleInvoices.items) {
      return ServerError;
    }
    outcome := Created(ResponseOf(body, samplePOs.items, sampleInvoices.items));
  }
}
