/** The vendor comparison report of the reports model: the per-vendor purchase-order aggregate
    and the per-vendor invoice aggregate are joined by vendor id, a summary is derived for
    each vendor, and the vendors are ordered by total spend, largest first. The two
    aggregates themselves are database pipelines and enter as their result rows. */
module ReportsModel {
  import opened Util
  import opened VendorMerge

  /** One row of the purchase-order aggregate. */
  datatype VendorPurchases = VendorPurchases(
    vendorId: string, vendorName: string,
    totalPurchaseAmount: real, totalPurchaseOrders: nat, averagePurchaseAmount: real,
    categories: seq<string>, departments: seq<string>,
    lastPurchaseDate: Option<string>, firstPurchaseDate: Option<string>)

  /** One row of the invoice aggregate. */
  datatype VendorInvoices = VendorInvoices(
    vendorId: string, vendorName: string,
    totalInvoiceAmount: real, totalPaidAmount: real, totalOutstandingAmount: real,
    totalInvoices: nat, paidInvoices: nat, partiallyPaidInvoices: nat, unpaidInvoices: nat,
    averageInvoiceAmount: real, paymentRate: real,
    categories: seq<string>, departments: seq<string>,
    lastInvoiceDate: Option<string>, firstInvoiceDate: Option<string>)

  /** The `purchaseOrders` part of a report entry. */
  datatype PurchaseFigures = PurchaseFigures(
    totalAmount: real, totalOrders: nat, averageAmount: real,
    categories: seq<string>, departments: seq<string>,
    lastDate: Option<string>, firstDate: Option<string>)

  /** The `invoices` part of a report entry. */
  datatype InvoiceFigures = InvoiceFigures(
    totalAmount: real, totalPaidAmount: real, totalOutstandingAmount: real,
    totalInvoices: nat, paidInvoices: nat, partiallyPaidInvoices: nat, unpaidInvoices: nat,
    averageAmount: real, paymentRate: real,
    categories: seq<string>, departments: seq<string>,
    lastDate: Option<string>, firstDate: Option<string>)

  /** The zero figures a vendor gets on the side it has no rows for. */
  const NoPurchases := PurchaseFigures(0.0, 0, 0.0, [], [], None, None)
  const NoInvoices := InvoiceFigures(0.0, 0.0, 0.0, 0, 0, 0, 0, 0.0, 0.0, [], [], None, None)

  datatype VendorEntry = VendorEntry(vendorId: string, vendorName: string, purchaseOrders: PurchaseFigures, invoices: InvoiceFigures)

  /** The derived `summary`; rates and percentages are exact, without the rounding to cents. */
  datatype VendorSummary = VendorSummary(
    totalSpend: real, totalBilled: real, totalPaid: real, totalOutstanding: real,
    billingRate: real, paymentRate: real, variance: real, variancePercentage: real)

  /** One element of the report: the entry spread out, plus its summary. */
  datatype ReportRow = ReportRow(vendor: VendorEntry, summary: VendorSummary)

  function PurchaseId(v: VendorPurchases): string { v.vendorId }
  function InvoiceId(v: VendorInvoices): string { v.vendorId }
  function EntryId(e: VendorEntry): string { e.vendorId }
  function RowId(r: ReportRow): string { r.vendor.vendorId }
  function EntryName(e: VendorEntry): string { e.vendorName }
  function EntryPurchases(e: VendorEntry): PurchaseFigures { e.purchaseOrders }
  function EntryInvoices(e: VendorEntry): InvoiceFigures { e.invoices }
  function SpendOf(r: ReportRow): real { r.summary.totalSpend }

  // ---------------------------------------------------------------------------------------
  // The join
  // ---------------------------------------------------------------------------------------

  function PurchaseFiguresOf(v: VendorPurchases): PurchaseFigures {
    PurchaseFigures(v.totalPurchaseAmount, v.totalPurchaseOrders, v.averagePurchaseAmount,
                    v.categories, v.departments, v.lastPurchaseDate, v.firstPurchaseDate)
  }

  function InvoiceFiguresOf(v: VendorInvoices): InvoiceFigures {
    InvoiceFigures(v.totalInvoiceAmount, v.totalPaidAmount, v.totalOutstandingAmount,
                   v.totalInvoices, v.paidInvoices, v.partiallyPaidInvoices, v.unpaidInvoices,
                   v.averageInvoiceAmount, v.paymentRate, v.categories, v.departments,
                   v.lastInvoiceDate, v.firstInvoiceDate)
  }

  /** The entry a purchase row sets: its figures, and no invoices. */
  function PurchaseEntry(v: VendorPurchases): VendorEntry {
    VendorEntry(v.vendorId, v.vendorName, PurchaseFiguresOf(v), NoInvoices)
  }

  /** An invoice row for a vendor already in the map replaces the invoices part only. */
  function WithInvoices(e: VendorEntry, v: VendorInvoices): VendorEntry {
    e.(invoices := InvoiceFiguresOf(v))
  }

  /** An invoice row for a vendor not yet in the map: its figures, and no purchases. */
  function InvoiceEntry(v: VendorInvoices): VendorEntry {
    VendorEntry(v.vendorId, v.vendorName, NoPurchases, InvoiceFiguresOf(v))
  }

  /** `vendorMap` after both `forEach` passes. */
  function Merged(purchaseData: seq<VendorPurchases>, invoiceData: seq<VendorInvoices>): seq<(string, VendorEntry)> {
    UpdateEach(SetEach([], purchaseData, PurchaseId, PurchaseEntry), invoiceData, InvoiceId, WithInvoices, InvoiceEntry)
  }

  // ---------------------------------------------------------------------------------------
  // Summary and order
  // ---------------------------------------------------------------------------------------

  /** The summary of one vendor. The billed share and the unbilled share of the spend add up
      to 100 percent whenever there was any spend; without spend both are 0. */
  function SummaryOf(e: VendorEntry): (s: VendorSummary)
    ensures s.totalSpend == e.purchaseOrders.totalAmount && s.totalBilled == e.invoices.totalAmount
    ensures s.totalPaid == e.invoices.totalPaidAmount && s.totalOutstanding == e.invoices.totalOutstandingAmount
    ensures s.paymentRate == e.invoices.paymentRate
    ensures s.variance == s.totalSpend - s.totalBilled
    ensures s.totalSpend <= 0.0 ==> s.billingRate == 0.0 && s.variancePercentage == 0.0
    ensures s.totalSpend > 0.0 ==> s.billingRate + s.variancePercentage == 100.0
    ensures s.totalSpend > 0.0 ==> s.billingRate * s.totalSpend == 100.0 * s.totalBilled
  {
    var poTotal := e.purchaseOrders.totalAmount;
    var invoiceTotal := e.invoices.totalAmount;
    VendorSummary(
      poTotal, invoiceTotal, e.invoices.totalPaidAmount, e.invoices.totalOutstandingAmount,
      if poTotal > 0.0 then invoiceTotal / poTotal * 100.0 else 0.0,
      e.invoices.paymentRate,
      poTotal - invoiceTotal,
      if poTotal > 0.0 then (poTotal - invoiceTotal) / poTotal * 100.0 else 0.0)
  }

  function RowOf(e: VendorEntry): ReportRow {
    ReportRow(e, SummaryOf(e))
  }

  function Rows(entries: seq<VendorEntry>): (rows: seq<ReportRow>)
    ensures |rows| == |entries|
    ensures forall i :: 0 <= i < |entries| ==> rows[i] == RowOf(entries[i])
  {
    seq(|entries|, i requires 0 <= i < |entries| => RowOf(entries[i]))
  }

  /** The report: the map's entries in insertion order, summarised, then sorted by spend. */
  function Report(purchaseData: seq<VendorPurchases>, invoiceData: seq<VendorInvoices>): seq<ReportRow> {
    SortDescBy(Rows(MapValues(Merged(purchaseData, invoiceData))), SpendOf)
  }

  // ---------------------------------------------------------------------------------------
  // What the report holds
  // ---------------------------------------------------------------------------------------

  /** The map holds one entry per vendor id of either aggregate, each under its own id. */
  lemma MergedKeys(purchaseData: seq<VendorPurchases>, invoiceData: seq<VendorInvoices>)
    ensures NoDuplicates(Keys(Merged(purchaseData, invoiceData)))
    ensures forall x :: x in Keys(Merged(purchaseData, invoiceData)) <==>
                        x in IdsOf(purchaseData, PurchaseId) || x in IdsOf(invoiceData, InvoiceId)
    ensures KeyedBy(Merged(purchaseData, invoiceData), EntryId)
  {
    var first := SetEach([], purchaseData, PurchaseId, PurchaseEntry);
    SetEachKeys([], purchaseData, PurchaseId, PurchaseEntry);
    UpdateEachKeys(first, invoiceData, InvoiceId, WithInvoices, InvoiceEntry);
    SetEachKeyed([], purchaseData, PurchaseId, PurchaseEntry, EntryId);
    UpdateEachKeyed(first, invoiceData, InvoiceId, WithInvoices, InvoiceEntry, EntryId);
  }

  /** Every vendor id present in either aggregate appears in the report exactly once, and no
      other id does. */
  lemma ReportVendorsOnce(purchaseData: seq<VendorPurchases>, invoiceData: seq<VendorInvoices>)
    ensures NoDuplicates(IdsOf(Report(purchaseData, invoiceData), RowId))
    ensures forall x :: x in IdsOf(Report(purchaseData, invoiceData), RowId) <==>
                        x in IdsOf(purchaseData, PurchaseId) || x in IdsOf(invoiceData, InvoiceId)
  {
    var m := Merged(purchaseData, invoiceData);
    MergedKeys(purchaseData, invoiceData);
    KeyedIds(m, EntryId);
    var rows := Rows(MapValues(m));
    assert IdsOf(rows, RowId) == IdsOf(MapValues(m), EntryId);
    IdsOfPermutation(rows, Report(purchaseData, invoiceData), RowId);
  }

  /** The report is ordered by total spend, largest first. */
  lemma ReportSorted(purchaseData: seq<VendorPurchases>, invoiceData: seq<VendorInvoices>)
    ensures SortedDesc(Report(purchaseData, invoiceData), SpendOf)
  {
    SortDescBySorted(Rows(MapValues(Merged(purchaseData, invoiceData))), SpendOf);
  }

  /** Every report row is a merged vendor entry with its own summary. */
  lemma ReportRowsAreMerged(purchaseData: seq<VendorPurchases>, invoiceData: seq<VendorInvoices>)
    ensures forall r :: r in Report(purchaseData, invoiceData) ==>
              r.summary == SummaryOf(r.vendor)
              && MapGet(Merged(purchaseData, invoiceData), r.vendor.vendorId) == Some(r.vendor)
  {
    var m := Merged(purchaseData, invoiceData);
    MergedKeys(purchaseData, invoiceData);
    var rows := Rows(MapValues(m));
    forall r | r in Report(purchaseData, invoiceData)
      ensures r.summary == SummaryOf(r.vendor) && MapGet(m, r.vendor.vendorId) == Some(r.vendor)
    {
      assert r in multiset(rows);
      var k :| 0 <= k < |rows| && rows[k] == r;
      MapGetAt(m, k);
    }
  }

  /** A vendor with purchase rows only: the last purchase row's entry, with zero invoices. */
  lemma PurchaseOnlyVendor(purchaseData: seq<VendorPurchases>, invoiceData: seq<VendorInvoices>, x: string)
    requires x in IdsOf(purchaseData, PurchaseId) && x !in IdsOf(invoiceData, InvoiceId)
    ensures var last := LastWith(purchaseData, PurchaseId, x).value;
            && MapGet(Merged(purchaseData, invoiceData), x) == Some(PurchaseEntry(last))
            && PurchaseEntry(last).invoices == NoInvoices
  {
    var first := SetEach([], purchaseData, PurchaseId, PurchaseEntry);
    SetEachKeys([], purchaseData, PurchaseId, PurchaseEntry);
    SetEachGet([], purchaseData, PurchaseId, PurchaseEntry, x);
    UpdateEachGet(first, invoiceData, InvoiceId, WithInvoices, InvoiceEntry, x);
    FoldedUntouched(MapGet(first, x), invoiceData, InvoiceId, x, WithInvoices, InvoiceEntry);
  }

  /** A vendor with rows on both sides keeps the identity and purchase figures of its last
      purchase row; its invoice figures are those of its last invoice row. */
  lemma VendorOnBothSides(purchaseData: seq<VendorPurchases>, invoiceData: seq<VendorInvoices>, x: string)
    requires x in IdsOf(purchaseData, PurchaseId) && x in IdsOf(invoiceData, InvoiceId)
    ensures MapGet(Merged(purchaseData, invoiceData), x).Some?
    ensures var e := MapGet(Merged(purchaseData, invoiceData), x).value;
            var p := LastWith(purchaseData, PurchaseId, x).value;
            && e.vendorId == x && e.vendorName == p.vendorName
            && e.purchaseOrders == PurchaseFiguresOf(p)
            && e.invoices == InvoiceFiguresOf(LastWith(invoiceData, InvoiceId, x).value)
  {
    var first := SetEach([], purchaseData, PurchaseId, PurchaseEntry);
    var p := LastWith(purchaseData, PurchaseId, x).value;
    SetEachKeys([], purchaseData, PurchaseId, PurchaseEntry);
    SetEachGet([], purchaseData, PurchaseId, PurchaseEntry, x);
    UpdateEachGet(first, invoiceData, InvoiceId, WithInvoices, InvoiceEntry, x);
    var start := MapGet(first, x);
    FoldedPreserves(start, invoiceData, InvoiceId, x, WithInvoices, InvoiceEntry, EntryPurchases, PurchaseFiguresOf(p));
    FoldedLast(start, invoiceData, InvoiceId, x, WithInvoices, InvoiceEntry, EntryInvoices, InvoiceFiguresOf);
    MergedKeys(purchaseData, invoiceData);
    MapGetKeyed(Merged(purchaseData, invoiceData), x, EntryId);
    assert forall e, v :: EntryName(WithInvoices(e, v)) == EntryName(e);
    FoldedPreserves(start, invoiceData, InvoiceId, x, WithInvoices, InvoiceEntry, EntryName, p.vendorName);
  }

  /** A vendor with invoice rows only: zero purchases, the invoice figures of its last invoice
      row and the name of its first. */
  lemma InvoiceOnlyVendor(purchaseData: seq<VendorPurchases>, invoiceData: seq<VendorInvoices>, x: string)
    requires x !in IdsOf(purchaseData, PurchaseId) && x in IdsOf(invoiceData, InvoiceId)
    ensures MapGet(Merged(purchaseData, invoiceData), x).Some?
    ensures var e := MapGet(Merged(purchaseData, invoiceData), x).value;
            && e.vendorId == x && e.purchaseOrders == NoPurchases
            && e.invoices == InvoiceFiguresOf(LastWith(invoiceData, InvoiceId, x).value)
    ensures forall i :: 0 <= i < |invoiceData| && invoiceData[i].vendorId == x && x !in IdsOf(invoiceData[..i], InvoiceId) ==>
              MapGet(Merged(purchaseData, invoiceData), x).value.vendorName == invoiceData[i].vendorName
  {
    var first := SetEach([], purchaseData, PurchaseId, PurchaseEntry);
    SetEachKeys([], purchaseData, PurchaseId, PurchaseEntry);
    SetEachGet([], purchaseData, PurchaseId, PurchaseEntry, x);
    UpdateEachGet(first, invoiceData, InvoiceId, WithInvoices, InvoiceEntry, x);
    FoldedLast(None, invoiceData, InvoiceId, x, WithInvoices, InvoiceEntry, EntryInvoices, InvoiceFiguresOf);
    FoldedPreserves(None, invoiceData, InvoiceId, x, WithInvoices, InvoiceEntry, EntryPurchases, NoPurchases);
    MergedKeys(purchaseData, invoiceData);
    MapGetKeyed(Merged(purchaseData, invoiceData), x, EntryId);
    forall i | 0 <= i < |invoiceData| && invoiceData[i].vendorId == x && x !in IdsOf(invoiceData[..i], InvoiceId)
      ensures MapGet(Merged(purchaseData, invoiceData), x).value.vendorName == invoiceData[i].vendorName
    {
      FoldedFirst(invoiceData, InvoiceId, x, WithInvoices, InvoiceEntry, EntryName, i);
    }
  }

  // ---------------------------------------------------------------------------------------
  // The method
  // ---------------------------------------------------------------------------------------

  /** The in-memory part of `getVendorComparisonReport`, given the two aggregates' rows. */
  method GetVendorComparisonReport(purchaseData: seq<VendorPurchases>, invoiceData: seq<VendorInvoices>)
    returns (vendorReport: seq<ReportRow>)
    ensures vendorReport == Report(purchaseData, invoiceData)
  {
    var vendorMap: seq<(string, VendorEntry)> := [];
    for k := 0 to |purchaseData|
      invariant vendorMap == SetEach([], purchaseData[..k], PurchaseId, PurchaseEntry)
    {
      assert purchaseData[..k + 1][..k] == purchaseData[..k];
      var vendor := purchaseData[k];
      vendorMap := MapSet(vendorMap, vendor.vendorId, PurchaseEntry(vendor));
    }
    assert purchaseData[..|purchaseData|] == purchaseData;
    ghost var afterPurchases := vendorMap;
    for k := 0 to |invoiceData|
      invariant vendorMap == UpdateEach(afterPurchases, invoiceData[..k], InvoiceId, WithInvoices, InvoiceEntry)
    {
      assert invoiceData[..k + 1][..k] == invoiceData[..k];
      var vendor := invoiceData[k];
      match MapGet(vendorMap, vendor.vendorId) {
        case Some(existing) =>
          vendorMap := MapSet(vendorMap, vendor.vendorId, existing.(invoices := InvoiceFiguresOf(vendor)));
        case None =>
          vendorMap := MapSet(vendorMap, vendor.vendorId, InvoiceEntry(vendor));
      }
    }
    assert invoiceData[..|invoiceData|] == invoiceData;
    var vendors := MapValues(vendorMap);
    var rows: seq<ReportRow> := [];
    for k := 0 to |vendors|
      invariant |rows| == k
      invariant forall j :: 0 <= j < k ==> rows[j] == RowOf(vendors[j])
    {
      rows := rows + [RowOf(vendors[k])];
    }
    assert rows == Rows(vendors);
    vendorReport := SortDescBy(rows, SpendOf);
  }

  // ---------------------------------------------------------------------------------------
  // Overall statistics
  // ---------------------------------------------------------------------------------------

  datatype StatusAmount = StatusAmount(status: string, amount: real)

  /** The one row of the purchase-order statistics aggregate. */
  datatype PurchaseOrderStats = PurchaseOrderStats(
    totalAmount: real, totalOrders: nat, averageAmount: real, uniqueVendors: nat,
    statusBreakdown: seq<StatusAmount>)

  /** The one row of the invoice statistics aggregate. */
  datatype InvoiceStats = InvoiceStats(
    totalAmount: real, totalPaidAmount: real, totalOutstandingAmount: real, totalInvoices: nat,
    averageAmount: real, uniqueVendors: nat, paymentRate: real, statusBreakdown: seq<StatusAmount>)

  /** `getPurchaseOrderStats`: the aggregate's single row, or all zeros when it matched nothing. */
  function PurchaseOrderStatsOf(result: seq<PurchaseOrderStats>): (s: PurchaseOrderStats)
    ensures result != [] ==> s == result[0]
    ensures result == [] ==>
              && s.totalAmount == 0.0 && s.totalOrders == 0 && s.averageAmount == 0.0
              && s.uniqueVendors == 0 && s.statusBreakdown == []
  {
    if result == [] then PurchaseOrderStats(0.0, 0, 0.0, 0, []) else result[0]
  }

  /** `getInvoiceStats`: the aggregate's single row, or all zeros when it matched nothing. */
  function InvoiceStatsOf(result: seq<InvoiceStats>): (s: InvoiceStats)
    ensures result != [] ==> s == result[0]
    ensures result == [] ==>
              && s.totalAmount == 0.0 && s.totalPaidAmount == 0.0 && s.totalOutstandingAmount == 0.0
              && s.totalInvoices == 0 && s.averageAmount == 0.0 && s.uniqueVendors == 0
              && s.paymentRate == 0.0 && s.statusBreakdown == []
  {
    if result == [] then InvoiceStats(0.0, 0.0, 0.0, 0, 0.0, 0, 0.0, []) else result[0]
  }
}
