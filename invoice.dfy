/** The invoice payment state: before every save the outstanding amount and the status are
    derived from the total and the amount paid, and recording a payment adds to the amount
    paid and saves. */
module Invoices {
  import opened Util

  datatype InvoiceStatus = Draft | Sent | Received | Paid | PartiallyPaid | Overdue | Cancelled

  datatype Payment = Payment(paymentDate: string, amountPaid: real, paymentMethod: string, reference: Option<string>)

  /** The fields the pre-save hook reads and writes. */
  datatype PaymentState = PaymentState(totalAmount: real, paidAmount: real, outstandingAmount: real, status: InvoiceStatus)

  /** The pre-save hook. Nothing paid: "received", except that a cancelled invoice stays
      cancelled, and the whole total is outstanding. Paid in full or more: "paid" with nothing
      outstanding. Otherwise "partially_paid" with the remainder outstanding. */
  function AfterHook(s: PaymentState): (r: PaymentState)
    ensures r.totalAmount == s.totalAmount && r.paidAmount == s.paidAmount
    ensures s.paidAmount == 0.0 ==>
              r.outstandingAmount == s.totalAmount && r.status == (if s.status == Cancelled then Cancelled else Received)
    ensures s.paidAmount != 0.0 && s.paidAmount >= s.totalAmount ==> r.status == Paid && r.outstandingAmount == 0.0
    ensures s.paidAmount != 0.0 && s.paidAmount < s.totalAmount ==>
              r.status == PartiallyPaid && r.outstandingAmount == s.totalAmount - s.paidAmount
  {
    var outstanding := s.totalAmount - s.paidAmount;
    if s.paidAmount == 0.0 then
      s.(outstandingAmount := outstanding, status := if s.status == Cancelled then Cancelled else Received)
    else if s.paidAmount >= s.totalAmount then
      s.(outstandingAmount := 0.0, status := Paid)
    else
      s.(outstandingAmount := outstanding, status := PartiallyPaid)
  }

  /** With the schema's non-negative amounts, nothing negative and nothing above the total is
      ever outstanding. */
  lemma HookBounds(s: PaymentState)
    requires s.totalAmount >= 0.0 && s.paidAmount >= 0.0
    ensures 0.0 <= AfterHook(s).outstandingAmount <= s.totalAmount
  {
  }

  /** Saving twice derives the same fields as saving once. */
  lemma HookIdempotent(s: PaymentState)
    ensures AfterHook(AfterHook(s)) == AfterHook(s)
  {
  }

  /** Paying the rest of a partially paid invoice settles it. */
  lemma PayingOffSettles(s: PaymentState, amount: real)
    requires 0.0 < s.paidAmount < s.totalAmount
    requires amount == AfterHook(s).outstandingAmount
    ensures AfterHook(s.(paidAmount := s.paidAmount + amount)) == s.(paidAmount := s.totalAmount, outstandingAmount := 0.0, status := Paid)
  {
  }

  /** The hook ignores the old outstanding amount, and the old status matters only for an
      unpaid invoice, and then only whether it was cancelled. */
  lemma HookIgnoresOldFields(s: PaymentState, t: PaymentState)
    requires s.totalAmount == t.totalAmount && s.paidAmount == t.paidAmount
    ensures AfterHook(s).outstandingAmount == AfterHook(t).outstandingAmount
    ensures s.paidAmount != 0.0 || (s.status == Cancelled <==> t.status == Cancelled) ==> AfterHook(s) == AfterHook(t)
  {
  }

  class Invoice {
    var invoiceNumber: string
    var totalAmount: real
    var paidAmount: real
    var outstandingAmount: real
    var status: InvoiceStatus
    var paymentHistory: seq<Payment>

    /** A new invoice with the schema's defaults: nothing paid, everything outstanding, "draft". */
    constructor(number: string, total: real)
      ensures invoiceNumber == number && totalAmount == total && paidAmount == 0.0
      ensures outstandingAmount == total && status == Draft && paymentHistory == []
    {
      invoiceNumber := number;
      totalAmount := total;
      paidAmount := 0.0;
      outstandingAmount := total;
      status := Draft;
      paymentHistory := [];
    }

    function State(): PaymentState
      reads this
    {
      PaymentState(totalAmount, paidAmount, outstandingAmount, status)
    }

    /** The pre-save hook, run by every save. */
    method PreSave()
      modifies this`outstandingAmount, this`status
      ensures State() == AfterHook(old(State()))
    {
      outstandingAmount := totalAmount - paidAmount;
      if paidAmount == 0.0 {
        status := if status == Cancelled then Cancelled else Received;
      } else if paidAmount >= totalAmount {
        status := Paid;
        outstandingAmount := 0.0;
      } else {
        status := PartiallyPaid;
      }
    }
  }

  /** `addPayment`: `invoice` is the invoice found by id, `null` when none was. */
  method AddPayment(invoice: Invoice?, payment: Payment) returns (r: Result<Invoice>)
    modifies invoice
    ensures invoice == null ==> r == Err("Invoice not found")
    ensures invoice != null ==>
              && r == Ok(invoice)
              && invoice.paymentHistory == old(invoice.paymentHistory) + [payment]
              && invoice.invoiceNumber == old(invoice.invoiceNumber)
              && invoice.State() == AfterHook(old(invoice.State()).(paidAmount := old(invoice.paidAmount) + payment.amountPaid))
  {
    if invoice == null {
      return Err("Invoice not found");
    }
    invoice.paymentHistory := invoice.paymentHistory + [payment];
    invoice.paidAmount := invoice.paidAmount + payment.amountPaid;
    invoice.PreSave();
    r := Ok(invoice);
  }
}
