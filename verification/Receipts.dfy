/** Receipts (app/receipts/generator.py and app/services/receipt_service.py). */
module Receipts {
  import opened Common
  import opened TransactionStates
  import opened TransactionRepository
  import opened Audit

  datatype Receipt = Receipt(
    receiptId: string, transactionId: string, checkoutRequestId: string, mpesaReceiptNumber: string,
    amount: int, phoneNumber: string, status: Status, issuedAt: Time)

  datatype Answer =
    | ReferenceRequired
    | TransactionNotFound
    | NotCompleted
    | ReceiptNumberMissing
    | Issued(receipt: Receipt)

  function Generate(row: Transaction, receiptId: string, now: Time): Answer {
    if row.status != Completed then NotCompleted
    else if row.mpesaReceiptNumber.None? then ReceiptNumberMissing
    else Issued(Receipt(receiptId, row.transactionId, row.fields.checkoutRequestId, row.mpesaReceiptNumber.value,
                        row.fields.amount, row.fields.phoneNumber, row.status, now))
  }

  function ReceiptFor(rows: Rows, checkout: string, receiptId: string, now: Time): Answer {
    if checkout == "" then ReferenceRequired
    else
      var i := IndexOfCheckout(rows, checkout);
      if i == |rows| then TransactionNotFound else Generate(rows[i], receiptId, now)
  }

  predicate HasProviderReference(row: Transaction, reference: string) {
    row.fields.providerTransactionId == Some(reference) || row.fields.providerReference == Some(reference)
  }

  function IndexOfReference(rows: Rows, reference: string): (i: nat)
    ensures i <= |rows|
    ensures i < |rows| ==> HasProviderReference(rows[i], reference)
    ensures forall j :: 0 <= j < i ==> !HasProviderReference(rows[j], reference)
  {
    if rows == [] then 0
    else if HasProviderReference(rows[0], reference) then 0
    else 1 + IndexOfReference(rows[1..], reference)
  }

  /** One of the three ids of a transaction that a reference can be. */
  predicate RefersTo(reference: string, row: Transaction) {
    row.fields.checkoutRequestId == reference || HasProviderReference(row, reference)
  }

  /** The transaction that a lookup finds: by checkout id first, then by provider reference. */
  function FoundAt(rows: Rows, reference: string): (j: nat)
    ensures j <= |rows|
    ensures j < |rows| ==> RefersTo(reference, rows[j])
    ensures j == |rows| ==> forall k :: 0 <= k < |rows| ==> !RefersTo(reference, rows[k])
  {
    var i := IndexOfCheckout(rows, reference);
    if i < |rows| then i else IndexOfReference(rows, reference)
  }

  /** The row found only lends its checkout id: the receipt is generated by a second lookup. */
  function ReceiptByReference(rows: Rows, reference: string, receiptId: string, now: Time): Answer {
    if reference == "" then ReferenceRequired
    else
      var j := FoundAt(rows, reference);
      if j == |rows| then TransactionNotFound
      else ReceiptFor(rows, rows[j].fields.checkoutRequestId, receiptId, now)
  }

  class ReceiptService {
    const repository: InMemoryTransactionRepository
    const auditLog: AuditLog
    const metrics: Metrics

    constructor (repository: InMemoryTransactionRepository, auditLog: AuditLog, metrics: Metrics)
      ensures this.repository == repository && this.auditLog == auditLog && this.metrics == metrics
    {
      this.repository, this.auditLog, this.metrics := repository, auditLog, metrics;
    }

    method GenerateReceipt(checkout: string, receiptId: string, now: Time) returns (answer: Answer)
      modifies auditLog, metrics
      ensures answer == ReceiptFor(repository.transactions, checkout, receiptId, now)
      ensures auditLog.events == old(auditLog.events) + EventsOf(answer)
      ensures metrics.counts == if answer.Issued?
        then old(metrics.counts).(receiptsGenerated := old(metrics.counts).receiptsGenerated + 1)
        else old(metrics.counts)
    {
      if checkout == "" {
        return ReferenceRequired;
      }
      var found := repository.FindByCheckoutRequestId(checkout);
      if found.None? {
        return TransactionNotFound;
      }
      answer := Generate(found.value, receiptId, now);
      if !answer.Issued? {
        return;
      }
      auditLog.LogEvent(ReceiptGenerated(answer.receipt.receiptId, found.value.transactionId,
                                         found.value.fields.checkoutRequestId));
      metrics.Increment(ReceiptIssued);
    }

    method GenerateReceiptByReference(reference: string, receiptId: string, now: Time) returns (answer: Answer)
      modifies auditLog, metrics
      ensures answer == ReceiptByReference(repository.transactions, reference, receiptId, now)
      ensures auditLog.events == old(auditLog.events) + EventsOf(answer)
      ensures metrics.counts == if answer.Issued?
        then old(metrics.counts).(receiptsGenerated := old(metrics.counts).receiptsGenerated + 1)
        else old(metrics.counts)
    {
      if reference == "" {
        return ReferenceRequired;
      }
      var found := repository.FindByCheckoutRequestId(reference);
      if found.None? {
        var j := IndexOfReference(repository.transactions, reference);
        found := RowAt(repository.transactions, j);
      }
      if found.None? {
        return TransactionNotFound;
      }
      answer := GenerateReceipt(found.value.fields.checkoutRequestId, receiptId, now);
    }
  }

  function EventsOf(answer: Answer): seq<AuditEvent> {
    if answer.Issued?
    then [ReceiptGenerated(answer.receipt.receiptId, answer.receipt.transactionId, answer.receipt.checkoutRequestId)]
    else []
  }

  /** No transaction before `j` has its checkout id, and that id is not empty. */
  ghost predicate LeadsItsCheckout(rows: Rows, j: nat)
    requires j < |rows|
  {
    && rows[j].fields.checkoutRequestId != ""
    && forall k :: 0 <= k < j ==> rows[k].fields.checkoutRequestId != rows[j].fields.checkoutRequestId
  }

  /** Whatever the ids, a lookup finds nothing exactly when the reference names no transaction. */
  lemma NothingFoundExactly(rows: Rows, reference: string, receiptId: string, now: Time)
    requires reference != ""
    ensures ReceiptByReference(rows, reference, receiptId, now) == TransactionNotFound
       <==> forall k :: 0 <= k < |rows| ==> !RefersTo(reference, rows[k])
  {
    var j := FoundAt(rows, reference);
    if j < |rows| {
      assert IndexOfCheckout(rows, rows[j].fields.checkoutRequestId) <= j;
    }
  }

  /** The exact condition for a right receipt: a lookup answers with the receipt of the
      transaction it finds if and only if that one has a non-empty checkout id that no earlier
      transaction has. */
  lemma RightReceiptExactly(rows: Rows, reference: string, receiptId: string, now: Time)
    requires DistinctIds(rows) && reference != "" && FoundAt(rows, reference) < |rows|
    requires Generate(rows[FoundAt(rows, reference)], receiptId, now).Issued?
    ensures ReceiptByReference(rows, reference, receiptId, now)
         == Generate(rows[FoundAt(rows, reference)], receiptId, now)
       <==> LeadsItsCheckout(rows, FoundAt(rows, reference))
  {
    var j := FoundAt(rows, reference);
    var i := IndexOfCheckout(rows, rows[j].fields.checkoutRequestId);
    assert i <= j;
    if LeadsItsCheckout(rows, j) {
      assert i == j;
    } else if rows[j].fields.checkoutRequestId != "" {
      assert i < j && rows[i].transactionId != rows[j].transactionId;
    }
  }

  ghost predicate UsableCheckouts(rows: Rows) {
    && (forall i :: 0 <= i < |rows| ==> rows[i].fields.checkoutRequestId != "")
    && (forall i, j :: 0 <= i < j < |rows| ==> rows[i].fields.checkoutRequestId != rows[j].fields.checkoutRequestId)
  }

  /** With unique, non-empty checkout ids, every answer to a reference is the answer for the
      transaction found, which the reference names. */
  lemma ReferenceFindsItsTransaction(rows: Rows, reference: string, receiptId: string, now: Time)
    requires UsableCheckouts(rows) && reference != ""
    ensures var answer, j := ReceiptByReference(rows, reference, receiptId, now), FoundAt(rows, reference);
      if answer == TransactionNotFound then forall k :: 0 <= k < |rows| ==> !RefersTo(reference, rows[k])
      else j < |rows| && RefersTo(reference, rows[j]) && answer == Generate(rows[j], receiptId, now)
  {
    var j := FoundAt(rows, reference);
    if j < |rows| {
      assert IndexOfCheckout(rows, rows[j].fields.checkoutRequestId) == j;
    }
  }

  /** Without uniqueness the receipt can be another transaction's: the later of two transactions
      with one checkout id is found by its provider reference, and the earlier one is answered. */
  lemma SharedCheckoutMisleads(first: Transaction, second: Transaction, reference: string, receiptId: string, now: Time)
    requires first.fields.checkoutRequestId == second.fields.checkoutRequestId != ""
    requires reference != "" && HasProviderReference(second, reference) && !RefersTo(reference, first)
    ensures ReceiptByReference([first, second], reference, receiptId, now) == Generate(first, receiptId, now)
    ensures FoundAt([first, second], reference) == 1
  {
    var rows := [first, second];
    assert IndexOfCheckout(rows, reference) == 2;
    assert IndexOfReference(rows, reference) == 1;
    assert IndexOfCheckout(rows, first.fields.checkoutRequestId) == 0;
  }

  /** Without a checkout id there is no receipt: the client stores an empty one when the
      provider's answer has none, and a lookup by the provider's reference, which does find the
      transaction, then answers that a checkout id is required. */
  lemma EmptyCheckoutBlocks(rows: Rows, i: nat, reference: string, receiptId: string, now: Time)
    requires i < |rows| && reference != ""
    requires rows[i].fields.checkoutRequestId == "" && rows[i].fields.providerReference == Some(reference)
    requires forall k :: 0 <= k < |rows| && k != i ==> !RefersTo(reference, rows[k])
    ensures FoundAt(rows, reference) == i
    ensures ReceiptByReference(rows, reference, receiptId, now) == ReferenceRequired
  {
    assert RefersTo(reference, rows[i]);
  }

  // ---------------------------------------------------------------- what a receipt says

  /** A receipt is issued exactly for a completed row with a receipt number, and repeats it. */
  lemma ReceiptRepeatsRow(row: Transaction, receiptId: string, now: Time)
    ensures var answer := Generate(row, receiptId, now);
      && (answer == NotCompleted <==> row.status != Completed)
      && (answer == ReceiptNumberMissing <==> row.status == Completed && row.mpesaReceiptNumber == None)
      && (answer.Issued? <==> row.status == Completed && row.mpesaReceiptNumber != None)
      && (answer.Issued? ==>
          && answer.receipt.receiptId == receiptId && answer.receipt.issuedAt == now
          && answer.receipt.transactionId == row.transactionId && answer.receipt.status == Completed
          && answer.receipt.checkoutRequestId == row.fields.checkoutRequestId
          && Some(answer.receipt.mpesaReceiptNumber) == row.mpesaReceiptNumber
          && answer.receipt.amount == row.fields.amount && answer.receipt.phoneNumber == row.fields.phoneNumber)
  {}

  /** By checkout id, the first row with it is answered; without one, or without an id, none is. */
  lemma CheckoutLookup(rows: Rows, checkout: string, receiptId: string, now: Time)
    ensures checkout == "" ==> ReceiptFor(rows, checkout, receiptId, now) == ReferenceRequired
    ensures ReceiptByReference(rows, "", receiptId, now) == ReferenceRequired
    ensures checkout != "" && (forall i :: 0 <= i < |rows| ==> rows[i].fields.checkoutRequestId != checkout) ==>
      ReceiptFor(rows, checkout, receiptId, now) == TransactionNotFound
    ensures forall i :: 0 <= i < |rows| && rows[i].fields.checkoutRequestId == checkout != ""
                        && (forall j :: 0 <= j < i ==> rows[j].fields.checkoutRequestId != checkout) ==>
      ReceiptFor(rows, checkout, receiptId, now) == Generate(rows[i], receiptId, now)
  {
    var k := IndexOfCheckout(rows, checkout);
    forall i | 0 <= i < |rows| && rows[i].fields.checkoutRequestId == checkout
               && (forall j :: 0 <= j < i ==> rows[j].fields.checkoutRequestId != checkout)
      ensures i == k
    {}
  }

  /** One event is logged for a receipt, with the ids of its row, and none for any other answer. */
  lemma ReceiptIsLogged(row: Transaction, receiptId: string, now: Time, answer: Answer)
    ensures Generate(row, receiptId, now).Issued? ==>
      EventsOf(Generate(row, receiptId, now))
      == [ReceiptGenerated(receiptId, row.transactionId, row.fields.checkoutRequestId)]
    ensures !answer.Issued? ==> EventsOf(answer) == []
  {}
}
