/** The audit log and the counters that the services write (app/audit, app/observability). */
module Audit {
  import opened Common

  datatype AuditEvent =
    | ApprovalCreated(approvalId: string, requiredReviewers: int)
    | ApprovalPartiallyApproved(approvalId: string, reviewCount: int)
    | ApprovalApproved(approvalId: string, reviewCount: int)
    | ApprovalRejected(approvalId: string)
    | ApprovalExpired(approvalId: string)
    | StkPushInitiated(transactionId: string, amount: int, phoneNumber: string, idempotencyKey: Option<string>,
                       checkoutRequestId: string, merchantRequestId: string)
    | CallbackProcessed(checkoutRequestId: string, transactionId: string, resultCode: int)
    | CallbackInvalidPayload(checkout: Option<string>)
    | CallbackUnknownTransaction(checkoutRequestId: string)
    | CallbackInvalidTransition(checkoutRequestId: string)
    | CallbackAmountMismatch(checkoutRequestId: string, transactionId: string, amount: int)
    | CallbackPhoneMismatch(checkoutRequestId: string, transactionId: string, phoneNumber: string)
    | CallbackDuplicate(replayKey: string)
    | ReceiptGenerated(receiptId: string, transactionId: string, checkoutRequestId: string)

  class AuditLog {
    var events: seq<AuditEvent>

    constructor ()
      ensures events == []
    {
      events := [];
    }

    method LogEvent(e: AuditEvent)
      modifies this
      ensures events == old(events) + [e]
    {
      events := events + [e];
    }
  }

  datatype Counts = Counts(
    successfulPayments: nat, failedPayments: nat, approvalsRequired: nat,
    callbacksReceived: nat, receiptsGenerated: nat)

  datatype Counter =
    | SuccessfulPayment | FailedPayment | ApprovalRequired | CallbackReceived | ReceiptIssued

  function Counted(c: Counts, counter: Counter): Counts {
    match counter
    case SuccessfulPayment => c.(successfulPayments := c.successfulPayments + 1)
    case FailedPayment => c.(failedPayments := c.failedPayments + 1)
    case ApprovalRequired => c.(approvalsRequired := c.approvalsRequired + 1)
    case CallbackReceived => c.(callbacksReceived := c.callbacksReceived + 1)
    case ReceiptIssued => c.(receiptsGenerated := c.receiptsGenerated + 1)
  }

  class Metrics {
    var counts: Counts

    constructor ()
      ensures counts == Counts(0, 0, 0, 0, 0)
    {
      counts := Counts(0, 0, 0, 0, 0);
    }

    method Increment(counter: Counter)
      modifies this
      ensures counts == Counted(old(counts), counter)
    {
      counts := Counted(counts, counter);
    }
  }
}
