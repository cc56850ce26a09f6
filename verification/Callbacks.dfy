/** The STK callback handler (app/callbacks/handlers.py). */
module Callbacks {
  import opened Common
  import opened TransactionStates
  import opened TransactionRepository
  import opened Decimal
  import opened Json
  import opened Audit

  /** The part of a payload that the handler reads: `Body.stkCallback`. */
  function ExtractCallback(payload: Dict): Option<Dict> {
    var body := Get(payload, "Body");
    if !body.JObject? then None
    else
      var callback := Get(body.fields, "stkCallback");
      if callback.JObject? then Some(callback.fields) else None
  }

  predicate HasSuccessMetadata(metadata: Dict) {
    && GetInt(metadata, "Amount").Some?
    && GetString(metadata, "MpesaReceiptNumber").Some?
    && GetString(metadata, "PhoneNumber").Some?
  }

  function DigitsOnly(phone: string): string {
    if phone == "" then ""
    else (if IsDigit(phone[0]) then [phone[0]] else []) + DigitsOnly(phone[1..])
  }

  /** The readable facts of a callback. */
  datatype Facts = Facts(checkout: string, code: int, description: string, metadata: Dict) {
    function Target(): Status {
      if code == 0 then Completed else Failed
    }

    function Amount(): Option<int> {
      GetInt(metadata, "Amount")
    }

    function Phone(): Option<string> {
      GetString(metadata, "PhoneNumber")
    }

    function Receipt(): Option<string> {
      GetString(metadata, "MpesaReceiptNumber")
    }

    function ToSettlement(): Settlement {
      Settlement(Target(), code, description, Receipt())
    }
  }

  /** What the handler decides about a payload. */
  datatype Verdict =
    | Malformed(checkout: Option<string>)
    | NoTransaction(checkoutId: string)
    | BadTransition(facts: Facts)
    | WrongAmount(facts: Facts, row: Transaction)
    | WrongPhone(facts: Facts, row: Transaction)
    | Settles(facts: Facts, row: Transaction)

  function ReadFacts(callback: Dict): Option<Facts> {
    var checkout := GetString(callback, "CheckoutRequestID");
    var code := GetInt(callback, "ResultCode");
    var description := GetString(callback, "ResultDesc");
    if checkout.None? || code.None? || description.None? then None
    else Some(Facts(checkout.value, code.value, description.value, Metadata(callback)))
  }

  function Judge(rows: Rows, payload: Dict): Verdict {
    var callback := ExtractCallback(payload);
    if callback.None? then Malformed(None)
    else JudgeCallback(rows, callback.value)
  }

  function JudgeCallback(rows: Rows, callback: Dict): Verdict {
    var facts := ReadFacts(callback);
    if facts.None? then Malformed(GetString(callback, "CheckoutRequestID"))
    else JudgeFacts(rows, facts.value)
  }

  function JudgeFacts(rows: Rows, f: Facts): Verdict {
    var i := IndexOfCheckout(rows, f.checkout);
    if i == |rows| then NoTransaction(f.checkout)
    else if f.code == 0 && !HasSuccessMetadata(f.metadata) then Malformed(Some(f.checkout))
    else if !CanTransition(rows[i].status, f.Target()) then BadTransition(f)
    else if f.Amount().Some? && f.Amount().value != rows[i].fields.amount then WrongAmount(f, rows[i])
    else if f.Phone().Some? && DigitsOnly(f.Phone().value) != DigitsOnly(rows[i].fields.phoneNumber)
      then WrongPhone(f, rows[i])
    else Settles(f, rows[i])
  }

  function RowsFor(rows: Rows, v: Verdict, now: Time): Rows {
    if v.Settles? then UpdatedRows(rows, v.facts.checkout, v.facts.ToSettlement(), now) else rows
  }

  function RowsAfter(rows: Rows, payload: Dict, now: Time): Rows {
    RowsFor(rows, Judge(rows, payload), now)
  }

  datatype ResultStatus =
    | InvalidCallback | UnknownTransaction | InvalidTransition | AmountMismatch | PhoneMismatch
    | CallbackCompleted | CallbackFailed

  datatype Processing = Processing(
    status: ResultStatus, success: bool, checkoutRequestId: Option<string>,
    resultCode: Option<int>, resultDescription: Option<string>, mpesaReceiptNumber: Option<string>,
    phoneNumber: Option<string>, amount: Option<int>, transactionId: Option<string>)

  function ResultOf(v: Verdict): Processing {
    match v
    case Malformed(checkout) =>
      Processing(InvalidCallback, false, checkout, None, None, None, None, None, None)
    case NoTransaction(checkout) =>
      Processing(UnknownTransaction, false, Some(checkout), None, None, None, None, None, None)
    case BadTransition(f) =>
      Processing(InvalidTransition, false, Some(f.checkout), Some(f.code), Some(f.description),
                 f.Receipt(), f.Phone(), f.Amount(), None)
    case WrongAmount(f, row) =>
      Processing(AmountMismatch, false, Some(f.checkout), Some(f.code), Some(f.description),
                 None, None, f.Amount(), Some(row.transactionId))
    case WrongPhone(f, row) =>
      Processing(PhoneMismatch, false, Some(f.checkout), Some(f.code), Some(f.description),
                 None, f.Phone(), None, Some(row.transactionId))
    case Settles(f, row) =>
      Processing(if f.code == 0 then CallbackCompleted else CallbackFailed, f.code == 0,
                 Some(f.checkout), Some(f.code), Some(f.description),
                 f.Receipt(), f.Phone(), f.Amount(), Some(row.transactionId))
  }

  function EventOf(v: Verdict): AuditEvent {
    match v
    case Malformed(checkout) => CallbackInvalidPayload(checkout)
    case NoTransaction(checkout) => CallbackUnknownTransaction(checkout)
    case BadTransition(f) => CallbackInvalidTransition(f.checkout)
    case WrongAmount(f, row) => CallbackAmountMismatch(f.checkout, row.transactionId, f.Amount().GetOr(0))
    case WrongPhone(f, row) => CallbackPhoneMismatch(f.checkout, row.transactionId, f.Phone().GetOr(""))
    case Settles(f, row) => CallbackProcessed(f.checkout, row.transactionId, f.code)
  }

  /** What the caller is answered, and what is logged. */
  function AnswerTo(rows: Rows, payload: Dict): Processing {
    ResultOf(Judge(rows, payload))
  }

  function LoggedFor(rows: Rows, payload: Dict): AuditEvent {
    EventOf(Judge(rows, payload))
  }

  class StkCallbackHandler {
    const repository: InMemoryTransactionRepository
    const auditLog: AuditLog
    const metrics: Metrics

    constructor (repository: InMemoryTransactionRepository, auditLog: AuditLog, metrics: Metrics)
      ensures this.repository == repository && this.auditLog == auditLog && this.metrics == metrics
    {
      this.repository, this.auditLog, this.metrics := repository, auditLog, metrics;
    }

    method Process(payload: Dict, now: Time) returns (result: Processing)
      modifies repository, auditLog, metrics
      ensures result == AnswerTo(old(repository.transactions), payload)
      ensures auditLog.events == old(auditLog.events) + [LoggedFor(old(repository.transactions), payload)]
      ensures repository.transactions == RowsAfter(old(repository.transactions), payload, now)
      ensures metrics.counts == Counted(old(metrics.counts), CallbackReceived)
    {
      metrics.Increment(CallbackReceived);
      var callback := ExtractCallback(payload);
      if callback.None? {
        result := InvalidPayload(None);
        return;
      }
      result := ProcessCallback(callback.value, now);
    }

    method ProcessCallback(callback: Dict, now: Time) returns (result: Processing)
      modifies repository, auditLog
      ensures var v := JudgeCallback(old(repository.transactions), callback);
        && result == ResultOf(v)
        && auditLog.events == old(auditLog.events) + [EventOf(v)]
        && repository.transactions == RowsFor(old(repository.transactions), v, now)
    {
      var checkout := GetString(callback, "CheckoutRequestID");
      var code := GetInt(callback, "ResultCode");
      var description := GetString(callback, "ResultDesc");
      if checkout.None? || code.None? || description.None? {
        result := InvalidPayload(checkout);
        return;
      }
      result := ProcessKnown(callback, checkout.value, code.value, description.value, now);
    }

    /** The part of `process` that looks at the transaction. */
    method ProcessKnown(callback: Dict, checkout: string, code: int, description: string, now: Time)
      returns (result: Processing)
      modifies repository, auditLog
      ensures var f := Facts(checkout, code, description, Metadata(callback));
        var v := JudgeFacts(old(repository.transactions), f);
        && result == ResultOf(v)
        && auditLog.events == old(auditLog.events) + [EventOf(v)]
        && repository.transactions == RowsFor(old(repository.transactions), v, now)
    {
      var found := repository.FindByCheckoutRequestId(checkout);
      if found.None? {
        auditLog.LogEvent(CallbackUnknownTransaction(checkout));
        return Processing(UnknownTransaction, false, Some(checkout), None, None, None, None, None, None);
      }
      var row := found.value;
      var metadata := ExtractMetadata(callback);
      if code == 0 && !HasSuccessMetadata(metadata) {
        result := InvalidPayload(Some(checkout));
        return;
      }
      var status := if code == 0 then Completed else Failed;
      var receipt := GetString(metadata, "MpesaReceiptNumber");
      var amount := GetInt(metadata, "Amount");
      var phone := GetString(metadata, "PhoneNumber");
      if !CanTransition(row.status, status) {
        auditLog.LogEvent(CallbackInvalidTransition(checkout));
        return Processing(InvalidTransition, false, Some(checkout), Some(code), Some(description), receipt, phone, amount,
                          None);
      }
      if amount.Some? && amount.value != row.fields.amount {
        auditLog.LogEvent(CallbackAmountMismatch(checkout, row.transactionId, amount.value));
        return Processing(AmountMismatch, false, Some(checkout), Some(code), Some(description),
                          None, None, amount, Some(row.transactionId));
      }
      if phone.Some? && DigitsOnly(phone.value) != DigitsOnly(row.fields.phoneNumber) {
        auditLog.LogEvent(CallbackPhoneMismatch(checkout, row.transactionId, phone.value));
        return Processing(PhoneMismatch, false, Some(checkout), Some(code), Some(description),
                          None, phone, None, Some(row.transactionId));
      }
      var outcome := repository.UpdateTransactionStatus(
        checkout, Settlement(status, code, description, receipt), now);
      // The handler's own check leaves the repository nothing to refuse.
      assert outcome.Updated?;
      auditLog.LogEvent(CallbackProcessed(checkout, outcome.row.transactionId, code));
      result := Processing(if code == 0 then CallbackCompleted else CallbackFailed, code == 0,
                           Some(checkout), Some(code), Some(description), receipt, phone, amount,
                           Some(outcome.row.transactionId));
    }

    method InvalidPayload(checkout: Option<string>) returns (result: Processing)
      modifies auditLog
      ensures result == ResultOf(Malformed(checkout))
      ensures auditLog.events == old(auditLog.events) + [EventOf(Malformed(checkout))]
    {
      auditLog.LogEvent(CallbackInvalidPayload(checkout));
      result := Processing(InvalidCallback, false, checkout, None, None, None, None, None, None);
    }
  }

  // ---------------------------------------------------------------- what a callback can change

  /** The amount and the phone digits a callback carries, if any, equal the stored ones; a
      success carries both and a receipt number. */
  predicate Agrees(f: Facts, row: Transaction) {
    && (f.Amount().Some? ==> f.Amount().value == row.fields.amount)
    && (f.Phone().Some? ==> DigitsOnly(f.Phone().value) == DigitsOnly(row.fields.phoneNumber))
    && (f.code == 0 ==> f.Amount().Some? && f.Phone().Some? && f.Receipt().Some?)
  }

  lemma FactsSettle(rows: Rows, f: Facts)
    requires JudgeFacts(rows, f).Settles?
    ensures var i := IndexOfCheckout(rows, f.checkout);
      && i < |rows| && JudgeFacts(rows, f) == Settles(f, rows[i])
      && rows[i].status == Pending && CanTransition(Pending, f.Target()) && Agrees(f, rows[i])
  {
    var i := IndexOfCheckout(rows, f.checkout);
    OnlyPendingMoves(rows[i].status, f.Target(), Pending);
  }

  lemma SettlingIsByFacts(rows: Rows, payload: Dict)
    requires Judge(rows, payload).Settles?
    ensures Judge(rows, payload) == JudgeFacts(rows, Judge(rows, payload).facts)
  {
    var f := ReadFacts(ExtractCallback(payload).value).value;
    FactsSettle(rows, f);
  }

  /** A callback changes at most the first row with its checkout id, only if that row is
      pending and agrees with it, and only to the status its result code stands for. */
  lemma SettlesOnlyMatchingPending(rows: Rows, payload: Dict, now: Time)
    requires DistinctIds(rows)
    ensures var v := Judge(rows, payload);
      if v.Settles? then
        var i := IndexOfCheckout(rows, v.facts.checkout);
        && i < |rows| && v.row == rows[i] && rows[i].status == Pending && Agrees(v.facts, rows[i])
        && RowsAfter(rows, payload, now) == rows[i := Settled(rows[i], v.facts.ToSettlement(), now)]
      else RowsAfter(rows, payload, now) == rows
  {
    var v := Judge(rows, payload);
    if v.Settles? {
      SettlingIsByFacts(rows, payload);
      FactsSettle(rows, v.facts);
      UpdateInPlace(rows, v.facts.checkout, v.facts.ToSettlement(), now);
    }
  }

  /** Once the first row with a checkout id is terminal, no callback for that id changes anything. */
  lemma TerminalIgnoresCallbacks(rows: Rows, payload: Dict, now: Time, checkout: string)
    requires IndexOfCheckout(rows, checkout) < |rows|
    requires rows[IndexOfCheckout(rows, checkout)].status in TERMINAL_STATUSES
    requires var c := ExtractCallback(payload);
      c.Some? ==> var id := GetString(c.value, "CheckoutRequestID"); id.None? || id == Some(checkout)
    ensures RowsAfter(rows, payload, now) == rows
  {
    var c := ExtractCallback(payload);
    if c.Some? && ReadFacts(c.value).Some? {
      var f := ReadFacts(c.value).value;
      OnlyPendingMoves(rows[IndexOfCheckout(rows, checkout)].status, f.Target(), Pending);
    }
  }
}
