/** The payment service (app/services/payment_service.py): push now, ask for approval or block;
    run approved requests; pay at most once per idempotency key. */
module Payments {
  import opened Common
  import opened TransactionStates
  import opened TransactionRepository
  import opened Audit
  import opened Policy
  import opened IdempotencyKey
  import Approvals

  // ---------------------------------------------------------------- the provider

  datatype Initiation = Initiation(
    provider: string, rail: string, checkoutRequestId: string, merchantRequestId: string,
    providerTransactionId: Option<string>, providerReference: Option<string>,
    responseCode: string, responseDescription: string)

  /** What the provider does with a call: it answers, or it raises. */
  datatype Answer = Accepted(initiation: Initiation) | Raised

  datatype ProviderCall = ProviderCall(
    phoneNumber: string, amount: int, accountReference: string, description: string, answer: Answer)

  class PaymentProvider {
    var calls: seq<ProviderCall>

    constructor ()
      ensures calls == []
    {
      calls := [];
    }

    method InitiatePayment(phoneNumber: string, amount: int, accountReference: string, description: string,
                           answer: Answer) returns (r: Answer)
      modifies this
      ensures calls == old(calls) + [ProviderCall(phoneNumber, amount, accountReference, description, answer)]
      ensures r == answer
    {
      calls := calls + [ProviderCall(phoneNumber, amount, accountReference, description, answer)];
      return answer;
    }
  }

  // ---------------------------------------------------------------- the shared state

  /** What the services share: approvals, transactions, audit log, counters, provider calls. */
  datatype Books = Books(
    approvals: Approvals.Store, rows: Rows, events: seq<AuditEvent>, counts: Counts, calls: seq<ProviderCall>)

  /** An executable payment. */
  datatype Request = Request(
    phoneNumber: string, amount: int, accountReference: string, description: string, idempotencyKey: string)

  datatype PaymentStatus = PaymentBlocked | NeedsApproval | InitiationFailed | Recorded(status: Status)

  datatype PaymentResponse = PaymentResponse(
    status: PaymentStatus, allowed: bool, requiresApproval: bool, approvalId: Option<string>,
    transactionId: Option<string>, checkoutRequestId: Option<string>, merchantRequestId: Option<string>,
    idempotencyKey: Option<string>, responseCode: Option<string>)

  const BLOCKED: PaymentResponse :=
    PaymentResponse(PaymentBlocked, false, false, None, None, None, None, None, None)

  const FAILED: PaymentResponse :=
    PaymentResponse(InitiationFailed, false, false, None, None, None, None, None, None)

  function FieldsOf(q: Request, i: Initiation): Fields {
    Fields(q.phoneNumber, q.amount, q.accountReference, q.description, i.checkoutRequestId, i.merchantRequestId,
           Some(q.idempotencyKey), i.provider, i.rail, i.providerTransactionId, i.providerReference)
  }

  function CallOf(q: Request, answer: Answer): ProviderCall {
    ProviderCall(q.phoneNumber, q.amount, q.accountReference, q.description, answer)
  }

  function InitiatedEvent(row: Transaction): AuditEvent {
    StkPushInitiated(row.transactionId, row.fields.amount, row.fields.phoneNumber, row.fields.idempotencyKey,
                     row.fields.checkoutRequestId, row.fields.merchantRequestId)
  }

  function ExistingResponse(row: Transaction): PaymentResponse {
    PaymentResponse(Recorded(row.status), true, false, None, Some(row.transactionId),
                    Some(row.fields.checkoutRequestId), Some(row.fields.merchantRequestId),
                    row.fields.idempotencyKey, None)
  }

  function NewResponse(row: Transaction, i: Initiation): PaymentResponse {
    PaymentResponse(Recorded(TransactionStates.Pending), true, false, None, Some(row.transactionId),
                    Some(i.checkoutRequestId), Some(i.merchantRequestId), row.fields.idempotencyKey,
                    Some(i.responseCode))
  }

  /** Whether an execution with this key reaches the provider. */
  predicate Unused(rows: Rows, key: string) {
    IndexOfKey(rows, key) == |rows|
  }

  /** The state after an execution: nothing for a used key, otherwise one provider call and,
      if the provider accepts, one stored transaction, one audit event and one count. */
  function Executed(b: Books, q: Request, answer: Answer, newId: string, now: Time): Books {
    if !Unused(b.rows, q.idempotencyKey) then b
    else match answer
      case Raised => b.(calls := b.calls + [CallOf(q, answer)], counts := Counted(b.counts, FailedPayment))
      case Accepted(i) =>
        var row := NewTransaction(newId, FieldsOf(q, i), now);
        b.(rows := Put(b.rows, row), calls := b.calls + [CallOf(q, answer)],
           events := b.events + [InitiatedEvent(row)], counts := Counted(b.counts, SuccessfulPayment))
  }

  function ExecutedResponse(b: Books, q: Request, answer: Answer, newId: string, now: Time): PaymentResponse {
    if !Unused(b.rows, q.idempotencyKey) then ExistingResponse(b.rows[IndexOfKey(b.rows, q.idempotencyKey)])
    else match answer
      case Raised => FAILED
      case Accepted(i) => NewResponse(NewTransaction(newId, FieldsOf(q, i), now), i)
  }

  function PayloadOf(q: Request): Approvals.Payload {
    Approvals.Payload(Approvals.TextEntry(q.phoneNumber), Approvals.IntEntry(q.amount),
                      Approvals.TextEntry(q.accountReference), Approvals.TextEntry(q.description),
                      Approvals.TextEntry(q.idempotencyKey))
  }

  predicate Executable(p: Approvals.Payload) {
    && p.phoneNumber.TextEntry? && p.amount.IntEntry? && p.accountReference.TextEntry?
    && p.description.TextEntry? && p.idempotencyKey.TextEntry?
  }

  function RequestOf(p: Approvals.Payload): Request
    requires Executable(p)
  {
    Request(p.phoneNumber.s, p.amount.n, p.accountReference.s, p.description.s, p.idempotencyKey.s)
  }

  /** The arguments of `initiate_stk_push`. */
  datatype Push = Push(
    phoneNumber: Option<string>, amount: Option<int>, accountReference: string, description: string,
    idempotencyKey: Option<string>)

  datatype Settings = Settings(maxStkAmount: int, approvals: Approvals.Config, hash: string -> string)

  /** The given key if there is a non-empty one, otherwise the derived one. */
  function ResolvedKey(s: Settings, p: Push): string
    requires p.phoneNumber.Some? && p.amount.Some?
  {
    if p.idempotencyKey.Some? && p.idempotencyKey.value != "" then p.idempotencyKey.value
    else s.hash(RawKey(p.phoneNumber.value, p.amount.value, p.accountReference, p.description))
  }

  function Resolved(s: Settings, p: Push): Request
    requires p.phoneNumber.Some? && p.amount.Some?
  {
    Request(p.phoneNumber.value, p.amount.value, p.accountReference, p.description, ResolvedKey(s, p))
  }

  function Judged(s: Settings, p: Push): Decision {
    Evaluate(s.maxStkAmount, Action.InitiateStkPush, p.amount, p.phoneNumber)
  }

  function RequestedApproval(s: Settings, p: Push, newId: string, clock: Clock): Approvals.Approval
    requires p.phoneNumber.Some? && p.amount.Some?
  {
    Approvals.NewApproval(s.approvals, newId, "initiate_stk_push", PayloadOf(Resolved(s, p)),
                          "Amount exceeds the configured STK push limit.", clock)
  }

  /** A push that is executed reads the clock once, when the transaction is stored. */
  function AfterPush(s: Settings, b: Books, p: Push, answer: Answer, newId: string, newApprovalId: string, clock: Clock)
    : Books
  {
    match Judged(s, p)
    case Blocked => b
    case Allowed => Executed(b, Resolved(s, p), answer, newId, clock(0))
    case ApprovalRequired =>
      var a := RequestedApproval(s, p, newApprovalId, clock);
      b.(approvals := Approvals.Put(b.approvals, a),
         events := b.events + [ApprovalCreated(newApprovalId, a.requiredReviewers)],
         counts := Counted(b.counts, Counter.ApprovalRequired))
  }

  function PushResponse(
    s: Settings, b: Books, p: Push, answer: Answer, newId: string, newApprovalId: string, clock: Clock)
    : PaymentResponse
  {
    match Judged(s, p)
    case Blocked => BLOCKED
    case Allowed => ExecutedResponse(b, Resolved(s, p), answer, newId, clock(0))
    case ApprovalRequired =>
      PaymentResponse(NeedsApproval, false, true, Some(newApprovalId), None, None, None,
                      Some(ResolvedKey(s, p)), None)
  }

  datatype ExecutionResponse = ExecutionResponse(
    outcome: Approvals.Outcome, allowed: bool, approval: Option<Approvals.Approval>, payment: Option<PaymentResponse>)

  /** The readings of the clock in an approved execution: for the expiry check at its start;
      for the sweep or the review that follows; and when the transaction is stored, after the
      provider has answered. */
  datatype Readings = Readings(checkedAt: Time, review: Clock, storedAt: Time)

  /** Whether `execute_approved_payment` gets as far as executing: the approval exists, is
      pending, has time left at both checks, and this review completes it. */
  predicate Completes(b: Books, id: string, operator: string, at: Readings) {
    && id in b.approvals.entries
    && !Approvals.IsExpired(b.approvals.entries[id], at.checkedAt)
    && b.approvals.entries[id].status == Approvals.Pending
    && Approvals.ApproveStep(b.approvals, id, operator, at.review).response.outcome == Approvals.WasApproved
  }

  function AfterExecution(b: Books, id: string, operator: string, at: Readings, answer: Answer, newId: string): Books {
    if id !in b.approvals.entries then b
    else if Approvals.IsExpired(b.approvals.entries[id], at.checkedAt) then
      b.(approvals := Approvals.ExpireStale(b.approvals, at.review),
         events := b.events + Approvals.ExpiryEvents(Approvals.Snapshot(b.approvals), at.review))
    else if b.approvals.entries[id].status != Approvals.Pending then b
    else
      var step := Approvals.ApproveStep(b.approvals, id, operator, at.review);
      var c := b.(approvals := step.store, events := b.events + step.events);
      var payload := b.approvals.entries[id].payload;
      if step.response.outcome == Approvals.WasApproved && Executable(payload)
      then Executed(c, RequestOf(payload), answer, newId, at.storedAt) else c
  }

  function AnswerToExecution(b: Books, id: string, operator: string, at: Readings, answer: Answer, newId: string)
    : ExecutionResponse
  {
    if id !in b.approvals.entries then ExecutionResponse(Approvals.NotFound, false, None, None)
    else
      var a := b.approvals.entries[id];
      if Approvals.IsExpired(a, at.checkedAt) then
        ExecutionResponse(Approvals.WasExpired, false,
          Some(Approvals.Get(Approvals.ExpireStale(b.approvals, at.review), id).GetOr(a)), None)
      else if a.status != Approvals.Pending then ExecutionResponse(Approvals.NotPending, false, Some(a), None)
      else
        var r := Approvals.ApproveStep(b.approvals, id, operator, at.review).response;
        if r.outcome != Approvals.WasApproved then ExecutionResponse(r.outcome, false, r.approval, None)
        else
          var paid := if Executable(a.payload) then ExecutedResponse(b, RequestOf(a.payload), answer, newId, at.storedAt)
                      else BLOCKED;
          ExecutionResponse(r.outcome, paid.allowed, r.approval, Some(paid))
  }

  class PaymentService {
    const settings: Settings
    const provider: PaymentProvider
    const repository: InMemoryTransactionRepository
    const auditLog: AuditLog
    const approvals: Approvals.ApprovalService
    const metrics: Metrics

    /** The approval service writes to the same audit log and uses the same settings. */
    ghost predicate Valid()
      reads approvals.repository
    {
      && approvals.auditLog == auditLog && approvals.config == settings.approvals
      && Approvals.WellFormed(approvals.repository.approvals)
    }

    ghost function State(): Books
      reads provider, repository, auditLog, approvals.repository, metrics
    {
      Books(approvals.repository.approvals, repository.transactions, auditLog.events, metrics.counts, provider.calls)
    }

    constructor (settings: Settings, provider: PaymentProvider, repository: InMemoryTransactionRepository,
                 auditLog: AuditLog, approvals: Approvals.ApprovalService, metrics: Metrics)
      requires approvals.auditLog == auditLog && approvals.config == settings.approvals
      requires Approvals.WellFormed(approvals.repository.approvals)
      ensures Valid()
      ensures this.settings == settings && this.provider == provider && this.repository == repository
      ensures this.auditLog == auditLog && this.approvals == approvals && this.metrics == metrics
    {
      this.settings, this.provider, this.repository := settings, provider, repository;
      this.auditLog, this.approvals, this.metrics := auditLog, approvals, metrics;
    }

    method InitiateStkPush(p: Push, answer: Answer, newId: string, newApprovalId: string, clock: Clock)
      returns (r: PaymentResponse)
      requires Valid()
      modifies provider, repository, auditLog, approvals.repository, metrics
      ensures State() == AfterPush(settings, old(State()), p, answer, newId, newApprovalId, clock)
      ensures r == PushResponse(settings, old(State()), p, answer, newId, newApprovalId, clock)
    {
      var decision := Evaluate(settings.maxStkAmount, Action.InitiateStkPush, p.amount, p.phoneNumber);
      if decision == Decision.ApprovalRequired {
        var key := ResolvedKey(settings, p);
        var payload := Approvals.Payload(
          Approvals.TextEntry(p.phoneNumber.value), Approvals.IntEntry(p.amount.value),
          Approvals.TextEntry(p.accountReference), Approvals.TextEntry(p.description), Approvals.TextEntry(key));
        var a := approvals.CreateApprovalRequest(newApprovalId, "initiate_stk_push", payload,
          "Amount exceeds the configured STK push limit.", clock);
        metrics.Increment(Counter.ApprovalRequired);
        return PaymentResponse(NeedsApproval, false, true, Some(a.approvalId), None, None, None, Some(key), None);
      }
      if decision != Allowed {
        return BLOCKED;
      }
      r := ExecuteStkPush(Resolved(settings, p), answer, newId, clock(0));
    }

    method ExecuteApprovedPayment(id: string, operator: string, at: Readings, answer: Answer, newId: string)
      returns (r: ExecutionResponse)
      requires Valid()
      modifies provider, repository, auditLog, approvals.repository, metrics
      ensures State() == AfterExecution(old(State()), id, operator, at, answer, newId)
      ensures r == AnswerToExecution(old(State()), id, operator, at, answer, newId)
    {
      var found := approvals.repository.Find(id);
      if found.None? {
        return ExecutionResponse(Approvals.NotFound, false, None, None);
      }
      var a := found.value;
      if Approvals.IsExpired(a, at.checkedAt) {
        var expiredCount := approvals.ExpireStaleApprovals(at.review);
        var expired := approvals.repository.Find(id);
        return ExecutionResponse(Approvals.WasExpired, false, Some(expired.GetOr(a)), None);
      }
      if a.status != Approvals.Pending {
        return ExecutionResponse(Approvals.NotPending, false, Some(a), None);
      }
      var response := approvals.ApproveRequest(id, operator, at.review);
      if response.outcome != Approvals.WasApproved {
        return ExecutionResponse(response.outcome, false, response.approval, None);
      }
      var payment := ExecuteApprovedStkPush(response.approval.value.payload, answer, newId, at.storedAt);
      return ExecutionResponse(response.outcome, payment.allowed, response.approval, Some(payment));
    }

    method ExecuteApprovedStkPush(payload: Approvals.Payload, answer: Answer, newId: string, now: Time)
      returns (r: PaymentResponse)
      modifies provider, repository, auditLog, metrics
      ensures if Executable(payload)
        then State() == Executed(old(State()), RequestOf(payload), answer, newId, now)
          && r == ExecutedResponse(old(State()), RequestOf(payload), answer, newId, now)
        else State() == old(State()) && r == BLOCKED
    {
      if !Executable(payload) {
        return BLOCKED;
      }
      r := ExecuteStkPush(RequestOf(payload), answer, newId, now);
    }

    method ExecuteStkPush(q: Request, answer: Answer, newId: string, now: Time) returns (r: PaymentResponse)
      modifies provider, repository, auditLog, metrics
      ensures State() == Executed(old(State()), q, answer, newId, now)
      ensures r == ExecutedResponse(old(State()), q, answer, newId, now)
    {
      var existing := repository.FindByIdempotencyKey(q.idempotencyKey);
      if existing.Some? {
        return ExistingResponse(existing.value);
      }
      var reply := provider.InitiatePayment(q.phoneNumber, q.amount, q.accountReference, q.description, answer);
      if reply == Raised {
        metrics.Increment(FailedPayment);
        return FAILED;
      }
      var row := repository.SavePendingTransaction(FieldsOf(q, reply.initiation), newId, now);
      auditLog.LogEvent(InitiatedEvent(row));
      metrics.Increment(SuccessfulPayment);
      r := NewResponse(row, reply.initiation);
    }
  }
}
