/** What a payment call does and answers, told on stored rows, provider calls and answers:
    when money is asked for, what is then stored, and what the caller learns. */
module PaymentEffects {
  import opened Common
  import opened TransactionStates
  import opened TransactionRepository
  import opened Audit
  import opened Decimal
  import opened Payments
  import opened Lifecycle
  import opened LifecycleTheorems
  import Approvals

  // ---------------------------------------------------------------- one execution

  ghost predicate KeyTaken(rows: Rows, key: string) {
    exists i :: 0 <= i < |rows| && rows[i].fields.idempotencyKey == Some(key)
  }

  lemma UnusedExactly(rows: Rows, key: string)
    ensures Unused(rows, key) <==> !KeyTaken(rows, key)
  {
    if !Unused(rows, key) {
      assert rows[IndexOfKey(rows, key)].fields.idempotencyKey == Some(key);
    }
  }

  /** The pending transaction of a request, with the ids that the provider gave. */
  predicate StoredFor(row: Transaction, q: Request, i: Initiation, id: string, at: Time) {
    && row.transactionId == id && row.createdAt == at && row.updatedAt == at
    && row.status == Pending && row.resultCode == None && row.resultDescription == None
    && row.mpesaReceiptNumber == None
    && row.fields.phoneNumber == q.phoneNumber && row.fields.amount == q.amount
    && row.fields.accountReference == q.accountReference && row.fields.description == q.description
    && row.fields.idempotencyKey == Some(q.idempotencyKey)
    && row.fields.checkoutRequestId == i.checkoutRequestId && row.fields.merchantRequestId == i.merchantRequestId
    && row.fields.provider == i.provider && row.fields.rail == i.rail
    && row.fields.providerTransactionId == i.providerTransactionId
    && row.fields.providerReference == i.providerReference
  }

  /** An allowed answer that names a stored transaction. */
  predicate Names(r: PaymentResponse, row: Transaction) {
    && r.allowed && !r.requiresApproval && r.approvalId == None
    && r.status == PaymentStatus.Recorded(row.status) && r.transactionId == Some(row.transactionId)
    && r.checkoutRequestId == Some(row.fields.checkoutRequestId)
    && r.merchantRequestId == Some(row.fields.merchantRequestId)
    && r.idempotencyKey == row.fields.idempotencyKey
  }

  /** A refusal, with no ids at all. */
  predicate Refuses(r: PaymentResponse, status: PaymentStatus) {
    && r.status == status && !r.allowed && !r.requiresApproval && r.approvalId == None
    && r.transactionId == None && r.checkoutRequestId == None && r.merchantRequestId == None
    && r.idempotencyKey == None && r.responseCode == None
  }

  /** The provider was asked once for exactly this request. */
  predicate AskedOnce(b: Books, c: Books, q: Request, answer: Answer) {
    c.calls == b.calls + [ProviderCall(q.phoneNumber, q.amount, q.accountReference, q.description, answer)]
  }

  /** The provider accepted: one more call, one more row at the end, one event, one count; and
      the answer names that row, with the ids and the response code that the provider gave. */
  ghost predicate Paid(b: Books, c: Books, r: PaymentResponse, q: Request, i: Initiation, id: string, at: Time) {
    && AskedOnce(b, c, q, Accepted(i))
    && |c.rows| == |b.rows| + 1 && c.rows[..|b.rows|] == b.rows
    && StoredFor(c.rows[|b.rows|], q, i, id, at)
    && c.events == b.events + [StkPushInitiated(id, q.amount, q.phoneNumber, Some(q.idempotencyKey),
                                                i.checkoutRequestId, i.merchantRequestId)]
    && c.counts == b.counts.(successfulPayments := b.counts.successfulPayments + 1)
    && c.approvals == b.approvals
    && Names(r, c.rows[|b.rows|]) && r.responseCode == Some(i.responseCode)
  }

  /** The provider raised: one more call and one failed payment, and nothing else. */
  ghost predicate Failing(b: Books, c: Books, r: PaymentResponse, q: Request) {
    && AskedOnce(b, c, q, Raised)
    && c == b.(calls := c.calls, counts := b.counts.(failedPayments := b.counts.failedPayments + 1))
    && Refuses(r, InitiationFailed)
  }

  /** The key was taken: nothing changed, and the first row under the key is answered. */
  ghost predicate Repeated(b: Books, c: Books, r: PaymentResponse, key: string) {
    && c == b && r.responseCode == None
    && exists i :: 0 <= i < |b.rows| && b.rows[i].fields.idempotencyKey == Some(key) && Names(r, b.rows[i])
                   && forall j :: 0 <= j < i ==> b.rows[j].fields.idempotencyKey != Some(key)
  }

  /** What becomes of a request: repeated, paid or failing, by the key and the provider alone. */
  ghost predicate Carried(b: Books, c: Books, r: PaymentResponse, q: Request, answer: Answer, id: string, at: Time) {
    if KeyTaken(b.rows, q.idempotencyKey) then Repeated(b, c, r, q.idempotencyKey)
    else match answer
      case Raised => Failing(b, c, r, q)
      case Accepted(i) => Paid(b, c, r, q, i, id, at)
  }

  lemma ExecutionCarries(b: Books, q: Request, answer: Answer, newId: string, now: Time)
    requires NewId(b.rows, newId)
    ensures Carried(b, Executed(b, q, answer, newId, now), ExecutedResponse(b, q, answer, newId, now),
                    q, answer, newId, now)
  {
    UnusedExactly(b.rows, q.idempotencyKey);
    assert IndexOfId(b.rows, newId) == |b.rows|;
    if !Unused(b.rows, q.idempotencyKey) {
      var i := IndexOfKey(b.rows, q.idempotencyKey);
      assert Names(ExecutedResponse(b, q, answer, newId, now), b.rows[i]);
    }
  }

  /** Two answers about one transaction. */
  predicate SameTransaction(r: PaymentResponse, t: PaymentResponse) {
    && r.allowed && t.allowed && r.transactionId.Some?
    && r.transactionId == t.transactionId && r.checkoutRequestId == t.checkoutRequestId
    && r.merchantRequestId == t.merchantRequestId && r.idempotencyKey == t.idempotencyKey
  }

  /** Once the provider has accepted, every later execution of the key changes nothing and its
      answer is about the same transaction as the first one. */
  lemma LaterAnswersAgree(b: Books, q: Request, i: Initiation, newId: string, now: Time,
                          later: Books, again: Request, answer: Answer, otherId: string, at: Time)
    requires NewId(b.rows, newId) && !KeyTaken(b.rows, q.idempotencyKey)
    requires RowsOk(later.rows) && RowsExtend(Executed(b, q, Accepted(i), newId, now).rows, later.rows)
    requires again.idempotencyKey == q.idempotencyKey && NewId(later.rows, otherId)
    ensures Executed(later, again, answer, otherId, at) == later
    ensures SameTransaction(ExecutedResponse(b, q, Accepted(i), newId, now),
                            ExecutedResponse(later, again, answer, otherId, at))
  {
    var n := |b.rows|;
    ExecutionCarries(b, q, Accepted(i), newId, now);
    ExecutionCarries(later, again, answer, otherId, at);
    var c := Executed(b, q, Accepted(i), newId, now);
    assert RowMoves(c.rows[n], later.rows[n]);
    assert KeyTaken(later.rows, q.idempotencyKey);
    var k :| 0 <= k < |later.rows| && later.rows[k].fields.idempotencyKey == Some(q.idempotencyKey)
             && Names(ExecutedResponse(later, again, answer, otherId, at), later.rows[k]);
    assert k == n;
  }

  // ---------------------------------------------------------------- pushes

  /** The key of a push: the given one, or the hash of its four fields if that is missing or empty. */
  predicate KeyOfPush(s: Payments.Settings, p: Push, key: string)
    requires p.phoneNumber.Some? && p.amount.Some?
  {
    if p.idempotencyKey.None? || p.idempotencyKey == Some("") then
      key == s.hash(p.phoneNumber.value + "|" + DecimalText(p.amount.value) + "|" + p.accountReference + "|"
                    + p.description)
    else p.idempotencyKey == Some(key)
  }

  /** A push that asks for exactly this request. */
  predicate Requests(s: Payments.Settings, p: Push, q: Request) {
    && p.phoneNumber == Some(q.phoneNumber) && p.amount == Some(q.amount)
    && p.accountReference == q.accountReference && p.description == q.description
    && KeyOfPush(s, p, q.idempotencyKey)
  }

  /** A push within the limit is carried out: paid once, or answered with the row under its key. */
  lemma PushWithinLimitIsExecuted(s: Payments.Settings, b: Books, p: Push, q: Request, answer: Answer,
                                  newId: string, newApprovalId: string, clock: Clock)
    requires NewId(b.rows, newId) && Requests(s, p, q) && 0 < q.amount <= s.maxStkAmount
    ensures Carried(b, AfterPush(s, b, p, answer, newId, newApprovalId, clock),
                    PushResponse(s, b, p, answer, newId, newApprovalId, clock), q, answer, newId, clock(0))
  {
    assert Resolved(s, p) == q;
    ExecutionCarries(b, q, answer, newId, clock(0));
  }

  /** A pending approval of exactly this request: its reviewers by the amount, its expiry so many
      minutes after the first reading of the clock. */
  predicate Asks(c: Approvals.Config, a: Approvals.Approval, id: string, q: Request, clock: Clock) {
    && a.approvalId == id && a.action == "initiate_stk_push" && a.status == Approvals.Pending
    && a.payload.phoneNumber == Approvals.TextEntry(q.phoneNumber)
    && a.payload.amount == Approvals.IntEntry(q.amount)
    && a.payload.accountReference == Approvals.TextEntry(q.accountReference)
    && a.payload.description == Approvals.TextEntry(q.description)
    && a.payload.idempotencyKey == Approvals.TextEntry(q.idempotencyKey)
    && a.expiresAt == clock(0) + c.expiryMinutes * 60 * 1_000_000 && a.createdAt == clock(1)
    && a.requiredReviewers == (if q.amount < c.highRiskAmountThreshold then c.requiredReviewers
                               else c.highRiskRequiredReviewers)
    && a.reviewerIds == [] && a.reviewCount == 0 && a.reviewedAt == None && a.expiredAt == None
  }

  /** A push above the limit adds exactly one approval, at the end, and pays nothing. */
  lemma PushAboveLimitAsks(s: Payments.Settings, b: Books, p: Push, q: Request, answer: Answer,
                           newId: string, newApprovalId: string, clock: Clock)
    requires Requests(s, p, q) && q.amount > 0 && q.amount > s.maxStkAmount
    requires newApprovalId !in b.approvals.entries
    ensures var c := AfterPush(s, b, p, answer, newId, newApprovalId, clock);
      && c.rows == b.rows && c.calls == b.calls
      && c.approvals.order == b.approvals.order + [newApprovalId]
      && newApprovalId in c.approvals.entries
      && Asks(s.approvals, c.approvals.entries[newApprovalId], newApprovalId, q, clock)
      && c.approvals.entries == b.approvals.entries[newApprovalId := c.approvals.entries[newApprovalId]]
      && c.events == b.events + [ApprovalCreated(newApprovalId, c.approvals.entries[newApprovalId].requiredReviewers)]
      && c.counts == b.counts.(approvalsRequired := b.counts.approvalsRequired + 1)
    ensures var r := PushResponse(s, b, p, answer, newId, newApprovalId, clock);
      && r.status == NeedsApproval && !r.allowed && r.requiresApproval && r.approvalId == Some(newApprovalId)
      && r.idempotencyKey == Some(q.idempotencyKey)
      && r.transactionId == None && r.checkoutRequestId == None && r.merchantRequestId == None
      && r.responseCode == None
  {
    assert Resolved(s, p) == q;
  }

  /** Any other push changes nothing and is answered blocked. */
  lemma OtherPushesAreBlocked(s: Payments.Settings, b: Books, p: Push, answer: Answer,
                              newId: string, newApprovalId: string, clock: Clock)
    requires p.phoneNumber == None || p.amount == None || p.amount.value <= 0
    ensures AfterPush(s, b, p, answer, newId, newApprovalId, clock) == b
    ensures Refuses(PushResponse(s, b, p, answer, newId, newApprovalId, clock), PaymentBlocked)
  {}

  /** Every push with a phone and a positive amount is one of the other two kinds. */
  lemma PushesAskForSomething(s: Payments.Settings, p: Push) returns (q: Request)
    requires p.phoneNumber.Some? && p.amount.Some?
    ensures Requests(s, p, q)
  {
    q := Resolved(s, p);
  }

  lemma PushIsExecution(s: Configuration, w: World, e: Event, q: Request)
    requires e.PushEvent? && Requests(s.payments, e.push, q) && 0 < q.amount <= s.payments.maxStkAmount
    ensures Step(s, w, e).books == Executed(w.books, q, e.answer, e.newId, e.clock(0))
    ensures PushResponse(s.payments, w.books, e.push, e.answer, e.newId, e.newApprovalId, e.clock)
         == ExecutedResponse(w.books, q, e.answer, e.newId, e.clock(0))
  {
    assert Resolved(s.payments, e.push) == q;
  }

  /** In every run, two pushes with one key and within the limit, of which the provider accepted
      the first under an unused key, are answered with one transaction; the second one calls no
      provider and changes nothing. */
  lemma RepeatedPushesAgree(s: Configuration, es: seq<Event>, ws: seq<World>, m: nat, n: nat, q: Request, again: Request)
    requires IsRun(s, es, ws) && m < n < |es| && es[m].PushEvent? && es[n].PushEvent?
    requires Requests(s.payments, es[m].push, q) && Requests(s.payments, es[n].push, again)
    requires q.idempotencyKey == again.idempotencyKey
    requires 0 < q.amount <= s.payments.maxStkAmount && 0 < again.amount <= s.payments.maxStkAmount
    requires es[m].answer.Accepted? && !KeyTaken(ws[m].books.rows, q.idempotencyKey)
    ensures ws[n + 1].books == ws[n].books
    ensures SameTransaction(
      PushResponse(s.payments, ws[m].books, es[m].push, es[m].answer, es[m].newId, es[m].newApprovalId, es[m].clock),
      PushResponse(s.payments, ws[n].books, es[n].push, es[n].answer, es[n].newId, es[n].newApprovalId, es[n].clock))
  {
    RunKeepsInvariant(s, es, ws, n);
    RunExtends(s, es, ws, m + 1, n);
    PushIsExecution(s, ws[m], es[m], q);
    PushIsExecution(s, ws[n], es[n], again);
    LaterAnswersAgree(ws[m].books, q, es[m].answer.initiation, es[m].newId, es[m].clock(0),
                      ws[n].books, again, es[n].answer, es[n].newId, es[n].clock(0));
  }

  // ---------------------------------------------------------------- approved executions

  /** The approval is pending, has time left at both checks, and this operator's review is new
      and the last one that is needed. */
  predicate Ready(store: Approvals.Store, id: string, operator: string, at: Readings) {
    && id in store.entries
    && var a := store.entries[id];
       && a.status == Approvals.Pending
       && at.checkedAt < a.expiresAt && at.review(0) < a.expiresAt
       && operator !in a.reviewerIds && |a.reviewerIds| + 1 >= Max(1, a.requiredReviewers)
  }

  /** A payload that holds exactly this request. */
  predicate Holds(p: Approvals.Payload, q: Request) {
    && p.phoneNumber == Approvals.TextEntry(q.phoneNumber) && p.amount == Approvals.IntEntry(q.amount)
    && p.accountReference == Approvals.TextEntry(q.accountReference)
    && p.description == Approvals.TextEntry(q.description)
    && p.idempotencyKey == Approvals.TextEntry(q.idempotencyKey)
  }

  /** The books after the completing review, before the payment: this approval is approved with
      this operator as its last reviewer, one event is logged, and nothing else has changed. */
  ghost predicate ApprovedBy(b: Books, u: Books, id: string, operator: string, stampedAt: Time)
    requires id in b.approvals.entries
  {
    && var a := b.approvals.entries[id];
       var reviewers := a.reviewerIds + [operator];
       && u.approvals.order == b.approvals.order
       && u.approvals.entries == b.approvals.entries[id := a.(
            status := Approvals.Approved, reviewerIds := reviewers, reviewCount := |reviewers|,
            reviewedAt := Some(stampedAt))]
       && u.events == b.events + [ApprovalApproved(id, |reviewers|)]
       && u.rows == b.rows && u.calls == b.calls && u.counts == b.counts
  }

  /** A payload can be executed exactly when it holds some request. */
  lemma ExecutableExactly(p: Approvals.Payload)
    ensures Executable(p) <==> exists q :: Holds(p, q)
    ensures Executable(p) ==> Holds(p, RequestOf(p))
  {
    if Executable(p) {
      assert Holds(p, RequestOf(p));
    }
  }

  /** The completing review of an executable approval leads to the payment of exactly its
      payload: the provider is called once, the transaction stored, and the answer names it; or
      the key was taken before and its transaction is answered. */
  lemma ReadyPaymentIsMade(s: Configuration, w: World, e: Event, q: Request) returns (u: Books)
    requires Invariant(s, w) && Admissible(w, e) && e.ExecuteEvent?
    requires Ready(w.books.approvals, e.approvalId, e.operator, e.at)
    requires Holds(w.books.approvals.entries[e.approvalId].payload, q)
    ensures ApprovedBy(w.books, u, e.approvalId, e.operator, e.at.review(1))
    ensures var r := AnswerToExecution(w.books, e.approvalId, e.operator, e.at, e.answer, e.newId);
      && r.outcome == Approvals.WasApproved && r.payment.Some? && r.allowed == r.payment.value.allowed
      && r.approval == Some(u.approvals.entries[e.approvalId])
      && Carried(u, Step(s, w, e).books, r.payment.value, q, e.answer, e.newId, e.at.storedAt)
  {
    var id := e.approvalId;
    var step := Approvals.ApproveStep(w.books.approvals, id, e.operator, e.at.review);
    assert Approvals.Regular(s.payments.approvals, w.books.approvals.entries[id]);
    u := AfterReview(w.books, step);
    assert RequestOf(w.books.approvals.entries[id].payload) == q;
    ExecutionCarries(u, q, e.answer, e.newId, e.at.storedAt);
  }

  /** Such an execution goes on record, with the transaction it created, if any. */
  lemma ReadyPaymentIsRecorded(s: Configuration, w: World, e: Event)
    requires Invariant(s, w) && e.ExecuteEvent? && Ready(w.books.approvals, e.approvalId, e.operator, e.at)
    ensures Step(s, w, e).executions
         == w.executions + [Execution(e.approvalId, e.at.review(0),
                                      if |Step(s, w, e).books.rows| > |w.books.rows| then Some(e.newId) else None)]
  {
    ExecutesExactly(s, w, e);
  }

  /** With an unused key and an accepting provider that is one call with the payload's fields,
      one row with the new id, and one execution on record that created it. */
  lemma ApprovedPaymentIsPaid(s: Configuration, w: World, e: Event, q: Request)
    requires Invariant(s, w) && Admissible(w, e) && e.ExecuteEvent? && e.answer.Accepted?
    requires Ready(w.books.approvals, e.approvalId, e.operator, e.at)
    requires Holds(w.books.approvals.entries[e.approvalId].payload, q) && !KeyTaken(w.books.rows, q.idempotencyKey)
    ensures var v := Step(s, w, e);
      && v.books.calls == w.books.calls
           + [ProviderCall(q.phoneNumber, q.amount, q.accountReference, q.description, e.answer)]
      && |v.books.rows| == |w.books.rows| + 1 && v.books.rows[..|w.books.rows|] == w.books.rows
      && StoredFor(v.books.rows[|w.books.rows|], q, e.answer.initiation, e.newId, e.at.storedAt)
      && v.executions == w.executions + [Execution(e.approvalId, e.at.review(0), Some(e.newId))]
  {
    var u := ReadyPaymentIsMade(s, w, e, q);
    ReadyPaymentIsRecorded(s, w, e);
  }

  /** Exactly then: an execution reaches payment if and only if the approval is ready. */
  lemma ExecutesExactly(s: Configuration, w: World, e: Event)
    requires Invariant(s, w) && e.ExecuteEvent?
    ensures Executes(w, e) <==> Ready(w.books.approvals, e.approvalId, e.operator, e.at)
  {
    if e.approvalId in w.books.approvals.entries {
      assert Approvals.Regular(s.payments.approvals, w.books.approvals.entries[e.approvalId]);
    }
  }

  /** Otherwise nothing is asked for, stored, counted or recorded, and the answer is no allowance. */
  lemma UnreadyPaysNothing(s: Configuration, w: World, e: Event)
    requires Invariant(s, w) && e.ExecuteEvent?
    requires !Ready(w.books.approvals, e.approvalId, e.operator, e.at)
    ensures var v := Step(s, w, e);
      && v.books.rows == w.books.rows && v.books.calls == w.books.calls && v.books.counts == w.books.counts
      && v.executions == w.executions && v.applied == w.applied
    ensures var r := AnswerToExecution(w.books, e.approvalId, e.operator, e.at, e.answer, e.newId);
      !r.allowed && r.payment == None
  {
    ExecutesExactly(s, w, e);
    assert w.executions + [] == w.executions;
  }

  /** An execution that does not complete the approval is the sweep, if its first check finds the
      approval overdue, and otherwise exactly the review by that operator, with its answer. */
  lemma UnreadyExecutionIsReview(s: Configuration, w: World, e: Event)
    requires Invariant(s, w) && e.ExecuteEvent? && e.approvalId in w.books.approvals.entries
    requires !Ready(w.books.approvals, e.approvalId, e.operator, e.at)
    ensures var a := w.books.approvals.entries[e.approvalId];
      var r := AnswerToExecution(w.books, e.approvalId, e.operator, e.at, e.answer, e.newId);
      if a.status == Approvals.Pending && a.expiresAt <= e.at.checkedAt then
        && Step(s, w, e) == Step(s, w, ExpireEvent(e.at.review))
        && r.outcome == Approvals.WasExpired
        && (e.approvalId in Step(s, w, e).books.approvals.entries ==>
            r.approval == Some(Step(s, w, e).books.approvals.entries[e.approvalId]))
      else
        && Step(s, w, e) == Step(s, w, ApproveEvent(e.approvalId, e.operator, e.at.review))
        && var review := Approvals.ApproveStep(w.books.approvals, e.approvalId, e.operator, e.at.review).response;
           r.outcome == review.outcome && r.approval == review.approval
  {
    UnreadyPaysNothing(s, w, e);
    assert w.executions + [] == w.executions;
    assert w.books.events + [] == w.books.events;
  }

  lemma UnknownExecutionChangesNothing(s: Configuration, w: World, e: Event)
    requires e.ExecuteEvent? && e.approvalId !in w.books.approvals.entries
    ensures Step(s, w, e) == w
    ensures var r := AnswerToExecution(w.books, e.approvalId, e.operator, e.at, e.answer, e.newId);
      r.outcome == Approvals.NotFound && !r.allowed && r.approval == None && r.payment == None
  {
    assert w.executions + [] == w.executions;
  }

  // ---------------------------------------------------------------- allowed means stored

  ghost predicate NamesSome(r: PaymentResponse, rows: Rows) {
    exists i :: 0 <= i < |rows| && Names(r, rows[i])
  }

  lemma CarriedIsStored(b: Books, c: Books, r: PaymentResponse, q: Request, answer: Answer, id: string, at: Time)
    requires Carried(b, c, r, q, answer, id, at)
    ensures r.allowed <==> NamesSome(r, c.rows)
  {}

  /** An allowed answer to a push names a transaction that is stored afterwards. */
  lemma AllowedPushIsStored(s: Payments.Settings, b: Books, p: Push, answer: Answer,
                            newId: string, newApprovalId: string, clock: Clock)
    requires NewId(b.rows, newId)
    ensures var r := PushResponse(s, b, p, answer, newId, newApprovalId, clock);
      r.allowed <==> NamesSome(r, AfterPush(s, b, p, answer, newId, newApprovalId, clock).rows)
  {
    if p.phoneNumber.Some? && p.amount.Some? && 0 < p.amount.value <= s.maxStkAmount {
      var q := PushesAskForSomething(s, p);
      PushWithinLimitIsExecuted(s, b, p, q, answer, newId, newApprovalId, clock);
      CarriedIsStored(b, AfterPush(s, b, p, answer, newId, newApprovalId, clock),
                      PushResponse(s, b, p, answer, newId, newApprovalId, clock), q, answer, newId, clock(0));
    }
  }

  /** In every state, an approved execution answered as allowed names a transaction that is
      stored afterwards. */
  lemma AllowedExecutionIsStored(s: Configuration, w: World, e: Event)
    requires Invariant(s, w) && Admissible(w, e) && e.ExecuteEvent?
    ensures var r := AnswerToExecution(w.books, e.approvalId, e.operator, e.at, e.answer, e.newId);
      r.allowed <==> r.payment.Some? && NamesSome(r.payment.value, Step(s, w, e).books.rows)
  {
    ExecutesExactly(s, w, e);
    if Ready(w.books.approvals, e.approvalId, e.operator, e.at) {
      assert PayloadOk(s, w.books.approvals.entries[e.approvalId].payload);
      var q := RequestOf(w.books.approvals.entries[e.approvalId].payload);
      var u := ReadyPaymentIsMade(s, w, e, q);
      CarriedIsStored(u, Step(s, w, e).books,
                      AnswerToExecution(w.books, e.approvalId, e.operator, e.at, e.answer, e.newId).payment.value,
                      q, e.answer, e.newId, e.at.storedAt);
    } else {
      UnreadyPaysNothing(s, w, e);
    }
  }
}
