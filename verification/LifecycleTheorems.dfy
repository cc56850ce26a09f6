/** What holds in every run of the payment lifecycle. */
module LifecycleTheorems {
  import opened Common
  import opened TransactionStates
  import opened TransactionRepository
  import opened Json
  import opened Callbacks
  import opened Payments
  import opened Lifecycle
  import opened IdempotencyKey
  import Approvals
  import Analytics
  import CallbackRoutes
  import PostgresRepository
  import Receipts
  import Replay

  // ---------------------------------------------------------------- approvals

  /** The reviewers that a payment of this amount needs. */
  function ReviewersFor(s: Configuration, amount: int): int {
    Max(1, if amount >= s.payments.approvals.highRiskAmountThreshold
           then s.payments.approvals.highRiskRequiredReviewers else s.payments.approvals.requiredReviewers)
  }

  /** A payload that asks for exactly this transaction. */
  predicate AsksFor(p: Approvals.Payload, row: Transaction) {
    && p.phoneNumber == Approvals.TextEntry(row.fields.phoneNumber)
    && p.amount == Approvals.IntEntry(row.fields.amount)
    && p.accountReference == Approvals.TextEntry(row.fields.accountReference)
    && p.description == Approvals.TextEntry(row.fields.description)
    && row.fields.idempotencyKey.Some?
    && p.idempotencyKey == Approvals.TextEntry(row.fields.idempotencyKey.value)
  }

  /** An execution of an approval that was reviewed for exactly this transaction. */
  ghost predicate ReviewedFor(s: Configuration, w: World, e: Execution, row: Transaction) {
    && e.created == Some(row.transactionId)
    && e.approvalId in w.books.approvals.entries
    && var a := w.books.approvals.entries[e.approvalId];
       && AsksFor(a.payload, row)
       && NoDuplicates(a.reviewerIds) && |a.reviewerIds| == ReviewersFor(s, row.fields.amount)
       && e.reviewedAt < a.expiresAt
  }

  /** Every stored transaction above the limit was created by an approval of exactly its phone,
      amount, reference, description and key, with exactly the required number of distinct
      reviewers, the last of whom was checked before the request expired. */
  lemma OverLimitPaymentsAreReviewed(s: Configuration, es: seq<Event>, ws: seq<World>, n: nat, i: nat)
    requires IsRun(s, es, ws) && n <= |es| && i < |ws[n].books.rows|
    requires ws[n].books.rows[i].fields.amount > s.payments.maxStkAmount
    ensures exists k :: 0 <= k < |ws[n].executions| && ReviewedFor(s, ws[n], ws[n].executions[k], ws[n].books.rows[i])
  {
    RunKeepsInvariant(s, es, ws, n);
    OverLimitIsReviewed(s, ws[n], i);
  }

  lemma OverLimitIsReviewed(s: Configuration, w: World, i: nat)
    requires Invariant(s, w) && i < |w.books.rows| && w.books.rows[i].fields.amount > s.payments.maxStkAmount
    ensures exists k :: 0 <= k < |w.executions| && ReviewedFor(s, w, w.executions[k], w.books.rows[i])
  {
    assert HasOrigin(w.books.approvals, w.executions, w.books.rows[i]);
    assert RowOk(w.books.rows[i]);
    var k :| 0 <= k < |w.executions| && Originates(w.books.approvals, w.executions[k], w.books.rows[i]);
    assert ReviewedInTime(w.books.approvals, w.executions[k]);
    assert Approvals.Regular(s.payments.approvals, w.books.approvals.entries[w.executions[k].approvalId]);
    assert ReviewedFor(s, w, w.executions[k], w.books.rows[i]);
  }

  /** Every approval counts its distinct reviewers exactly; a pending one still lacks a review. */
  lemma ReviewsAreCounted(s: Configuration, es: seq<Event>, ws: seq<World>, n: nat, id: string)
    requires IsRun(s, es, ws) && n <= |es| && id in ws[n].books.approvals.entries
    ensures var a := ws[n].books.approvals.entries[id];
      && NoDuplicates(a.reviewerIds) && a.reviewCount == |a.reviewerIds|
      && (a.status == Approvals.Pending ==> a.reviewCount < Max(1, a.requiredReviewers))
      && (a.status == Approvals.Approved ==> a.reviewCount == Max(1, a.requiredReviewers))
  {
    RunKeepsInvariant(s, es, ws, n);
  }

  /** An approval that is no longer pending never becomes pending again and gains no reviewer. */
  lemma NeverPendingAgain(s: Configuration, es: seq<Event>, ws: seq<World>, m: nat, n: nat, id: string)
    requires IsRun(s, es, ws) && m <= n <= |es|
    requires id in ws[m].books.approvals.entries
    ensures id in ws[n].books.approvals.entries
    ensures var a, b := ws[m].books.approvals.entries[id], ws[n].books.approvals.entries[id];
      && b.payload == a.payload && b.expiresAt == a.expiresAt
      && (a.status != Approvals.Pending ==> b.status != Approvals.Pending && b.reviewerIds == a.reviewerIds)
  {
    RunExtends(s, es, ws, m, n);
    assert Approvals.Evolves(ws[m].books.approvals.entries[id], ws[n].books.approvals.entries[id]);
  }

  /** Whether an event executes the payment of an approval. */
  predicate Executes(w: World, e: Event) {
    e.ExecuteEvent?
    && AnswerToExecution(w.books, e.approvalId, e.operator, e.at, e.answer, e.newId).payment.Some?
  }

  /** No approval is executed twice, whatever else happens in between. */
  lemma ApprovalsExecuteOnce(s: Configuration, es: seq<Event>, ws: seq<World>, m: nat, n: nat)
    requires IsRun(s, es, ws) && m < n < |es|
    requires Executes(ws[m], es[m]) && es[n].ExecuteEvent? && es[n].approvalId == es[m].approvalId
    ensures !Executes(ws[n], es[n])
  {
    var id := es[m].approvalId;
    RunKeepsInvariant(s, es, ws, m);
    ExecutionSpendsApproval(s, ws[m], es[m]);
    RunExtends(s, es, ws, m + 1, n);
    assert Approvals.Evolves(ws[m + 1].books.approvals.entries[id], ws[n].books.approvals.entries[id]);
  }

  lemma ExecutionSpendsApproval(s: Configuration, w: World, e: Event)
    requires Invariant(s, w) && Admissible(w, e) && Executes(w, e)
    ensures e.approvalId in Step(s, w, e).books.approvals.entries
    ensures Step(s, w, e).books.approvals.entries[e.approvalId].status != Approvals.Pending
  {
    StepKeeps(s, w, e);
    var v := Step(s, w, e);
    assert v.executions[|v.executions| - 1].approvalId == e.approvalId;
    assert ReviewedInTime(v.books.approvals, v.executions[|v.executions| - 1]);
  }

  // ---------------------------------------------------------------- payments

  /** In every run the accepted provider calls, the stored transactions, the audit events for
      initiated pushes and the success counter agree one by one, and keys are distinct. */
  lemma LedgerIsExact(s: Configuration, es: seq<Event>, ws: seq<World>, n: nat)
    requires IsRun(s, es, ws) && n <= |es|
    ensures var b := ws[n].books;
      && LedgerOk(b)
      && forall i, j :: 0 <= i < j < |b.rows| ==> b.rows[i].fields.idempotencyKey != b.rows[j].fields.idempotencyKey
  {
    RunKeepsInvariant(s, es, ws, n);
  }

  /** Once a transaction holds a key, any later execution with that key calls no provider,
      changes nothing at all, and answers with that transaction. */
  lemma UsedKeyPaysOnce(s: Configuration, es: seq<Event>, ws: seq<World>, m: nat, n: nat, i: nat,
                        q: Request, answer: Answer, newId: string, now: Time)
    requires IsRun(s, es, ws) && m <= n <= |es| && i < |ws[m].books.rows|
    requires ws[m].books.rows[i].fields.idempotencyKey == Some(q.idempotencyKey)
    ensures var b := ws[n].books;
      && Executed(b, q, answer, newId, now) == b
      && i < |b.rows|
      && var row, r := b.rows[i], ExecutedResponse(b, q, answer, newId, now);
         && row.transactionId == ws[m].books.rows[i].transactionId
         && r.allowed && r.status == Recorded(row.status) && r.transactionId == Some(row.transactionId)
         && r.checkoutRequestId == Some(row.fields.checkoutRequestId)
         && r.merchantRequestId == Some(row.fields.merchantRequestId)
         && r.idempotencyKey == Some(q.idempotencyKey)
  {
    RunExtends(s, es, ws, m, n);
    RunKeepsInvariant(s, es, ws, n);
    var rows := ws[n].books.rows;
    assert RowMoves(ws[m].books.rows[i], rows[i]);
    assert IndexOfKey(rows, q.idempotencyKey) == i;
  }

  /** The text that is hashed for a push. */
  function TextOf(p: Push): string
    requires p.phoneNumber.Some? && p.amount.Some?
  {
    RawKey(p.phoneNumber.value, p.amount.value, p.accountReference, p.description)
  }

  /** Two pushes with derived keys and bar-free phones and references share a key only if they
      are the same request (unless the hash collides), so no request is answered with another's payment. */
  lemma DerivedKeysKeepRequestsApart(s: Configuration, p: Push, r: Push)
    requires p.phoneNumber.Some? && p.amount.Some? && p.idempotencyKey.None?
    requires r.phoneNumber.Some? && r.amount.Some? && r.idempotencyKey.None?
    requires s.payments.hash(TextOf(p)) == s.payments.hash(TextOf(r)) ==> TextOf(p) == TextOf(r)
    requires BarFree(p.phoneNumber.value) && BarFree(p.accountReference)
    requires BarFree(r.phoneNumber.value) && BarFree(r.accountReference)
    ensures ResolvedKey(s.payments, p) == ResolvedKey(s.payments, r) <==> p == r
  {
    DerivedKeysIdentifyRequests(s.payments.hash,
      p.phoneNumber.value, p.amount.value, p.accountReference, p.description,
      r.phoneNumber.value, r.amount.value, r.accountReference, r.description);
  }

  // ---------------------------------------------------------------- callbacks

  /** Between two states of a run a transaction keeps its identity, and its status is the
      same or has moved once, from pending to completed or failed; a settled one is frozen. */
  lemma StatusChangesOnce(s: Configuration, es: seq<Event>, ws: seq<World>, m: nat, n: nat, i: nat)
    requires IsRun(s, es, ws) && m <= n <= |es| && i < |ws[m].books.rows|
    ensures i < |ws[n].books.rows|
    ensures var a, b := ws[m].books.rows[i], ws[n].books.rows[i];
      && SameIdentity(a, b)
      && (a.status != Pending ==> b == a)
      && (a.status == Pending ==> b.status in {Pending, Completed, Failed})
  {
    RunExtends(s, es, ws, m, n);
    RunKeepsInvariant(s, es, ws, n);
    assert RowMoves(ws[m].books.rows[i], ws[n].books.rows[i]);
    assert RowOk(ws[n].books.rows[i]);
  }

  /** A success callback that confirms a transaction's amount and phone digits. */
  predicate Confirms(a: Applied, row: Transaction) {
    && a.transactionId == row.transactionId && a.facts.code == 0
    && a.facts.Amount() == Some(row.fields.amount)
    && a.facts.Phone().Some? && DigitsOnly(a.facts.Phone().value) == DigitsOnly(row.fields.phoneNumber)
  }

  /** A completed transaction has result code 0, a receipt number, and an applied callback that
      confirms its amount and phone. */
  lemma CompletedMeansConfirmed(s: Configuration, es: seq<Event>, ws: seq<World>, n: nat, i: nat)
    requires IsRun(s, es, ws) && n <= |es| && i < |ws[n].books.rows|
    requires ws[n].books.rows[i].status == Completed
    ensures var row := ws[n].books.rows[i];
      && row.resultCode == Some(0) && row.mpesaReceiptNumber.Some?
      && exists k :: 0 <= k < |ws[n].applied| && Confirms(ws[n].applied[k], row)
  {
    RunKeepsInvariant(s, es, ws, n);
    CompletedIsConfirmed(ws[n].books.rows[i], ws[n].applied);
  }

  lemma CompletedIsConfirmed(row: Transaction, applied: seq<Applied>)
    requires row.status == Completed && Explained(row, applied)
    ensures row.resultCode == Some(0) && row.mpesaReceiptNumber.Some?
    ensures exists k :: 0 <= k < |applied| && Confirms(applied[k], row)
  {
    var k :| 0 <= k < |applied| && Explains(applied[k], row);
    assert Confirms(applied[k], row);
  }

  /** An applied callback named its checkout id, and the first transaction with that id is settled. */
  ghost predicate Spent(rows: Rows, a: Applied) {
    && ExtractCallback(a.payload).Some?
    && GetString(ExtractCallback(a.payload).value, "CheckoutRequestID") == Some(a.facts.checkout)
    && IndexOfCheckout(rows, a.facts.checkout) < |rows|
    && rows[IndexOfCheckout(rows, a.facts.checkout)].status in TERMINAL_STATUSES
  }

  lemma SpentStaysSpent(rows: Rows, rows': Rows, a: Applied)
    requires Spent(rows, a) && RowsExtend(rows, rows')
    ensures Spent(rows', a)
  {
    var i := IndexOfCheckout(rows, a.facts.checkout);
    assert RowMoves(rows[i], rows'[i]);
    assert IndexOfCheckout(rows', a.facts.checkout) == i by {
      forall j | 0 <= j < i ensures rows'[j].fields.checkoutRequestId != a.facts.checkout {
        assert RowMoves(rows[j], rows'[j]);
      }
    }
  }

  lemma SettlingSpends(rows: Rows, payload: Dict, now: Time)
    requires DistinctIds(rows) && Judge(rows, payload).Settles?
    ensures var v := Judge(rows, payload);
      Spent(RowsAfter(rows, payload, now), Applied(v.row.transactionId, v.row.createdAt, payload, v.facts))
  {
    var f := Judge(rows, payload).facts;
    SettlesOnlyMatchingPending(rows, payload, now);
    SettlingIsByFacts(rows, payload);
    var i := IndexOfCheckout(rows, f.checkout);
    var rows' := RowsAfter(rows, payload, now);
    assert forall j :: 0 <= j < |rows| ==> rows'[j].fields.checkoutRequestId == rows[j].fields.checkoutRequestId;
    assert IndexOfCheckout(rows', f.checkout) == i;
    assert f == ReadFacts(ExtractCallback(payload).value).value by { FactsAreRead(rows, payload); }
  }

  lemma FactsAreRead(rows: Rows, payload: Dict)
    requires Judge(rows, payload).Settles?
    ensures ExtractCallback(payload).Some? && ReadFacts(ExtractCallback(payload).value) == Some(Judge(rows, payload).facts)
  {
    FactsSettle(rows, ReadFacts(ExtractCallback(payload).value).value);
  }

  lemma {:induction false} AppliedAreSpent(s: Configuration, es: seq<Event>, ws: seq<World>, n: nat, k: nat)
    requires IsRun(s, es, ws) && n <= |es| && k < |ws[n].applied|
    ensures Spent(ws[n].books.rows, ws[n].applied[k])
    decreases n
  {
    if n > 0 {
      RunKeepsInvariant(s, es, ws, n - 1);
      StepKeeps(s, ws[n - 1], es[n - 1]);
      if k < |ws[n - 1].applied| {
        AppliedAreSpent(s, es, ws, n - 1, k);
        SpentStaysSpent(ws[n - 1].books.rows, ws[n].books.rows, ws[n - 1].applied[k]);
      } else {
        NewlyAppliedIsSpent(s, ws[n - 1], es[n - 1], k);
      }
    }
  }

  lemma NewlyAppliedIsSpent(s: Configuration, w: World, e: Event, k: nat)
    requires DistinctIds(w.books.rows) && |w.applied| <= k < |Step(s, w, e).applied|
    ensures Spent(Step(s, w, e).books.rows, Step(s, w, e).applied[k])
  {
    SettlingSpends(w.books.rows, e.payload, e.settledAt);
  }

  /** Once a callback was applied, every payload with the same replay key, of whatever shape,
      would change no transaction; so rejecting it as a duplicate loses nothing. */
  lemma DuplicatesAreHarmless(s: Configuration, es: seq<Event>, ws: seq<World>, n: nat, k: nat, payload: Dict, now: Time)
    requires IsRun(s, es, ws) && n <= |es| && k < |ws[n].applied|
    requires Replay.CollisionFree(s.routes.hash, payload, ws[n].applied[k].payload)
    requires Replay.ReplayKey(s.routes.hash, payload) == Replay.ReplayKey(s.routes.hash, ws[n].applied[k].payload)
    ensures RowsAfter(ws[n].books.rows, payload, now) == ws[n].books.rows
  {
    var a := ws[n].applied[k];
    AppliedAreSpent(s, es, ws, n, k);
    Replay.KeyIdentifiesFingerprint(s.routes.hash, payload, a.payload);
    SameCheckout(payload, a.payload);
    TerminalIgnoresCallbacks(ws[n].books.rows, payload, now, a.facts.checkout);
  }

  /** Keys are stored before processing, so suppression does lose something while no callback
      with the key was applied: a callback refused for a wrong amount or phone, or as malformed,
      shuts out a later one with the same key that would have settled the transaction. */
  lemma UnappliedKeysSuppress(s: CallbackRoutes.Settings, w: World, first: Dict, second: Dict,
                              now: Time, clock: real, later: real)
    requires s.protected && s.windowSeconds >= 1 && clock <= later < clock + s.windowSeconds as real
    requires Replay.ReplayKey(s.hash, first) == Replay.ReplayKey(s.hash, second)
    requires CallbackRoutes.Passes(s, w.seen, first, clock)
    requires !Judge(w.books.rows, first).Settles? && Judge(w.books.rows, second).Settles?
    requires DistinctIds(w.books.rows)
    ensures var v := AfterCallback(s, w, first, now, clock);
      && v.books.rows == w.books.rows
      && !CallbackRoutes.Passes(s, v.seen, second, later)
      && RowsAfter(v.books.rows, second, now) != v.books.rows
  {
    SettlesOnlyMatchingPending(w.books.rows, second, now);
    var f := Judge(w.books.rows, second).facts;
    var i := IndexOfCheckout(w.books.rows, f.checkout);
    assert Settled(w.books.rows[i], f.ToSettlement(), now).status != Pending;
    assert RowsAfter(w.books.rows, second, now)[i] != w.books.rows[i];
  }

  /** Payloads with one fingerprint name the same checkout id, if the handler reads one at all. */
  lemma SameCheckout(p: Dict, q: Dict)
    requires Replay.FingerprintOf(p) == Replay.FingerprintOf(q)
    requires ExtractCallback(q).Some? && GetString(ExtractCallback(q).value, "CheckoutRequestID").Some?
    ensures ExtractCallback(p).Some? ==>
      var id := GetString(ExtractCallback(p).value, "CheckoutRequestID");
      id.None? || id == GetString(ExtractCallback(q).value, "CheckoutRequestID")
  {
    assert ExtractCallback(p).Some? ==> Replay.ReplayCallback(p) == ExtractCallback(p).value;
    assert Replay.ReplayCallback(q) == ExtractCallback(q).value;
  }

  // ---------------------------------------------------------------- revenue and receipts

  /** What the applied success callbacks confirmed for transactions created on a day. */
  function ConfirmedRevenue(applied: seq<Applied>, date: int): int {
    if applied == [] then 0
    else
      var a := applied[|applied| - 1];
      ConfirmedRevenue(applied[..|applied| - 1], date)
      + if a.facts.code == 0 && DateOf(a.createdAt) == date then a.facts.Amount().GetOr(0) else 0
  }

  lemma ConfirmedAppend(applied: seq<Applied>, a: Applied, date: int)
    ensures ConfirmedRevenue(applied + [a], date)
         == ConfirmedRevenue(applied, date)
            + if a.facts.code == 0 && DateOf(a.createdAt) == date then a.facts.Amount().GetOr(0) else 0
  {
    assert (applied + [a])[..|applied|] == applied;
  }

  /** What a step adds to the revenue of a day: the amount of the transaction that it completes. */
  function Gain(s: Configuration, w: World, e: Event, date: int): int {
    if !e.CallbackEvent? || !CallbackRoutes.Passes(s.routes, w.seen, e.payload, e.arrivedAt) then 0
    else
      var v := Judge(w.books.rows, e.payload);
      if v.Settles? && v.facts.code == 0 && DateOf(v.row.createdAt) == date then v.row.fields.amount else 0
  }

  /** One step changes the revenue of a day by exactly the amount of the transaction that it
      completes, which is positive, and by nothing otherwise. */
  lemma StepRevenue(s: Configuration, w: World, e: Event, date: int)
    requires Invariant(s, w) && Admissible(w, e)
    ensures var v := Step(s, w, e);
      && Analytics.Revenue(v.books.rows, date) == Analytics.Revenue(w.books.rows, date) + Gain(s, w, e, date)
      && ConfirmedRevenue(v.applied, date) == ConfirmedRevenue(w.applied, date) + Gain(s, w, e, date)
      && Gain(s, w, e, date) >= 0
      && (e.CallbackEvent? && |v.applied| > |w.applied| ==>
          var a := v.applied[|w.applied|];
          a.facts.code == 0 && DateOf(a.createdAt) == date <==> Gain(s, w, e, date) > 0)
  {
    match e {
      case PushEvent(p, answer, newId, _, clock) =>
        if Judged(s.payments, p).Allowed? {
          PaymentRevenue(w.books, Resolved(s.payments, p), answer, newId, clock(0), date);
        }
      case ExecuteEvent(_, _, _, _, _) =>
        ExecutionRevenue(s, w, e, date);
      case CallbackEvent(_, _, _) =>
        CallbackRevenue(s, w, e, date);
      case ApproveEvent(_, _, _) =>
      case RejectEvent(_, _) =>
      case ExpireEvent(_) =>
    }
  }

  lemma PaymentRevenue(b: Books, q: Request, answer: Answer, newId: string, now: Time, date: int)
    requires RowsOk(b.rows) && LedgerOk(b) && NewId(b.rows, newId) && q.amount > 0
    ensures Analytics.Revenue(Executed(b, q, answer, newId, now).rows, date) == Analytics.Revenue(b.rows, date)
  {
    ExecutedKeeps(b, q, answer, newId, now);
    if Unused(b.rows, q.idempotencyKey) && answer.Accepted? {
      Analytics.RevenueAppend(b.rows, NewTransaction(newId, FieldsOf(q, answer.initiation), now), date);
    }
  }

  lemma ExecutionRevenue(s: Configuration, w: World, e: Event, date: int)
    requires Invariant(s, w) && e.ExecuteEvent? && Admissible(w, e)
    ensures Analytics.Revenue(Step(s, w, e).books.rows, date) == Analytics.Revenue(w.books.rows, date)
    ensures Step(s, w, e).applied == w.applied
  {
    if Completes(w.books, e.approvalId, e.operator, e.at) {
      assert PayloadOk(s, w.books.approvals.entries[e.approvalId].payload);
      var review := Approvals.ApproveStep(w.books.approvals, e.approvalId, e.operator, e.at.review);
      var u := AfterReview(w.books, review);
      ApproveReview(s, w, e.approvalId, e.operator, e.at.review);
      PaymentRevenue(u, RequestOf(w.books.approvals.entries[e.approvalId].payload), e.answer, e.newId,
                     e.at.storedAt, date);
    }
  }

  lemma SettlingRevenue(rows: Rows, i: nat, f: Facts, now: Time, date: int)
    requires i < |rows| && rows[i].status == Pending
    ensures Analytics.Revenue(rows[i := Settled(rows[i], f.ToSettlement(), now)], date)
         == Analytics.Revenue(rows, date)
            + if f.code == 0 && DateOf(rows[i].createdAt) == date then rows[i].fields.amount else 0
  {
    Analytics.RevenueReplace(rows, i, Settled(rows[i], f.ToSettlement(), now), date);
  }

  lemma CallbackRevenue(s: Configuration, w: World, e: Event, date: int)
    requires RowsOk(w.books.rows) && e.CallbackEvent?
    ensures var v := Step(s, w, e);
      && Analytics.Revenue(v.books.rows, date) == Analytics.Revenue(w.books.rows, date) + Gain(s, w, e, date)
      && ConfirmedRevenue(v.applied, date) == ConfirmedRevenue(w.applied, date) + Gain(s, w, e, date)
      && Gain(s, w, e, date) >= 0
      && (|v.applied| > |w.applied| ==>
          var a := v.applied[|w.applied|];
          a.facts.code == 0 && DateOf(a.createdAt) == date <==> Gain(s, w, e, date) > 0)
  {
    if CallbackRoutes.Passes(s.routes, w.seen, e.payload, e.arrivedAt) && Judge(w.books.rows, e.payload).Settles? {
      SettlingCallbackRevenue(s, w, e, date);
    } else {
      assert w.applied + [] == w.applied;
    }
  }

  lemma SettlingCallbackRevenue(s: Configuration, w: World, e: Event, date: int)
    requires RowsOk(w.books.rows) && e.CallbackEvent? && Judge(w.books.rows, e.payload).Settles?
    requires CallbackRoutes.Passes(s.routes, w.seen, e.payload, e.arrivedAt)
    ensures var v := Step(s, w, e);
      && |v.applied| == |w.applied| + 1
      && v.applied[|w.applied|].facts == Judge(w.books.rows, e.payload).facts
      && v.applied[|w.applied|].createdAt == Judge(w.books.rows, e.payload).row.createdAt
      && Judge(w.books.rows, e.payload).row.fields.amount > 0
      && Analytics.Revenue(v.books.rows, date) == Analytics.Revenue(w.books.rows, date) + Gain(s, w, e, date)
      && ConfirmedRevenue(v.applied, date) == ConfirmedRevenue(w.applied, date) + Gain(s, w, e, date)
  {
    var f := Judge(w.books.rows, e.payload).facts;
    CallbackEffect(s, w, e);
    var i := IndexOfCheckout(w.books.rows, f.checkout);
    assert RowOk(w.books.rows[i]);
    SettlingRevenue(w.books.rows, i, f, e.settledAt, date);
    ConfirmedAppend(w.applied, Applied(w.books.rows[i].transactionId, w.books.rows[i].createdAt, e.payload, f), date);
  }

  lemma CallbackEffect(s: Configuration, w: World, e: Event)
    requires DistinctIds(w.books.rows) && e.CallbackEvent? && Judge(w.books.rows, e.payload).Settles?
    requires CallbackRoutes.Passes(s.routes, w.seen, e.payload, e.arrivedAt)
    ensures var v := Step(s, w, e);
      var f := Judge(w.books.rows, e.payload).facts;
      var i := IndexOfCheckout(w.books.rows, f.checkout);
      && i < |w.books.rows| && Judge(w.books.rows, e.payload) == Settles(f, w.books.rows[i])
      && w.books.rows[i].status == Pending && Agrees(f, w.books.rows[i])
      && v.books.rows == w.books.rows[i := Settled(w.books.rows[i], f.ToSettlement(), e.settledAt)]
      && v.applied == w.applied + [Applied(w.books.rows[i].transactionId, w.books.rows[i].createdAt, e.payload, f)]
  {
    SettlesOnlyMatchingPending(w.books.rows, e.payload, e.settledAt);
  }

  /** In every run the reported revenue of a day is the sum of the amounts that applied success
      callbacks confirmed for that day's transactions, each transaction at most once; and the
      day's completed, failed and pending transactions add up to its total. */
  lemma RevenueIsConfirmed(s: Configuration, es: seq<Event>, ws: seq<World>, n: nat, date: int)
    requires IsRun(s, es, ws) && n <= |es|
    ensures var summary := Analytics.SummaryOf(ws[n].books.rows, date);
      && summary.totalRevenue == ConfirmedRevenue(ws[n].applied, date)
      && summary.totalTransactions
         == summary.completedTransactions + summary.failedTransactions + summary.pendingTransactions
      && DistinctTargets(ws[n].applied)
  {
    RunKeepsInvariant(s, es, ws, n);
    RevenueByInduction(s, es, ws, n, date);
    Analytics.SummaryRevenue(ws[n].books.rows, date);
    DayAddsUp(ws[n].books.rows, date);
  }

  lemma DayAddsUp(rows: Rows, date: int)
    requires RowsOk(rows)
    ensures var summary := Analytics.SummaryOf(rows, date);
      summary.totalTransactions
      == summary.completedTransactions + summary.failedTransactions + summary.pendingTransactions
  {
    Analytics.CreatedOnIsPart(rows, date);
    forall r | r in rows ensures r.status in {Pending, Completed, Failed} {
      var i :| 0 <= i < |rows| && rows[i] == r;
      assert RowOk(rows[i]);
    }
    Analytics.CountsAddUp(CreatedOn(rows, date));
  }

  lemma RevenueOfStep(s: Configuration, es: seq<Event>, ws: seq<World>, n: nat, date: int)
    requires IsRun(s, es, ws) && n < |es|
    ensures Analytics.Revenue(ws[n + 1].books.rows, date) - Analytics.Revenue(ws[n].books.rows, date)
         == ConfirmedRevenue(ws[n + 1].applied, date) - ConfirmedRevenue(ws[n].applied, date)
         >= 0
  {
    RunKeepsInvariant(s, es, ws, n);
    StepRevenue(s, ws[n], es[n], date);
  }

  lemma {:induction false} RevenueByInduction(s: Configuration, es: seq<Event>, ws: seq<World>, n: nat, date: int)
    requires IsRun(s, es, ws) && n <= |es|
    ensures Analytics.Revenue(ws[n].books.rows, date) == ConfirmedRevenue(ws[n].applied, date)
    decreases n
  {
    if n == 0 {
    } else {
      RevenueByInduction(s, es, ws, n - 1, date);
      RevenueOfStep(s, es, ws, n - 1, date);
    }
  }

  /** Revenue never falls as a run goes on. */
  lemma {:induction false} RevenueNeverFalls(s: Configuration, es: seq<Event>, ws: seq<World>, m: nat, n: nat, date: int)
    requires IsRun(s, es, ws) && m <= n <= |es|
    ensures Analytics.Revenue(ws[m].books.rows, date) <= Analytics.Revenue(ws[n].books.rows, date)
    decreases n
  {
    if m == n {
    } else {
      RevenueNeverFalls(s, es, ws, m, n - 1, date);
      RevenueOfStep(s, es, ws, n - 1, date);
    }
  }

  /** In every run a receipt is issued exactly for completed transactions; the block for a
      missing receipt number is unreachable; and a receipt carries the amount and the phone
      that the provider was asked for. */
  lemma ReceiptsAreForCompleted(s: Configuration, es: seq<Event>, ws: seq<World>, n: nat, i: nat,
                                receiptId: string, now: Time)
    requires IsRun(s, es, ws) && n <= |es| && i < |ws[n].books.rows|
    ensures var b := ws[n].books;
      var answer := Receipts.Generate(b.rows[i], receiptId, now);
      && (answer.Issued? <==> b.rows[i].status == Completed)
      && (answer == Receipts.NotCompleted <==> b.rows[i].status != Completed)
      && i < |AcceptedCalls(b.calls)|
      && (answer.Issued? ==>
          && answer.receipt.transactionId == b.rows[i].transactionId
          && answer.receipt.checkoutRequestId == b.rows[i].fields.checkoutRequestId
          && Some(answer.receipt.mpesaReceiptNumber) == b.rows[i].mpesaReceiptNumber
          && answer.receipt.amount == AcceptedCalls(b.calls)[i].amount
          && answer.receipt.phoneNumber == AcceptedCalls(b.calls)[i].phoneNumber)
  {
    RunKeepsInvariant(s, es, ws, n);
    var b := ws[n].books;
    assert Matches(b.rows[i], AcceptedCalls(b.calls)[i]);
    if b.rows[i].status == Completed {
      CompletedMeansConfirmed(s, es, ws, n, i);
    }
  }

  // ---------------------------------------------------------------- the constrained table

  ghost predicate DistinctProviderIds(rows: Rows) {
    forall i, j :: 0 <= i < j < |rows| ==>
      && rows[i].fields.checkoutRequestId != rows[j].fields.checkoutRequestId
      && (rows[i].fields.providerTransactionId.Some? ==>
          rows[i].fields.providerTransactionId != rows[j].fields.providerTransactionId)
  }

  lemma DistinctIdsSuffice(rows: Rows)
    requires RowsOk(rows) && DistinctProviderIds(rows)
    ensures PostgresRepository.ClashFree(rows)
  {
    assert forall i :: 0 <= i < |rows| ==> RowOk(rows[i]);
  }

  /** If the provider's ids are distinct, the rows of a run violate no constraint of the
      transactions table: transaction ids and idempotency keys are distinct by themselves. */
  lemma RunsRespectConstraints(s: Configuration, es: seq<Event>, ws: seq<World>, n: nat)
    requires IsRun(s, es, ws) && n <= |es| && DistinctProviderIds(ws[n].books.rows)
    ensures PostgresRepository.ClashFree(ws[n].books.rows)
  {
    RunKeepsInvariant(s, es, ws, n);
    DistinctIdsSuffice(ws[n].books.rows);
  }
}
