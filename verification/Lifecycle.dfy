/** The payment lifecycle as one state machine: pushes, approved executions, reviews,
    rejections, expiry and callbacks over the shared state, and what every run keeps. */
module Lifecycle {
  import opened Common
  import opened TransactionStates
  import opened TransactionRepository
  import opened Audit
  import opened Json
  import opened Callbacks
  import opened Payments
  import Approvals
  import CallbackRoutes
  import Replay

  datatype Configuration = Configuration(payments: Payments.Settings, routes: CallbackRoutes.Settings)

  /** An approved request that was executed: when its completing review was checked against
      the expiry time, and the transaction it created, if any. */
  datatype Execution = Execution(approvalId: string, reviewedAt: Time, created: Option<string>)

  /** A callback that settled a transaction. */
  datatype Applied = Applied(transactionId: string, createdAt: Time, payload: Dict, facts: Facts)

  /** The shared state, the history of executions and applied callbacks, and the replay table. */
  datatype World = World(books: Books, executions: seq<Execution>, applied: seq<Applied>, seen: Replay.Table)

  const START: World :=
    World(Books(Approvals.EMPTY, [], [], Counts(0, 0, 0, 0, 0), []), [], [], map[])

  datatype Event =
    | PushEvent(push: Push, answer: Answer, newId: string, newApprovalId: string, clock: Clock)
    | ExecuteEvent(approvalId: string, operator: string, at: Readings, answer: Answer, newId: string)
    | ApproveEvent(approvalId: string, operator: string, clock: Clock)
    | RejectEvent(approvalId: string, clock: Clock)
    | ExpireEvent(clock: Clock)
    | CallbackEvent(payload: Dict, settledAt: Time, arrivedAt: real)

  /** Callers choose everything freely; generated ids are new. */
  ghost predicate Admissible(w: World, e: Event) {
    match e
    case PushEvent(_, _, newId, newApprovalId, _) =>
      NewId(w.books.rows, newId) && newApprovalId !in w.books.approvals.entries
    case ExecuteEvent(_, _, _, _, newId) => NewId(w.books.rows, newId)
    case ApproveEvent(_, _, _) => true
    case RejectEvent(_, _) => true
    case ExpireEvent(_) => true
    case CallbackEvent(_, _, _) => true
  }

  ghost predicate NewId(rows: Rows, id: string) {
    forall i :: 0 <= i < |rows| ==> rows[i].transactionId != id
  }

  function AfterReview(b: Books, step: Approvals.Step): Books {
    b.(approvals := step.store, events := b.events + step.events)
  }

  function AfterExpiry(b: Books, clock: Clock): Books {
    b.(approvals := Approvals.ExpireStale(b.approvals, clock),
       events := b.events + Approvals.ExpiryEvents(Approvals.Snapshot(b.approvals), clock))
  }

  function AfterExecuteEvent(w: World, e: Event): World
    requires e.ExecuteEvent?
  {
    var b := w.books;
    var c := AfterExecution(b, e.approvalId, e.operator, e.at, e.answer, e.newId);
    var r := AnswerToExecution(b, e.approvalId, e.operator, e.at, e.answer, e.newId);
    w.(books := c,
       executions := w.executions
         + if r.payment.Some?
           then [Execution(e.approvalId, e.at.review(0), if |c.rows| > |b.rows| then Some(e.newId) else None)] else [])
  }

  function AfterCallback(s: CallbackRoutes.Settings, w: World, payload: Dict, now: Time, clock: real): World {
    var b := w.books;
    var seen := CallbackRoutes.SeenAfter(s, w.seen, payload, clock);
    if CallbackRoutes.Passes(s, w.seen, payload, clock) then
      var v := Judge(b.rows, payload);
      World(b.(rows := RowsFor(b.rows, v, now), events := b.events + [EventOf(v)],
               counts := Counted(b.counts, CallbackReceived)),
            w.executions,
            w.applied + if v.Settles? then [Applied(v.row.transactionId, v.row.createdAt, payload, v.facts)] else [],
            seen)
    else
      w.(books := b.(events := b.events + [CallbackDuplicate(Replay.ReplayKey(s.hash, payload))]), seen := seen)
  }

  function Step(s: Configuration, w: World, e: Event): World {
    match e
    case PushEvent(p, answer, newId, newApprovalId, clock) =>
      w.(books := AfterPush(s.payments, w.books, p, answer, newId, newApprovalId, clock))
    case ExecuteEvent(_, _, _, _, _) => AfterExecuteEvent(w, e)
    case ApproveEvent(id, operator, clock) =>
      w.(books := AfterReview(w.books, Approvals.ApproveStep(w.books.approvals, id, operator, clock)))
    case RejectEvent(id, clock) =>
      w.(books := AfterReview(w.books, Approvals.RejectStep(w.books.approvals, id, clock)))
    case ExpireEvent(clock) => w.(books := AfterExpiry(w.books, clock))
    case CallbackEvent(payload, settledAt, arrivedAt) => AfterCallback(s.routes, w, payload, settledAt, arrivedAt)
  }

  /** A run: events and the states they lead through, from the empty start. */
  ghost predicate IsRun(s: Configuration, es: seq<Event>, ws: seq<World>) {
    && |ws| == |es| + 1 && ws[0] == START
    && forall i {:trigger es[i]} :: 0 <= i < |es| ==> Admissible(ws[i], es[i]) && ws[i + 1] == Step(s, ws[i], es[i])
  }

  // ---------------------------------------------------------------- transactions and the ledger

  ghost predicate RowsOk(rows: Rows) {
    && DistinctIds(rows)
    && (forall i :: 0 <= i < |rows| ==> RowOk(rows[i]))
    && (forall i, j :: 0 <= i < j < |rows| ==> rows[i].fields.idempotencyKey != rows[j].fields.idempotencyKey)
  }

  predicate RowOk(row: Transaction) {
    && row.fields.idempotencyKey.Some? && row.fields.amount > 0
    && row.status in {Pending, Completed, Failed}
    && (row.status == Pending ==> row.resultCode.None? && row.mpesaReceiptNumber.None?)
  }

  /** The provider calls that were accepted. */
  function AcceptedCalls(calls: seq<ProviderCall>): seq<ProviderCall> {
    if calls == [] then []
    else AcceptedCalls(calls[..|calls| - 1]) + if calls[|calls| - 1].answer.Accepted? then [calls[|calls| - 1]] else []
  }

  /** The audit events that record an initiated push. */
  function Initiations(events: seq<AuditEvent>): seq<AuditEvent> {
    if events == [] then []
    else Initiations(events[..|events| - 1])
         + if events[|events| - 1].StkPushInitiated? then [events[|events| - 1]] else []
  }

  /** A stored transaction says what the provider was asked and what it answered. */
  predicate Matches(row: Transaction, call: ProviderCall) {
    && call.answer.Accepted?
    && var f, i := row.fields, call.answer.initiation;
       && f.phoneNumber == call.phoneNumber && f.amount == call.amount
       && f.accountReference == call.accountReference && f.description == call.description
       && f.checkoutRequestId == i.checkoutRequestId && f.merchantRequestId == i.merchantRequestId
       && f.provider == i.provider && f.rail == i.rail
       && f.providerTransactionId == i.providerTransactionId && f.providerReference == i.providerReference
  }

  /** The audit event that records a stored transaction. */
  predicate Logs(row: Transaction, e: AuditEvent) {
    && e.StkPushInitiated?
    && e.transactionId == row.transactionId && e.amount == row.fields.amount
    && e.phoneNumber == row.fields.phoneNumber && e.idempotencyKey == row.fields.idempotencyKey
    && e.checkoutRequestId == row.fields.checkoutRequestId && e.merchantRequestId == row.fields.merchantRequestId
  }

  function RequestOfRow(row: Transaction): Request {
    Request(row.fields.phoneNumber, row.fields.amount, row.fields.accountReference, row.fields.description,
            row.fields.idempotencyKey.GetOr(""))
  }

  /** Accepted provider calls, stored transactions and audit events correspond one to one, in
      order, and the counter of successful payments counts them. */
  ghost predicate LedgerOk(b: Books) {
    var calls, logged := AcceptedCalls(b.calls), Initiations(b.events);
    && |calls| == |b.rows| && |logged| == |b.rows| && b.counts.successfulPayments == |b.rows|
    && (forall i :: 0 <= i < |b.rows| ==> Matches(b.rows[i], calls[i]))
    && (forall i :: 0 <= i < |b.rows| ==> Logs(b.rows[i], logged[i]))
  }

  lemma {:induction false} NoInitiations(events: seq<AuditEvent>, more: seq<AuditEvent>)
    requires forall e :: e in more ==> !e.StkPushInitiated?
    ensures Initiations(events + more) == Initiations(events)
  {
    if more == [] {
      assert events + more == events;
    } else {
      var all := events + more;
      assert all[..|all| - 1] == events + more[..|more| - 1];
      assert all[|all| - 1] == more[|more| - 1];
      NoInitiations(events, more[..|more| - 1]);
    }
  }

  lemma OneInitiation(events: seq<AuditEvent>, e: AuditEvent)
    requires e.StkPushInitiated?
    ensures Initiations(events + [e]) == Initiations(events) + [e]
  {
    assert (events + [e])[..|events|] == events;
  }

  lemma OneCall(calls: seq<ProviderCall>, c: ProviderCall)
    ensures AcceptedCalls(calls + [c]) == AcceptedCalls(calls) + if c.answer.Accepted? then [c] else []
  {
    assert (calls + [c])[..|calls|] == calls;
  }

  lemma {:induction false} ExpiryEventsAreExpiries(snapshot: seq<Approvals.Approval>, clock: Clock)
    ensures forall e :: e in Approvals.ExpiryEvents(snapshot, clock) ==> e.ApprovalExpired?
  {
    if snapshot == [] {
    } else {
      ExpiryEventsAreExpiries(snapshot[..|snapshot| - 1], clock);
    }
  }

  /** Changes of approvals and of the rest of the log leave the ledger alone. */
  lemma LedgerIgnores(b: Books, c: Books, more: seq<AuditEvent>)
    requires LedgerOk(b) && c.rows == b.rows && c.calls == b.calls && c.events == b.events + more
    requires c.counts.successfulPayments == b.counts.successfulPayments
    requires forall e :: e in more ==> !e.StkPushInitiated?
    ensures LedgerOk(c)
  {
    NoInitiations(b.events, more);
  }

  lemma RowAppended(rows: Rows, row: Transaction)
    requires RowsOk(rows) && RowOk(row) && NewId(rows, row.transactionId)
    requires Unused(rows, row.fields.idempotencyKey.value)
    ensures Put(rows, row) == rows + [row] && RowsOk(rows + [row])
  {
    assert IndexOfId(rows, row.transactionId) == |rows|;
  }

  /** An execution keeps the ledger: it changes no transaction and adds at most one. */
  lemma ExecutedKeeps(b: Books, q: Request, answer: Answer, newId: string, now: Time)
    requires RowsOk(b.rows) && LedgerOk(b) && NewId(b.rows, newId) && q.amount > 0
    ensures var c := Executed(b, q, answer, newId, now);
      && RowsOk(c.rows) && LedgerOk(c) && c.approvals == b.approvals
      && c.rows == (if Unused(b.rows, q.idempotencyKey) && answer.Accepted?
                    then b.rows + [NewTransaction(newId, FieldsOf(q, answer.initiation), now)] else b.rows)
  {
    OneCall(b.calls, CallOf(q, answer));
    if Unused(b.rows, q.idempotencyKey) && answer.Accepted? {
      var row := NewTransaction(newId, FieldsOf(q, answer.initiation), now);
      RowAppended(b.rows, row);
      OneInitiation(b.events, InitiatedEvent(row));
      assert Matches(row, CallOf(q, answer));
    }
  }

  /** Settling a pending transaction keeps the ledger: no field it records changes. */
  lemma SettlingKeeps(b: Books, i: nat, f: Facts, now: Time)
    requires RowsOk(b.rows) && LedgerOk(b) && i < |b.rows|
    ensures var c := b.(rows := b.rows[i := Settled(b.rows[i], f.ToSettlement(), now)]);
      RowsOk(c.rows) && LedgerOk(c)
  {
    var row := Settled(b.rows[i], f.ToSettlement(), now);
    assert row.fields == b.rows[i].fields && row.transactionId == b.rows[i].transactionId;
    assert RowOk(row);
    assert Matches(b.rows[i], AcceptedCalls(b.calls)[i]) ==> Matches(row, AcceptedCalls(b.calls)[i]);
    assert Logs(b.rows[i], Initiations(b.events)[i]) ==> Logs(row, Initiations(b.events)[i]);
  }

  // ---------------------------------------------------------------- approvals and executions

  /** Only over-limit requests are put up for approval, and every one of them is executable. */
  ghost predicate PayloadsOk(s: Configuration, store: Approvals.Store) {
    forall id :: id in store.entries ==> PayloadOk(s, store.entries[id].payload)
  }

  predicate PayloadOk(s: Configuration, p: Approvals.Payload) {
    Executable(p) && p.amount.n > 0 && p.amount.n > s.payments.maxStkAmount
  }

  /** The approval behind an execution has its full number of reviewers, the last of them
      checked before the request expired. */
  predicate ReviewedInTime(store: Approvals.Store, e: Execution) {
    && e.approvalId in store.entries
    && store.entries[e.approvalId].status != Approvals.Pending
    && Approvals.FullyReviewed(store.entries[e.approvalId])
    && e.reviewedAt < store.entries[e.approvalId].expiresAt
  }

  ghost predicate ExecutionsOk(store: Approvals.Store, executions: seq<Execution>) {
    && (forall i, j :: 0 <= i < j < |executions| ==> executions[i].approvalId != executions[j].approvalId)
    && (forall i :: 0 <= i < |executions| ==> ReviewedInTime(store, executions[i]))
  }

  /** The execution that created a transaction, for exactly the request that was approved. */
  predicate Originates(store: Approvals.Store, e: Execution, row: Transaction) {
    && e.created == Some(row.transactionId)
    && e.approvalId in store.entries
    && store.entries[e.approvalId].payload == PayloadOf(RequestOfRow(row))
  }

  ghost predicate HasOrigin(store: Approvals.Store, executions: seq<Execution>, row: Transaction) {
    exists k :: 0 <= k < |executions| && Originates(store, executions[k], row)
  }

  ghost predicate OriginsOk(s: Configuration, store: Approvals.Store, executions: seq<Execution>, rows: Rows) {
    forall i :: 0 <= i < |rows| && rows[i].fields.amount > s.payments.maxStkAmount ==>
      HasOrigin(store, executions, rows[i])
  }

  lemma EvolutionKeepsExecutions(store: Approvals.Store, next: Approvals.Store, executions: seq<Execution>)
    requires ExecutionsOk(store, executions) && Approvals.StoreEvolves(store, next)
    ensures ExecutionsOk(next, executions)
  {
    forall i | 0 <= i < |executions| ensures ReviewedInTime(next, executions[i]) {
      assert ReviewedInTime(store, executions[i]);
      var id := executions[i].approvalId;
      assert Approvals.Evolves(store.entries[id], next.entries[id]);
    }
  }

  /** Later approvals and settled rows keep every origin; a row added at the end needs its own. */
  lemma OriginsKept(s: Configuration, store: Approvals.Store, next: Approvals.Store,
                    executions: seq<Execution>, more: seq<Execution>, rows: Rows, rows': Rows)
    requires OriginsOk(s, store, executions, rows) && Approvals.StoreEvolves(store, next)
    requires |rows| <= |rows'| <= |rows| + 1
    requires forall i :: 0 <= i < |rows| ==> SameIdentity(rows[i], rows'[i])
    requires |rows'| > |rows| && rows'[|rows|].fields.amount > s.payments.maxStkAmount ==>
      |more| == 1 && Originates(next, more[0], rows'[|rows|])
    ensures OriginsOk(s, next, executions + more, rows')
  {
    forall i | 0 <= i < |rows'| && rows'[i].fields.amount > s.payments.maxStkAmount
      ensures HasOrigin(next, executions + more, rows'[i])
    {
      if i < |rows| {
        assert SameIdentity(rows[i], rows'[i]);
        OriginKept(store, next, executions, more, rows[i], rows'[i]);
      } else {
        assert (executions + more)[|executions|] == more[0];
      }
    }
  }

  lemma OriginKept(store: Approvals.Store, next: Approvals.Store, executions: seq<Execution>, more: seq<Execution>,
                   row: Transaction, row': Transaction)
    requires HasOrigin(store, executions, row) && Approvals.StoreEvolves(store, next) && SameIdentity(row, row')
    ensures HasOrigin(next, executions + more, row')
  {
    var k :| 0 <= k < |executions| && Originates(store, executions[k], row);
    var id := executions[k].approvalId;
    assert Approvals.Evolves(store.entries[id], next.entries[id]);
    assert (executions + more)[k] == executions[k] && Originates(next, executions[k], row');
  }

  /** What no step changes about a stored transaction. */
  predicate SameIdentity(a: Transaction, b: Transaction) {
    a.transactionId == b.transactionId && a.fields == b.fields && a.createdAt == b.createdAt
  }

  // ---------------------------------------------------------------- callbacks

  /** The callback that gave a transaction its final status. */
  predicate Explains(a: Applied, row: Transaction) {
    && a.transactionId == row.transactionId && a.createdAt == row.createdAt
    && a.facts.checkout == row.fields.checkoutRequestId
    && row.status == a.facts.Target()
    && row.resultCode == Some(a.facts.code) && row.resultDescription == Some(a.facts.description)
    && row.mpesaReceiptNumber == a.facts.Receipt()
    && Agrees(a.facts, row)
  }

  ghost predicate Explained(row: Transaction, applied: seq<Applied>) {
    exists k :: 0 <= k < |applied| && Explains(applied[k], row)
  }

  ghost predicate Explaining(a: Applied, rows: Rows) {
    exists i :: 0 <= i < |rows| && Explains(a, rows[i])
  }

  ghost predicate AllExplaining(applied: seq<Applied>, rows: Rows) {
    forall k :: 0 <= k < |applied| ==> Explaining(applied[k], rows)
  }

  ghost predicate AllExplained(rows: Rows, applied: seq<Applied>) {
    forall i :: 0 <= i < |rows| && rows[i].status != Pending ==> Explained(rows[i], applied)
  }

  ghost predicate DistinctTargets(applied: seq<Applied>) {
    forall k, l :: 0 <= k < l < |applied| ==> applied[k].transactionId != applied[l].transactionId
  }

  /** Settled transactions and applied callbacks correspond one to one. */
  ghost predicate AppliedOk(rows: Rows, applied: seq<Applied>) {
    AllExplaining(applied, rows) && AllExplained(rows, applied) && DistinctTargets(applied)
  }

  lemma ExplainingKept(a: Applied, rows: Rows, rows': Rows, i: nat)
    requires Explaining(a, rows) && i <= |rows| <= |rows'|
    requires forall j :: 0 <= j < |rows| && j != i ==> rows'[j] == rows[j]
    requires i < |rows| ==> rows[i].status == Pending
    ensures Explaining(a, rows')
    ensures i < |rows| && DistinctIds(rows) ==> a.transactionId != rows[i].transactionId
  {
    var j :| 0 <= j < |rows| && Explains(a, rows[j]);
    assert j != i;
    assert Explains(a, rows'[j]);
  }

  lemma ExplainedKept(row: Transaction, applied: seq<Applied>, a: Applied)
    requires Explained(row, applied) || Explains(a, row)
    ensures Explained(row, applied + [a])
  {
    var all := applied + [a];
    if Explains(a, row) {
      assert all[|applied|] == a;
    } else {
      var k :| 0 <= k < |applied| && Explains(applied[k], row);
      assert all[k] == applied[k];
    }
  }

  lemma AppliedKeptByAppend(rows: Rows, row: Transaction, applied: seq<Applied>)
    requires AppliedOk(rows, applied) && row.status == Pending
    ensures AppliedOk(rows + [row], applied)
  {
    forall k | 0 <= k < |applied| ensures Explaining(applied[k], rows + [row]) {
      ExplainingKept(applied[k], rows, rows + [row], |rows|);
    }
  }

  lemma AppliedKeptBySettling(rows: Rows, i: nat, f: Facts, payload: Dict, now: Time, applied: seq<Applied>)
    requires AppliedOk(rows, applied) && DistinctIds(rows) && i < |rows| && rows[i].status == Pending
    requires f.checkout == rows[i].fields.checkoutRequestId && Agrees(f, rows[i])
    ensures AppliedOk(rows[i := Settled(rows[i], f.ToSettlement(), now)],
                      applied + [Applied(rows[i].transactionId, rows[i].createdAt, payload, f)])
  {
    var a := Applied(rows[i].transactionId, rows[i].createdAt, payload, f);
    var rows' := rows[i := Settled(rows[i], f.ToSettlement(), now)];
    SettledIsExplained(rows[i], f, payload, now);
    AllExplainingAfter(rows, rows', i, applied, a);
    AllExplainedAfter(rows, rows', i, applied, a);
  }

  lemma SettledIsExplained(row: Transaction, f: Facts, payload: Dict, now: Time)
    requires f.checkout == row.fields.checkoutRequestId && Agrees(f, row)
    ensures Explains(Applied(row.transactionId, row.createdAt, payload, f), Settled(row, f.ToSettlement(), now))
  {}

  lemma AllExplainingAfter(rows: Rows, rows': Rows, i: nat, applied: seq<Applied>, a: Applied)
    requires AllExplaining(applied, rows) && DistinctTargets(applied) && DistinctIds(rows)
    requires i < |rows| == |rows'| && rows' == rows[i := rows'[i]] && rows[i].status == Pending
    requires Explains(a, rows'[i]) && a.transactionId == rows[i].transactionId
    ensures AllExplaining(applied + [a], rows') && DistinctTargets(applied + [a])
  {
    forall k | 0 <= k < |applied|
      ensures Explaining(applied[k], rows') && applied[k].transactionId != a.transactionId
    {
      ExplainingKept(applied[k], rows, rows', i);
    }
    assert Explaining(a, rows');
  }

  lemma AllExplainedAfter(rows: Rows, rows': Rows, i: nat, applied: seq<Applied>, a: Applied)
    requires AllExplained(rows, applied) && i < |rows| == |rows'| && rows' == rows[i := rows'[i]] && Explains(a, rows'[i])
    ensures AllExplained(rows', applied + [a])
  {
    forall j | 0 <= j < |rows'| && rows'[j].status != Pending ensures Explained(rows'[j], applied + [a]) {
      ExplainedKept(rows'[j], applied, a);
    }
  }

  // ---------------------------------------------------------------- the invariant of every run

  ghost predicate Invariant(s: Configuration, w: World) {
    && Approvals.Invariant(s.payments.approvals, w.books.approvals)
    && PayloadsOk(s, w.books.approvals)
    && RowsOk(w.books.rows) && LedgerOk(w.books)
    && ExecutionsOk(w.books.approvals, w.executions)
    && OriginsOk(s, w.books.approvals, w.executions, w.books.rows)
    && AppliedOk(w.books.rows, w.applied)
  }

  /** How a state can differ from an earlier one: approvals evolve and never become pending
      again, transactions keep their place and identity and are frozen once settled, and
      histories only grow. */
  ghost predicate Extends(w: World, v: World) {
    && Approvals.StoreEvolves(w.books.approvals, v.books.approvals)
    && RowsExtend(w.books.rows, v.books.rows)
    && w.executions <= v.executions && w.applied <= v.applied
  }

  ghost predicate RowsExtend(rows: Rows, rows': Rows) {
    && |rows| <= |rows'|
    && forall i :: 0 <= i < |rows| ==> RowMoves(rows[i], rows'[i])
  }

  predicate RowMoves(a: Transaction, b: Transaction) {
    SameIdentity(a, b) && (a.status != Pending ==> b == a)
  }

  /** A step that only touches approvals, the rest of the log, and the replay table. */
  lemma QuietStep(s: Configuration, w: World, v: World, more: seq<AuditEvent>)
    requires Invariant(s, w)
    requires v.books.rows == w.books.rows && v.books.calls == w.books.calls
    requires v.books.events == w.books.events + more && forall e :: e in more ==> !e.StkPushInitiated?
    requires v.books.counts.successfulPayments == w.books.counts.successfulPayments
    requires v.executions == w.executions && v.applied == w.applied
    requires Approvals.Invariant(s.payments.approvals, v.books.approvals) && PayloadsOk(s, v.books.approvals)
    requires Approvals.StoreEvolves(w.books.approvals, v.books.approvals)
    ensures Invariant(s, v) && Extends(w, v)
  {
    LedgerIgnores(w.books, v.books, more);
    EvolutionKeepsExecutions(w.books.approvals, v.books.approvals, w.executions);
    OriginsKept(s, w.books.approvals, v.books.approvals, w.executions, [], w.books.rows, v.books.rows);
    assert w.executions + [] == v.executions;
  }

  lemma EvolutionKeepsPayloads(s: Configuration, store: Approvals.Store, next: Approvals.Store)
    requires PayloadsOk(s, store) && Approvals.StoreEvolves(store, next) && next.entries.Keys == store.entries.Keys
    ensures PayloadsOk(s, next)
  {
    forall id | id in next.entries ensures PayloadOk(s, next.entries[id].payload) {
      assert Approvals.Evolves(store.entries[id], next.entries[id]);
    }
  }

  lemma ReviewsAreQuiet(store: Approvals.Store, id: string, operator: string, clock: Clock)
    requires Approvals.WellFormed(store)
    ensures var step := Approvals.ApproveStep(store, id, operator, clock);
      step.store.entries.Keys == store.entries.Keys && forall e :: e in step.events ==> !e.StkPushInitiated?
    ensures var step := Approvals.RejectStep(store, id, clock);
      step.store.entries.Keys == store.entries.Keys && forall e :: e in step.events ==> !e.StkPushInitiated?
  {}

  /** A review step of the approval service that keeps its invariant. */
  lemma ReviewStep(s: Configuration, w: World, step: Approvals.Step)
    requires Invariant(s, w)
    requires Approvals.Invariant(s.payments.approvals, step.store) && Approvals.StoreEvolves(w.books.approvals, step.store)
    requires step.store.entries.Keys == w.books.approvals.entries.Keys
    requires forall e :: e in step.events ==> !e.StkPushInitiated?
    ensures var v := w.(books := AfterReview(w.books, step)); Invariant(s, v) && Extends(w, v)
  {
    EvolutionKeepsPayloads(s, w.books.approvals, step.store);
    QuietStep(s, w, w.(books := AfterReview(w.books, step)), step.events);
  }

  lemma ApproveReview(s: Configuration, w: World, id: string, operator: string, clock: Clock)
    requires Invariant(s, w)
    ensures var v := w.(books := AfterReview(w.books, Approvals.ApproveStep(w.books.approvals, id, operator, clock)));
      Invariant(s, v) && Extends(w, v)
  {
    ReviewsAreQuiet(w.books.approvals, id, operator, clock);
    Approvals.ApproveKeeps(s.payments.approvals, w.books.approvals, id, operator, clock);
    ReviewStep(s, w, Approvals.ApproveStep(w.books.approvals, id, operator, clock));
  }

  lemma RejectReview(s: Configuration, w: World, id: string, clock: Clock)
    requires Invariant(s, w)
    ensures var v := w.(books := AfterReview(w.books, Approvals.RejectStep(w.books.approvals, id, clock)));
      Invariant(s, v) && Extends(w, v)
  {
    ReviewsAreQuiet(w.books.approvals, id, "", clock);
    Approvals.RejectKeeps(s.payments.approvals, w.books.approvals, id, clock);
    ReviewStep(s, w, Approvals.RejectStep(w.books.approvals, id, clock));
  }

  lemma ExpiryStep(s: Configuration, w: World, clock: Clock)
    requires Invariant(s, w)
    ensures var v := w.(books := AfterExpiry(w.books, clock)); Invariant(s, v) && Extends(w, v)
  {
    var v := w.(books := AfterExpiry(w.books, clock));
    Approvals.ExpireKeeps(s.payments.approvals, w.books.approvals, clock);
    EvolutionKeepsPayloads(s, w.books.approvals, v.books.approvals);
    ExpiryEventsAreExpiries(Approvals.Snapshot(w.books.approvals), clock);
    QuietStep(s, w, v, Approvals.ExpiryEvents(Approvals.Snapshot(w.books.approvals), clock));
  }

  lemma AppendExtends(rows: Rows, row: Transaction)
    ensures RowsExtend(rows, rows) && RowsExtend(rows, rows + [row])
  {}

  /** What an execution does to the transactions and the ledger. */
  lemma PaymentRows(b: Books, applied: seq<Applied>, q: Request, answer: Answer, newId: string, now: Time)
    requires RowsOk(b.rows) && LedgerOk(b) && AppliedOk(b.rows, applied) && NewId(b.rows, newId) && q.amount > 0
    ensures var c := Executed(b, q, answer, newId, now);
      RowsOk(c.rows) && LedgerOk(c) && AppliedOk(c.rows, applied) && RowsExtend(b.rows, c.rows)
  {
    ExecutedKeeps(b, q, answer, newId, now);
    if Unused(b.rows, q.idempotencyKey) && answer.Accepted? {
      var row := NewTransaction(newId, FieldsOf(q, answer.initiation), now);
      AppliedKeptByAppend(b.rows, row, applied);
      AppendExtends(b.rows, row);
    } else {
      AppendExtends(b.rows, NewTransaction(newId, FieldsOf(q, Initiation("", "", "", "", None, None, "", "")), now));
    }
  }

  /** What it does to the origins; an over-limit one needs its origin recorded. */
  lemma PaymentOrigins(s: Configuration, b: Books, executions: seq<Execution>, more: seq<Execution>,
                       q: Request, answer: Answer, newId: string, now: Time)
    requires RowsOk(b.rows) && LedgerOk(b) && NewId(b.rows, newId) && q.amount > 0
    requires OriginsOk(s, b.approvals, executions, b.rows)
    requires OriginRecorded(s, b, more, q, answer, newId)
    ensures OriginsOk(s, b.approvals, executions + more, Executed(b, q, answer, newId, now).rows)
  {
    ExecutedKeeps(b, q, answer, newId, now);
    if Unused(b.rows, q.idempotencyKey) && answer.Accepted? {
      NewRowOrigin(s, b.approvals, executions, more, b.rows, q, answer.initiation, newId, now);
    } else {
      SameRowsOrigin(s, b.approvals, executions, more, b.rows);
    }
  }

  lemma NewRowOrigin(s: Configuration, store: Approvals.Store, executions: seq<Execution>, more: seq<Execution>,
                     rows: Rows, q: Request, i: Initiation, newId: string, now: Time)
    requires OriginsOk(s, store, executions, rows)
    requires q.amount > s.payments.maxStkAmount ==>
      |more| == 1 && more[0].created == Some(newId) && more[0].approvalId in store.entries
      && store.entries[more[0].approvalId].payload == PayloadOf(q)
    ensures OriginsOk(s, store, executions + more, rows + [NewTransaction(newId, FieldsOf(q, i), now)])
  {
    var row := NewTransaction(newId, FieldsOf(q, i), now);
    assert RequestOfRow(row) == q;
    OriginsKept(s, store, store, executions, more, rows, rows + [row]);
  }

  lemma SameRowsOrigin(s: Configuration, store: Approvals.Store, executions: seq<Execution>, more: seq<Execution>,
                       rows: Rows)
    requires OriginsOk(s, store, executions, rows)
    ensures OriginsOk(s, store, executions + more, rows)
  {
    OriginsKept(s, store, store, executions, more, rows, rows);
  }

  ghost predicate OriginRecorded(
    s: Configuration, b: Books, more: seq<Execution>, q: Request, answer: Answer, newId: string)
  {
    Unused(b.rows, q.idempotencyKey) && answer.Accepted? && q.amount > s.payments.maxStkAmount ==>
      && |more| == 1 && more[0].created == Some(newId) && more[0].approvalId in b.approvals.entries
      && b.approvals.entries[more[0].approvalId].payload == PayloadOf(q)
  }

  /** An execution from a state of the invariant. */
  lemma PaymentStep(s: Configuration, w: World, q: Request, answer: Answer, newId: string, now: Time,
                    more: seq<Execution>)
    requires Invariant(s, w) && NewId(w.books.rows, newId) && q.amount > 0
    requires ExecutionsOk(w.books.approvals, w.executions + more)
    requires OriginRecorded(s, w.books, more, q, answer, newId)
    ensures var v := w.(books := Executed(w.books, q, answer, newId, now), executions := w.executions + more);
      Invariant(s, v) && Extends(w, v)
  {
    PaymentRows(w.books, w.applied, q, answer, newId, now);
    PaymentOrigins(s, w.books, w.executions, more, q, answer, newId, now);
    StoreUnchanged(w.books, q, answer, newId, now);
  }

  lemma StoreUnchanged(b: Books, q: Request, answer: Answer, newId: string, now: Time)
    ensures Executed(b, q, answer, newId, now).approvals == b.approvals
    ensures Approvals.StoreEvolves(b.approvals, b.approvals)
  {}

  lemma PushStep(s: Configuration, w: World, e: Event)
    requires Invariant(s, w) && e.PushEvent? && Admissible(w, e)
    ensures Invariant(s, Step(s, w, e)) && Extends(w, Step(s, w, e))
  {
    var v := Step(s, w, e);
    match Judged(s.payments, e.push) {
      case Blocked =>
        NothingChanges(w);
      case Allowed =>
        assert w.executions + [] == w.executions;
        PaymentStep(s, w, Resolved(s.payments, e.push), e.answer, e.newId, e.clock(0), []);
      case ApprovalRequired =>
        var a := RequestedApproval(s.payments, e.push, e.newApprovalId, e.clock);
        Approvals.CreateKeeps(s.payments.approvals, w.books.approvals, e.newApprovalId, a.action, a.payload, a.reason,
                              e.clock);
        assert PayloadOk(s, a.payload);
        QuietStep(s, w, v, [ApprovalCreated(e.newApprovalId, a.requiredReviewers)]);
    }
  }

  /** What a settling callback does to the transactions, the ledger and the origins. */
  lemma SettlingRows(b: Books, i: nat, f: Facts, payload: Dict, now: Time, applied: seq<Applied>, c: Books,
                     e: AuditEvent)
    requires RowsOk(b.rows) && LedgerOk(b) && AppliedOk(b.rows, applied)
    requires i < |b.rows| && b.rows[i].status == Pending
    requires f.checkout == b.rows[i].fields.checkoutRequestId && Agrees(f, b.rows[i])
    requires c.rows == b.rows[i := Settled(b.rows[i], f.ToSettlement(), now)] && c.calls == b.calls
    requires c.events == b.events + [e] && !e.StkPushInitiated?
    requires c.counts.successfulPayments == b.counts.successfulPayments
    ensures RowsOk(c.rows) && LedgerOk(c) && RowsExtend(b.rows, c.rows)
    ensures AppliedOk(c.rows, applied + [Applied(b.rows[i].transactionId, b.rows[i].createdAt, payload, f)])
  {
    SettlingKeeps(b, i, f, now);
    LedgerIgnores(b.(rows := c.rows), c, [e]);
    AppliedKeptBySettling(b.rows, i, f, payload, now, applied);
    SettledExtends(b.rows, i, f.ToSettlement(), now);
  }

  lemma SettlingStep(s: Configuration, w: World, i: nat, f: Facts, payload: Dict, now: Time, v: World, e: AuditEvent)
    requires Invariant(s, w)
    requires i < |w.books.rows| && w.books.rows[i].status == Pending
    requires f.checkout == w.books.rows[i].fields.checkoutRequestId && Agrees(f, w.books.rows[i])
    requires v.books.rows == w.books.rows[i := Settled(w.books.rows[i], f.ToSettlement(), now)]
    requires v.applied == w.applied + [Applied(w.books.rows[i].transactionId, w.books.rows[i].createdAt, payload, f)]
    requires v.books.approvals == w.books.approvals && v.executions == w.executions && v.books.calls == w.books.calls
    requires v.books.counts.successfulPayments == w.books.counts.successfulPayments
    requires v.books.events == w.books.events + [e] && !e.StkPushInitiated?
    ensures Invariant(s, v) && Extends(w, v)
  {
    SettlingRows(w.books, i, f, payload, now, w.applied, v.books, e);
    SettledExtends(w.books.rows, i, f.ToSettlement(), now);
    OriginsKept(s, w.books.approvals, w.books.approvals, w.executions, [], w.books.rows, v.books.rows);
    assert w.executions + [] == w.executions;
  }

  lemma SettledExtends(rows: Rows, i: nat, t: Settlement, now: Time)
    requires i < |rows| && rows[i].status == Pending
    ensures RowsExtend(rows, rows[i := Settled(rows[i], t, now)])
    ensures forall j :: 0 <= j < |rows| ==> SameIdentity(rows[j], rows[i := Settled(rows[i], t, now)][j])
  {}

  lemma CallbackStep(s: Configuration, w: World, e: Event)
    requires Invariant(s, w) && e.CallbackEvent?
    ensures Invariant(s, Step(s, w, e)) && Extends(w, Step(s, w, e))
  {
    var v := Step(s, w, e);
    var verdict := Judge(w.books.rows, e.payload);
    if !CallbackRoutes.Passes(s.routes, w.seen, e.payload, e.arrivedAt) {
      QuietStep(s, w, v, [CallbackDuplicate(Replay.ReplayKey(s.routes.hash, e.payload))]);
    } else if !verdict.Settles? {
      QuietStep(s, w, v, [EventOf(verdict)]);
    } else {
      SettlesOnlyMatchingPending(w.books.rows, e.payload, e.settledAt);
      SettlingStep(s, w, IndexOfCheckout(w.books.rows, verdict.facts.checkout), verdict.facts, e.payload, e.settledAt, v,
                   EventOf(verdict));
    }
  }

  /** An execution that gets as far as the review, and maybe on to the payment. */
  lemma ReviewedExecuteStep(s: Configuration, w: World, e: Event)
    requires Invariant(s, w) && e.ExecuteEvent? && Admissible(w, e)
    requires e.approvalId in w.books.approvals.entries
    requires !Approvals.IsExpired(w.books.approvals.entries[e.approvalId], e.at.checkedAt)
    requires w.books.approvals.entries[e.approvalId].status == Approvals.Pending
    ensures Invariant(s, Step(s, w, e)) && Extends(w, Step(s, w, e))
  {
    var review := Approvals.ApproveStep(w.books.approvals, e.approvalId, e.operator, e.at.review);
    ApproveReview(s, w, e.approvalId, e.operator, e.at.review);
    if review.response.outcome == Approvals.WasApproved {
      CompletedReviewStep(s, w, e, w.(books := AfterReview(w.books, review)));
    } else {
      assert Step(s, w, e) == w.(books := AfterReview(w.books, review));
    }
  }

  /** Where an execution stops before the review. */
  lemma ExecuteStopsEarly(w: World, e: Event)
    requires e.ExecuteEvent?
    ensures e.approvalId !in w.books.approvals.entries ==> AfterExecuteEvent(w, e) == w
    ensures e.approvalId in w.books.approvals.entries ==>
      var a := w.books.approvals.entries[e.approvalId];
      if Approvals.IsExpired(a, e.at.checkedAt)
      then AfterExecuteEvent(w, e) == w.(books := AfterExpiry(w.books, e.at.review))
      else a.status != Approvals.Pending ==> AfterExecuteEvent(w, e) == w
  {}

  lemma ExecuteStep(s: Configuration, w: World, e: Event)
    requires Invariant(s, w) && e.ExecuteEvent? && Admissible(w, e)
    ensures Invariant(s, Step(s, w, e)) && Extends(w, Step(s, w, e))
  {
    ExecuteStopsEarly(w, e);
    NothingChanges(w);
    if e.approvalId in w.books.approvals.entries {
      var a := w.books.approvals.entries[e.approvalId];
      if Approvals.IsExpired(a, e.at.checkedAt) {
        ExpiryStep(s, w, e.at.review);
      } else if a.status == Approvals.Pending {
        ReviewedExecuteStep(s, w, e);
      }
    }
  }

  lemma NothingChanges(w: World)
    ensures Extends(w, w)
  {}

  /** The record of an execution joins the earlier ones: its approval was pending until now. */
  lemma RecordJoins(store: Approvals.Store, next: Approvals.Store, executions: seq<Execution>, record: Execution)
    requires ExecutionsOk(store, executions) && ExecutionsOk(next, executions)
    requires record.approvalId in store.entries && store.entries[record.approvalId].status == Approvals.Pending
    requires ReviewedInTime(next, record)
    ensures ExecutionsOk(next, executions + [record])
  {
    forall k | 0 <= k < |executions| ensures executions[k].approvalId != record.approvalId {
      assert ReviewedInTime(store, executions[k]);
    }
  }

  /** The payload that a completing review releases, and its record. */
  lemma CompletedReviewStep(s: Configuration, w: World, e: Event, u: World)
    requires Invariant(s, w) && e.ExecuteEvent? && Admissible(w, e)
    requires Completes(w.books, e.approvalId, e.operator, e.at)
    requires u == w.(books := AfterReview(w.books,
                                          Approvals.ApproveStep(w.books.approvals, e.approvalId, e.operator, e.at.review)))
    requires Invariant(s, u) && Extends(w, u)
    ensures Invariant(s, Step(s, w, e)) && Extends(w, Step(s, w, e))
  {
    var id := e.approvalId;
    Approvals.ApprovedMeansReviewedInTime(s.payments.approvals, w.books.approvals, id, e.operator, e.at.review);
    assert PayloadOk(s, w.books.approvals.entries[id].payload);
    var q := RequestOf(w.books.approvals.entries[id].payload);
    var c := Executed(u.books, q, e.answer, e.newId, e.at.storedAt);
    var record := Execution(id, e.at.review(0), if |c.rows| > |w.books.rows| then Some(e.newId) else None);
    var v := u.(books := c, executions := u.executions + [record]);
    assert Step(s, w, e) == v;
    assert Approvals.Evolves(w.books.approvals.entries[id], u.books.approvals.entries[id]);
    RecordJoins(w.books.approvals, u.books.approvals, w.executions, record);
    ExecutedKeeps(u.books, q, e.answer, e.newId, e.at.storedAt);
    PaymentStep(s, u, q, e.answer, e.newId, e.at.storedAt, [record]);
    ExtensionComposes(w, u, v);
  }

  lemma ExtensionComposes(w: World, u: World, v: World)
    requires Extends(w, u) && Extends(u, v)
    ensures Extends(w, v)
  {
    Approvals.EvolutionComposes(w.books.approvals, u.books.approvals, v.books.approvals);
    forall i | 0 <= i < |w.books.rows| ensures RowMoves(w.books.rows[i], v.books.rows[i]) {
      assert RowMoves(w.books.rows[i], u.books.rows[i]) && RowMoves(u.books.rows[i], v.books.rows[i]);
    }
  }

  lemma StepKeeps(s: Configuration, w: World, e: Event)
    requires Invariant(s, w) && Admissible(w, e)
    ensures Invariant(s, Step(s, w, e)) && Extends(w, Step(s, w, e))
  {
    match e {
      case PushEvent(_, _, _, _, _) => PushStep(s, w, e);
      case ExecuteEvent(_, _, _, _, _) => ExecuteStep(s, w, e);
      case ApproveEvent(id, operator, clock) => ApproveReview(s, w, id, operator, clock);
      case RejectEvent(id, clock) => RejectReview(s, w, id, clock);
      case ExpireEvent(clock) => ExpiryStep(s, w, clock);
      case CallbackEvent(_, _, _) => CallbackStep(s, w, e);
    }
  }

  lemma StartIsRegular(s: Configuration)
    ensures Invariant(s, START)
  {}

  lemma RunStarts(s: Configuration, es: seq<Event>, ws: seq<World>)
    requires IsRun(s, es, ws)
    ensures Invariant(s, ws[0])
  {
    StartIsRegular(s);
  }

  lemma RunSteps(s: Configuration, es: seq<Event>, ws: seq<World>, n: nat)
    requires IsRun(s, es, ws) && n < |es| && Invariant(s, ws[n])
    ensures Invariant(s, ws[n + 1]) && Extends(ws[n], ws[n + 1])
  {
    StepKeeps(s, ws[n], es[n]);
  }

  /** Every state of every run satisfies the invariant. */
  lemma {:induction false} RunKeepsInvariant(s: Configuration, es: seq<Event>, ws: seq<World>, n: nat)
    requires IsRun(s, es, ws) && n <= |es|
    ensures Invariant(s, ws[n])
    decreases n
  {
    if n == 0 {
      RunStarts(s, es, ws);
    } else {
      RunKeepsInvariant(s, es, ws, n - 1);
      RunSteps(s, es, ws, n - 1);
    }
  }

  /** A state extends every earlier state of its run. */
  lemma {:induction false} RunExtends(s: Configuration, es: seq<Event>, ws: seq<World>, m: nat, n: nat)
    requires IsRun(s, es, ws) && m <= n <= |es|
    ensures Extends(ws[m], ws[n])
    decreases n
  {
    if m == n {
      NothingChanges(ws[n]);
    } else {
      RunExtends(s, es, ws, m, n - 1);
      RunKeepsInvariant(s, es, ws, n - 1);
      RunSteps(s, es, ws, n - 1);
      ExtensionComposes(ws[m], ws[n - 1], ws[n]);
    }
  }
}
