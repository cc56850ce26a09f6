/** The recorded histories of a run are its events: who reviewed, what was executed, and which
    callbacks were applied. */
module Histories {
  import opened Common
  import opened TransactionStates
  import opened TransactionRepository
  import opened Audit
  import opened Callbacks
  import opened Payments
  import opened Lifecycle
  import opened LifecycleTheorems
  import Approvals
  import CallbackRoutes

  // ---------------------------------------------------------------- executions

  /** An event that executes an approval, and its record. */
  predicate Performs(w: World, e: Event, x: Execution) {
    && Executes(w, e) && e.approvalId == x.approvalId && e.at.review(0) == x.reviewedAt
    && AfterExecuteEvent(w, e).executions == w.executions + [x]
  }

  lemma NewExecution(s: Configuration, w: World, e: Event)
    ensures var more := Step(s, w, e).executions;
      more == w.executions
      || (|more| == |w.executions| + 1 && w.executions <= more && Performs(w, e, more[|w.executions|]))
  {
    assert w.executions + [] == w.executions;
  }

  lemma ExecutionsGrow(s: Configuration, es: seq<Event>, ws: seq<World>, n: nat)
    requires IsRun(s, es, ws) && n < |es|
    ensures var before, more := ws[n].executions, ws[n + 1].executions;
      more == before || (|more| == |before| + 1 && before <= more && Performs(ws[n], es[n], more[|before|]))
  {
    NewExecution(s, ws[n], es[n]);
  }

  /** Every recorded execution is an event of the run. */
  lemma {:induction false} ExecutionsAreEvents(s: Configuration, es: seq<Event>, ws: seq<World>, n: nat, k: nat)
    returns (m: nat)
    requires IsRun(s, es, ws) && n <= |es| && k < |ws[n].executions|
    ensures m < n && Performs(ws[m], es[m], ws[n].executions[k])
    decreases n
  {
    ExecutionsGrow(s, es, ws, n - 1);
    if k < |ws[n - 1].executions| {
      m := ExecutionsAreEvents(s, es, ws, n - 1, k);
      assert ws[n].executions[k] == ws[n - 1].executions[k];
    } else {
      m := n - 1;
    }
  }

  // ---------------------------------------------------------------- applied callbacks

  /** A callback event that gets past the replay check and settles a pending transaction. */
  predicate Applies(s: Configuration, w: World, e: Event, a: Applied) {
    && e.CallbackEvent? && e.payload == a.payload
    && CallbackRoutes.Passes(s.routes, w.seen, e.payload, e.arrivedAt)
    && var v := Judge(w.books.rows, e.payload);
       && v.Settles? && v.row.status == Pending && v.facts == a.facts
       && v.row.transactionId == a.transactionId && v.row.createdAt == a.createdAt
  }

  lemma NewApplied(s: Configuration, w: World, e: Event)
    requires DistinctIds(w.books.rows)
    ensures AppliedGrow(s, w, e, Step(s, w, e))
  {
    assert w.applied + [] == w.applied;
    if e.CallbackEvent? {
      SettlesOnlyMatchingPending(w.books.rows, e.payload, e.settledAt);
    }
  }

  /** A step applies no callback, or its own. */
  ghost predicate AppliedGrow(s: Configuration, w: World, e: Event, v: World) {
    || v.applied == w.applied
    || (|v.applied| == |w.applied| + 1 && w.applied <= v.applied && Applies(s, w, e, v.applied[|w.applied|]))
  }

  lemma {:induction false} AppliedByInduction(s: Configuration, es: seq<Event>, ws: seq<World>, n: nat, k: nat)
    returns (m: nat)
    requires |ws| == |es| + 1 && n <= |es| && ws[0].applied == [] && k < |ws[n].applied|
    requires forall i {:trigger es[i]} :: 0 <= i < n ==> AppliedGrow(s, ws[i], es[i], ws[i + 1])
    ensures m < n && Applies(s, ws[m], es[m], ws[n].applied[k])
    decreases n
  {
    assert AppliedGrow(s, ws[n - 1], es[n - 1], ws[n]);
    if k < |ws[n - 1].applied| {
      m := AppliedByInduction(s, es, ws, n - 1, k);
      assert ws[n].applied[k] == ws[n - 1].applied[k];
    } else {
      m := n - 1;
    }
  }

  /** Every recorded callback is an event of the run. */
  lemma AppliedAreEvents(s: Configuration, es: seq<Event>, ws: seq<World>, n: nat, k: nat) returns (m: nat)
    requires IsRun(s, es, ws) && n <= |es| && k < |ws[n].applied|
    ensures m < n && Applies(s, ws[m], es[m], ws[n].applied[k])
  {
    forall i {:trigger es[i]} | 0 <= i < n ensures AppliedGrow(s, ws[i], es[i], ws[i + 1]) {
      RunKeepsInvariant(s, es, ws, i);
      NewApplied(s, ws[i], es[i]);
    }
    m := AppliedByInduction(s, es, ws, n, k);
  }

  // ---------------------------------------------------------------- reviewers

  /** An approval or an execution by this operator, checked at `CheckedAt`. */
  predicate Reviews(e: Event, id: string, operator: string) {
    (e.ApproveEvent? || e.ExecuteEvent?) && e.approvalId == id && e.operator == operator
  }

  function CheckedAt(e: Event): Time
    requires e.ApproveEvent? || e.ExecuteEvent?
  {
    if e.ApproveEvent? then e.clock(0) else e.at.review(0)
  }

  predicate HasReviewer(store: Approvals.Store, id: string, operator: string) {
    id in store.entries && operator in store.entries[id].reviewerIds
  }

  lemma ReviewAddsOperator(store: Approvals.Store, id: string, operator: string, clock: Clock,
                           other: string, reviewer: string)
    requires Approvals.WellFormed(store)
    requires HasReviewer(Approvals.ApproveStep(store, id, operator, clock).store, other, reviewer)
    requires !HasReviewer(store, other, reviewer)
    ensures other == id && reviewer == operator && id in store.entries && clock(0) < store.entries[id].expiresAt
  {
    var a := store.entries[id];
    if !Approvals.IsExpired(a, clock(0)) && a.status == Approvals.Pending && operator !in a.reviewerIds {
      assert Approvals.Reviewed(a, operator, clock(1)).reviewerIds == a.reviewerIds + [operator];
    }
  }

  lemma SweepAddsNobody(store: Approvals.Store, clock: Clock, id: string, reviewer: string)
    requires Approvals.WellFormed(store)
    ensures HasReviewer(Approvals.ExpireStale(store, clock), id, reviewer) ==> HasReviewer(store, id, reviewer)
  {
    Approvals.SweepIsPointwise(store, clock);
    if id in store.entries && store.entries[id].status == Approvals.Pending {
      var pending := Approvals.Snapshot(store);
      var i :| 0 <= i < |pending| && pending[i] == store.entries[id];
      assert Approvals.ExpireStale(store, clock).entries[pending[i].approvalId]
          == Approvals.Aged(pending[i], clock(2 * i), clock(2 * i + 1));
    }
  }

  lemma NewReviewer(s: Configuration, w: World, e: Event, id: string, reviewer: string)
    requires Invariant(s, w) && Admissible(w, e)
    requires HasReviewer(Step(s, w, e).books.approvals, id, reviewer) && !HasReviewer(w.books.approvals, id, reviewer)
    ensures Reviews(e, id, reviewer) && id in w.books.approvals.entries
    ensures CheckedAt(e) < w.books.approvals.entries[id].expiresAt
  {
    var store := w.books.approvals;
    match e {
      case PushEvent(_, _, _, _, _) =>
      case ExecuteEvent(approvalId, operator, at, _, _) =>
        ExecutionReviews(s, w, e);
        if approvalId in store.entries && Approvals.IsExpired(store.entries[approvalId], at.checkedAt) {
          SweepAddsNobody(store, at.review, id, reviewer);
        } else {
          ReviewAddsOperator(store, approvalId, operator, at.review, id, reviewer);
        }
      case ApproveEvent(approvalId, operator, clock) =>
        ReviewAddsOperator(store, approvalId, operator, clock, id, reviewer);
      case RejectEvent(_, _) =>
      case ExpireEvent(clock) =>
        SweepAddsNobody(store, clock, id, reviewer);
      case CallbackEvent(_, _, _) =>
    }
  }

  /** What an execution does to the approvals. */
  lemma ExecutionReviews(s: Configuration, w: World, e: Event)
    requires e.ExecuteEvent?
    ensures var store, next := w.books.approvals, Step(s, w, e).books.approvals;
      if e.approvalId in store.entries && Approvals.IsExpired(store.entries[e.approvalId], e.at.checkedAt)
      then next == Approvals.ExpireStale(store, e.at.review)
      else next == store || next == Approvals.ApproveStep(store, e.approvalId, e.operator, e.at.review).store
  {}

  /** Every reviewer of an approval approved or executed it in an event of the run, whose expiry
      check came before the request expired. */
  lemma {:induction false} ReviewersActed(
    s: Configuration, es: seq<Event>, ws: seq<World>, n: nat, id: string, reviewer: string) returns (m: nat)
    requires IsRun(s, es, ws) && n <= |es| && HasReviewer(ws[n].books.approvals, id, reviewer)
    ensures m < n && Reviews(es[m], id, reviewer)
    ensures CheckedAt(es[m]) < ws[n].books.approvals.entries[id].expiresAt
    decreases n
  {
    RunExtends(s, es, ws, n - 1, n);
    RunKeepsInvariant(s, es, ws, n - 1);
    if HasReviewer(ws[n - 1].books.approvals, id, reviewer) {
      m := ReviewersActed(s, es, ws, n - 1, id, reviewer);
    } else {
      NewReviewer(s, ws[n - 1], es[n - 1], id, reviewer);
      m := n - 1;
    }
    assert Approvals.Evolves(ws[n - 1].books.approvals.entries[id], ws[n].books.approvals.entries[id]);
  }

  // ---------------------------------------------------------------- approvals created

  /** How many approval requests a log records. */
  function Creations(events: seq<AuditEvent>): nat {
    if events == [] then 0
    else Creations(events[..|events| - 1]) + if events[|events| - 1].ApprovalCreated? then 1 else 0
  }

  lemma {:induction false} OtherEvents(events: seq<AuditEvent>, more: seq<AuditEvent>)
    requires forall e :: e in more ==> !e.ApprovalCreated?
    ensures Creations(events + more) == Creations(events)
  {
    if more == [] {
      assert events + more == events;
    } else {
      var n := |more| - 1;
      assert (events + more)[..|events| + n] == events + more[..n];
      OtherEvents(events, more[..n]);
    }
  }

  /** What a step adds to the log besides approval requests. */
  lemma PaymentLogs(b: Books, q: Request, answer: Answer, newId: string, now: Time)
    ensures var c := Executed(b, q, answer, newId, now);
      c.approvals == b.approvals && Creations(c.events) == Creations(b.events)
  {
    if answer.Accepted? && Unused(b.rows, q.idempotencyKey) {
      OtherEvents(b.events, [InitiatedEvent(NewTransaction(newId, FieldsOf(q, answer.initiation), now))]);
    }
  }

  lemma ReviewLogs(b: Books, step: Approvals.Step)
    requires forall e :: e in step.events ==> !e.ApprovalCreated?
    ensures Creations(AfterReview(b, step).events) == Creations(b.events)
  {
    OtherEvents(b.events, step.events);
  }

  /** Reviews change no id and log no approval request. */
  lemma ReviewsCreateNothing(store: Approvals.Store, id: string, operator: string, clock: Clock)
    requires Approvals.WellFormed(store)
    ensures var step := Approvals.ApproveStep(store, id, operator, clock);
      step.store.entries.Keys == store.entries.Keys && forall e :: e in step.events ==> !e.ApprovalCreated?
    ensures var step := Approvals.RejectStep(store, id, clock);
      step.store.entries.Keys == store.entries.Keys && forall e :: e in step.events ==> !e.ApprovalCreated?
  {}

  lemma SweepLogs(b: Books, clock: Clock)
    requires Approvals.WellFormed(b.approvals)
    ensures AfterExpiry(b, clock).approvals.entries.Keys == b.approvals.entries.Keys
    ensures Creations(AfterExpiry(b, clock).events) == Creations(b.events)
  {
    Approvals.SweepIsPointwise(b.approvals, clock);
    ExpiryEventsAreExpiries(Approvals.Snapshot(b.approvals), clock);
    OtherEvents(b.events, Approvals.ExpiryEvents(Approvals.Snapshot(b.approvals), clock));
  }

  lemma ExecutionLogs(s: Configuration, w: World, e: Event)
    requires e.ExecuteEvent? && Approvals.WellFormed(w.books.approvals)
    ensures var b, c := w.books, Step(s, w, e).books;
      c.approvals.entries.Keys == b.approvals.entries.Keys && Creations(c.events) == Creations(b.events)
  {
    ExecuteStopsEarly(w, e);
    if e.approvalId in w.books.approvals.entries {
      var a := w.books.approvals.entries[e.approvalId];
      if Approvals.IsExpired(a, e.at.checkedAt) {
        SweepLogs(w.books, e.at.review);
      } else if a.status == Approvals.Pending {
        var step := Approvals.ApproveStep(w.books.approvals, e.approvalId, e.operator, e.at.review);
        var u := AfterReview(w.books, step);
        ReviewsCreateNothing(w.books.approvals, e.approvalId, e.operator, e.at.review);
        ReviewLogs(w.books, step);
        if Executable(a.payload) {
          PaymentLogs(u, RequestOf(a.payload), e.answer, e.newId, e.at.storedAt);
        }
      }
    }
  }

  lemma PushCreates(s: Configuration, w: World, e: Event)
    requires Admissible(w, e) && e.PushEvent?
    ensures var b, c := w.books, Step(s, w, e).books;
      Creations(c.events) - Creations(b.events) == |c.approvals.entries| - |b.approvals.entries|
  {
    var b, c := w.books, Step(s, w, e).books;
    match Judged(s.payments, e.push) {
      case Blocked =>
      case Allowed => PaymentLogs(b, Resolved(s.payments, e.push), e.answer, e.newId, e.clock(0));
      case ApprovalRequired =>
        assert c.approvals.entries.Keys == b.approvals.entries.Keys + {e.newApprovalId};
        assert c.events[..|b.events|] == b.events;
    }
  }

  /** Only pushes create approvals. */
  lemma OthersCreateNothing(s: Configuration, w: World, e: Event)
    requires Approvals.WellFormed(w.books.approvals) && !e.PushEvent?
    ensures var b, c := w.books, Step(s, w, e).books;
      c.approvals.entries.Keys == b.approvals.entries.Keys && Creations(c.events) == Creations(b.events)
  {
    var b := w.books;
    match e {
      case ExecuteEvent(_, _, _, _, _) =>
        ExecutionLogs(s, w, e);
      case ApproveEvent(id, operator, clock) =>
        ReviewsCreateNothing(b.approvals, id, operator, clock);
        ReviewLogs(b, Approvals.ApproveStep(b.approvals, id, operator, clock));
      case RejectEvent(id, clock) =>
        ReviewsCreateNothing(b.approvals, id, "", clock);
        ReviewLogs(b, Approvals.RejectStep(b.approvals, id, clock));
      case ExpireEvent(clock) =>
        SweepLogs(b, clock);
      case CallbackEvent(_, _, _) =>
        assert Step(s, w, e).books.events[..|b.events|] == b.events;
    }
  }

  /** A step creates as many approvals as it logs. */
  lemma StepCreates(s: Configuration, w: World, e: Event)
    requires Approvals.WellFormed(w.books.approvals) && Admissible(w, e)
    ensures var b, c := w.books, Step(s, w, e).books;
      Creations(c.events) - Creations(b.events) == |c.approvals.entries| - |b.approvals.entries|
  {
    if e.PushEvent? {
      PushCreates(s, w, e);
    } else {
      OthersCreateNothing(s, w, e);
      assert |w.books.approvals.entries| == |w.books.approvals.entries.Keys|;
      assert |Step(s, w, e).books.approvals.entries| == |Step(s, w, e).books.approvals.entries.Keys|;
    }
  }

  lemma RunCreates(s: Configuration, es: seq<Event>, ws: seq<World>, n: nat)
    requires IsRun(s, es, ws) && n < |es|
    ensures Creations(ws[n + 1].books.events) - Creations(ws[n].books.events)
         == |ws[n + 1].books.approvals.entries| - |ws[n].books.approvals.entries|
  {
    RunKeepsInvariant(s, es, ws, n);
    StepCreates(s, ws[n], es[n]);
  }

  lemma {:induction false} CreatedAreStored(s: Configuration, es: seq<Event>, ws: seq<World>, n: nat)
    requires IsRun(s, es, ws) && n <= |es|
    ensures Creations(ws[n].books.events) == |ws[n].books.approvals.entries|
    decreases n
  {
    if n == 0 {
    } else {
      CreatedAreStored(s, es, ws, n - 1);
      RunCreates(s, es, ws, n - 1);
    }
  }

  /** In every run the pending, approved, rejected and expired approvals add up to the approval
      requests that were ever created: none is lost, and none is in two classes. */
  lemma CreatedApprovalsAddUp(s: Configuration, es: seq<Event>, ws: seq<World>, n: nat)
    requires IsRun(s, es, ws) && n <= |es|
    ensures var store := ws[n].books.approvals;
      Creations(ws[n].books.events)
      == |Approvals.WithStatus(store, Approvals.Pending)| + |Approvals.WithStatus(store, Approvals.Approved)|
         + |Approvals.WithStatus(store, Approvals.Rejected)| + |Approvals.WithStatus(store, Approvals.Expired)|
  {
    CreatedAreStored(s, es, ws, n);
    Approvals.StatusesPartition(ws[n].books.approvals);
  }

  // ---------------------------------------------------------------- stored transactions

  /** The event that stored a transaction: its id is the event's, and it was created at the
      event's reading of the clock, after the provider had answered. */
  predicate StoredBy(e: Event, row: Transaction) {
    match e
    case PushEvent(_, answer, newId, _, clock) =>
      answer.Accepted? && row.transactionId == newId && row.createdAt == clock(0)
    case ExecuteEvent(_, _, at, answer, newId) =>
      answer.Accepted? && row.transactionId == newId && row.createdAt == at.storedAt
    case _ => false
  }

  ghost predicate RowsGrow(w: World, e: Event, v: World) {
    || |v.books.rows| == |w.books.rows|
    || (|v.books.rows| == |w.books.rows| + 1 && StoredBy(e, v.books.rows[|w.books.rows|]))
  }

  lemma ExecutedGrows(b: Books, q: Request, answer: Answer, newId: string, now: Time)
    requires NewId(b.rows, newId)
    ensures var rows := Executed(b, q, answer, newId, now).rows;
      || |rows| == |b.rows|
      || (|rows| == |b.rows| + 1 && answer.Accepted?
          && rows[|b.rows|].transactionId == newId && rows[|b.rows|].createdAt == now)
  {
    assert IndexOfId(b.rows, newId) == |b.rows|;
  }

  lemma StepStores(s: Configuration, w: World, e: Event)
    requires Invariant(s, w) && Admissible(w, e)
    ensures RowsGrow(w, e, Step(s, w, e))
  {
    match e {
      case PushEvent(p, answer, newId, _, clock) =>
        if Judged(s.payments, p).Allowed? {
          ExecutedGrows(w.books, Resolved(s.payments, p), answer, newId, clock(0));
        }
      case ExecuteEvent(id, operator, at, answer, newId) =>
        if Completes(w.books, id, operator, at) {
          assert PayloadOk(s, w.books.approvals.entries[id].payload);
          var u := AfterReview(w.books, Approvals.ApproveStep(w.books.approvals, id, operator, at.review));
          ExecutedGrows(u, RequestOf(w.books.approvals.entries[id].payload), answer, newId, at.storedAt);
        }
      case CallbackEvent(payload, settledAt, _) =>
        SettlesOnlyMatchingPending(w.books.rows, payload, settledAt);
      case _ =>
    }
  }

  lemma RowsByStep(s: Configuration, es: seq<Event>, ws: seq<World>, n: nat, i: nat)
    requires IsRun(s, es, ws) && n < |es| && i < |ws[n + 1].books.rows|
    ensures if i < |ws[n].books.rows| then SameIdentity(ws[n].books.rows[i], ws[n + 1].books.rows[i])
            else StoredBy(es[n], ws[n + 1].books.rows[i])
  {
    RunKeepsInvariant(s, es, ws, n);
    RunExtends(s, es, ws, n, n + 1);
    StepStores(s, ws[n], es[n]);
    if i < |ws[n].books.rows| {
      assert RowMoves(ws[n].books.rows[i], ws[n + 1].books.rows[i]);
    }
  }

  /** Every stored transaction was stored by an event of the run, at that event's time; so the day
      that its revenue counts for is the day on which it was stored. */
  lemma {:induction false} RowsAreEvents(s: Configuration, es: seq<Event>, ws: seq<World>, n: nat, i: nat)
    returns (m: nat)
    requires IsRun(s, es, ws) && n <= |es| && i < |ws[n].books.rows|
    ensures m < n && StoredBy(es[m], ws[n].books.rows[i])
    decreases n
  {
    RowsByStep(s, es, ws, n - 1, i);
    if i < |ws[n - 1].books.rows| {
      m := RowsAreEvents(s, es, ws, n - 1, i);
    } else {
      m := n - 1;
    }
  }

  // ---------------------------------------------------------------- over-limit payments

  /** Behind every over-limit transaction of a run stand an execution event, and for each of the
      required reviewers an event of that operator before the request expired. */
  lemma OverLimitPaymentsHaveEvents(s: Configuration, es: seq<Event>, ws: seq<World>, n: nat, i: nat)
    returns (k: nat, m: nat)
    requires IsRun(s, es, ws) && n <= |es| && i < |ws[n].books.rows|
    requires ws[n].books.rows[i].fields.amount > s.payments.maxStkAmount
    ensures k < |ws[n].executions| && ReviewedFor(s, ws[n], ws[n].executions[k], ws[n].books.rows[i])
    ensures m < n && Performs(ws[m], es[m], ws[n].executions[k])
    ensures var id := ws[n].executions[k].approvalId;
      var a := ws[n].books.approvals.entries[id];
      forall reviewer :: reviewer in a.reviewerIds ==> Acted(es, n, id, reviewer, a.expiresAt)
  {
    OverLimitPaymentsAreReviewed(s, es, ws, n, i);
    k :| 0 <= k < |ws[n].executions| && ReviewedFor(s, ws[n], ws[n].executions[k], ws[n].books.rows[i]);
    m := ExecutionsAreEvents(s, es, ws, n, k);
    var id := ws[n].executions[k].approvalId;
    var a := ws[n].books.approvals.entries[id];
    forall reviewer | reviewer in a.reviewerIds ensures Acted(es, n, id, reviewer, a.expiresAt) {
      var l := ReviewersActed(s, es, ws, n, id, reviewer);
    }
  }

  /** Among the first `n` events is a review by this operator that was checked before `expiry`. */
  ghost predicate Acted(es: seq<Event>, n: nat, id: string, reviewer: string, expiry: Time)
    requires n <= |es|
  {
    exists m :: 0 <= m < n && Reviews(es[m], id, reviewer) && CheckedAt(es[m]) < expiry
  }
}
