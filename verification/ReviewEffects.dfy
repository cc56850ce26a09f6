/** What a review, a rejection and a sweep leave behind, told on the stored approvals. */
module ReviewEffects {
  import opened Common
  import opened Audit
  import opened Payments
  import opened Lifecycle
  import opened LifecycleTheorems
  import opened PaymentEffects
  import Approvals

  /** One approval is replaced where it stands, the given events are logged, and nothing else of
      the whole state has changed. */
  predicate OnlyReplaces(w: World, v: World, id: string, a: Approvals.Approval, events: seq<AuditEvent>) {
    && v.books.approvals.order == w.books.approvals.order
    && v.books.approvals.entries == w.books.approvals.entries[id := a]
    && v.books.events == w.books.events + events
    && v.books.rows == w.books.rows && v.books.calls == w.books.calls && v.books.counts == w.books.counts
    && v.executions == w.executions && v.applied == w.applied && v.seen == w.seen
  }

  predicate Overdue(a: Approvals.Approval, now: Time) {
    a.status == Approvals.Pending && a.expiresAt <= now
  }

  /** The answer to a review or a rejection. */
  predicate Says(r: Approvals.Response, outcome: Approvals.Outcome, allowed: bool, a: Option<Approvals.Approval>) {
    r.outcome == outcome && r.allowed == allowed && r.approval == a
  }

  // ---------------------------------------------------------------- reviews

  /** A timely review by a new operator is recorded: one more reviewer, counted and stamped; the
      approval is approved if that was the last one needed, and stays pending otherwise. */
  lemma TimelyReviewIsRecorded(s: Configuration, w: World, e: Event)
    requires Invariant(s, w) && e.ApproveEvent? && e.approvalId in w.books.approvals.entries
    requires var a := w.books.approvals.entries[e.approvalId];
      a.status == Approvals.Pending && e.clock(0) < a.expiresAt && e.operator !in a.reviewerIds
    ensures var a := w.books.approvals.entries[e.approvalId];
      var n := |a.reviewerIds| + 1;
      var last := n >= Max(1, a.requiredReviewers);
      var b := a.(reviewerIds := a.reviewerIds + [e.operator], reviewCount := n, reviewedAt := Some(e.clock(1)),
                  status := if last then Approvals.Approved else Approvals.Pending);
      && OnlyReplaces(w, Step(s, w, e), e.approvalId, b,
                      [if last then ApprovalApproved(e.approvalId, n) else ApprovalPartiallyApproved(e.approvalId, n)])
      && Says(Approvals.ApproveStep(w.books.approvals, e.approvalId, e.operator, e.clock).response,
              if last then Approvals.WasApproved else Approvals.PartiallyApproved, true, Some(b))
  {
    assert Approvals.Regular(s.payments.approvals, w.books.approvals.entries[e.approvalId]);
  }

  /** A review of an overdue approval expires it. */
  lemma LateReviewExpires(s: Configuration, w: World, e: Event)
    requires Invariant(s, w) && e.ApproveEvent? && e.approvalId in w.books.approvals.entries
    requires Overdue(w.books.approvals.entries[e.approvalId], e.clock(0))
    ensures var b := w.books.approvals.entries[e.approvalId].(
        status := Approvals.Expired, expiredAt := Some(e.clock(1)));
      && OnlyReplaces(w, Step(s, w, e), e.approvalId, b, [ApprovalExpired(e.approvalId)])
      && Says(Approvals.ApproveStep(w.books.approvals, e.approvalId, e.operator, e.clock).response,
              Approvals.WasExpired, false, Some(b))
  {
    assert w.books.approvals.entries[e.approvalId].approvalId == e.approvalId;
  }

  /** Any other review changes nothing at all, and says why. */
  lemma OtherReviewsChangeNothing(s: Configuration, w: World, e: Event)
    requires e.ApproveEvent?
    requires e.approvalId in w.books.approvals.entries ==>
      var a := w.books.approvals.entries[e.approvalId];
      a.status != Approvals.Pending || (e.clock(0) < a.expiresAt && e.operator in a.reviewerIds)
    ensures Step(s, w, e) == w
    ensures var store := w.books.approvals;
      var r := Approvals.ApproveStep(store, e.approvalId, e.operator, e.clock).response;
      if e.approvalId !in store.entries then Says(r, Approvals.NotFound, false, None)
      else Says(r, if store.entries[e.approvalId].status != Approvals.Pending then Approvals.NotPending
                   else Approvals.AlreadyReviewed, false, Some(store.entries[e.approvalId]))
  {
    assert w.books.events + [] == w.books.events;
  }

  // ---------------------------------------------------------------- rejections

  /** A rejection rejects: whatever the status was, unless the approval is overdue. */
  lemma RejectionRejects(s: Configuration, w: World, e: Event)
    requires Invariant(s, w) && e.RejectEvent? && e.approvalId in w.books.approvals.entries
    requires !Overdue(w.books.approvals.entries[e.approvalId], e.clock(0))
    ensures var b := w.books.approvals.entries[e.approvalId].(
        status := Approvals.Rejected, reviewedAt := Some(e.clock(1)));
      && OnlyReplaces(w, Step(s, w, e), e.approvalId, b, [ApprovalRejected(e.approvalId)])
      && Says(Approvals.RejectStep(w.books.approvals, e.approvalId, e.clock).response,
              Approvals.WasRejected, false, Some(b))
  {}

  /** An overdue approval is expired instead. */
  lemma LateRejectionExpires(s: Configuration, w: World, e: Event)
    requires Invariant(s, w) && e.RejectEvent? && e.approvalId in w.books.approvals.entries
    requires Overdue(w.books.approvals.entries[e.approvalId], e.clock(0))
    ensures var b := w.books.approvals.entries[e.approvalId].(
        status := Approvals.Expired, expiredAt := Some(e.clock(1)));
      && OnlyReplaces(w, Step(s, w, e), e.approvalId, b, [ApprovalExpired(e.approvalId)])
      && Says(Approvals.RejectStep(w.books.approvals, e.approvalId, e.clock).response,
              Approvals.WasExpired, false, Some(b))
  {
    assert w.books.approvals.entries[e.approvalId].approvalId == e.approvalId;
  }

  lemma UnknownRejectionChangesNothing(s: Configuration, w: World, e: Event)
    requires e.RejectEvent? && e.approvalId !in w.books.approvals.entries
    ensures Step(s, w, e) == w
    ensures Says(Approvals.RejectStep(w.books.approvals, e.approvalId, e.clock).response,
                 Approvals.NotFound, false, None)
  {
    assert w.books.events + [] == w.books.events;
  }

  /** In every run, an approval that is not pending is never executed again. */
  lemma SettledNeverExecutes(s: Configuration, es: seq<Event>, ws: seq<World>, m: nat, n: nat)
    requires IsRun(s, es, ws) && m <= n < |es| && es[n].ExecuteEvent?
    requires es[n].approvalId in ws[m].books.approvals.entries
    requires ws[m].books.approvals.entries[es[n].approvalId].status != Approvals.Pending
    ensures !Executes(ws[n], es[n])
  {
    RunKeepsInvariant(s, es, ws, n);
    NeverPendingAgain(s, es, ws, m, n, es[n].approvalId);
    ExecutesExactly(s, ws[n], es[n]);
  }

  lemma RejectedIsSettled(s: Configuration, w: World, e: Event)
    requires Invariant(s, w) && e.RejectEvent? && e.approvalId in w.books.approvals.entries
    ensures e.approvalId in Step(s, w, e).books.approvals.entries
    ensures Step(s, w, e).books.approvals.entries[e.approvalId].status in {Approvals.Rejected, Approvals.Expired}
  {
    if Overdue(w.books.approvals.entries[e.approvalId], e.clock(0)) {
      LateRejectionExpires(s, w, e);
    } else {
      RejectionRejects(s, w, e);
    }
  }

  /** After a rejection of a stored approval it is rejected or expired, and no later execution
      of it in the run reaches payment, whatever comes in between. */
  lemma RejectedIsNeverPaid(s: Configuration, es: seq<Event>, ws: seq<World>, m: nat, n: nat)
    requires IsRun(s, es, ws) && m < n < |es|
    requires es[m].RejectEvent? && es[m].approvalId in ws[m].books.approvals.entries
    requires es[n].ExecuteEvent? && es[n].approvalId == es[m].approvalId
    ensures es[m].approvalId in ws[m + 1].books.approvals.entries
    ensures ws[m + 1].books.approvals.entries[es[m].approvalId].status in {Approvals.Rejected, Approvals.Expired}
    ensures !Executes(ws[n], es[n])
    ensures ws[n + 1].books.calls == ws[n].books.calls && ws[n + 1].books.rows == ws[n].books.rows
  {
    RunKeepsInvariant(s, es, ws, m);
    RunKeepsInvariant(s, es, ws, n);
    RejectedIsSettled(s, ws[m], es[m]);
    SettledNeverExecutes(s, es, ws, m + 1, n);
    ExecutesExactly(s, ws[n], es[n]);
    UnreadyPaysNothing(s, ws[n], es[n]);
  }

  // ---------------------------------------------------------------- sweeps

  lemma SweptEntry(store: Approvals.Store, clock: Clock, id: string) returns (i: nat)
    requires Approvals.WellFormed(store) && id in store.entries
    ensures id in Approvals.ExpireStale(store, clock).entries
    ensures var a := store.entries[id];
      Approvals.ExpireStale(store, clock).entries[id]
      == if Overdue(a, clock(2 * i)) then a.(status := Approvals.Expired, expiredAt := Some(clock(2 * i + 1))) else a
  {
    var pending := Approvals.Snapshot(store);
    Approvals.SnapshotIsPending(store);
    i := 0;
    if store.entries[id].status == Approvals.Pending {
      i :| 0 <= i < |pending| && pending[i] == store.entries[id];
      Approvals.SweepAges(store, pending, clock, i);
    } else {
      Approvals.SweepLeavesOthers(store, pending, clock, id);
    }
  }

  /** What a sweep does to one approval: it is stamped as expired if its own reading finds it
      overdue, and left alone otherwise. */
  lemma SweptApproval(s: Configuration, w: World, e: Event, id: string) returns (i: nat)
    requires Invariant(s, w) && e.ExpireEvent? && id in w.books.approvals.entries
    ensures id in Step(s, w, e).books.approvals.entries
    ensures var a, b := w.books.approvals.entries[id], Step(s, w, e).books.approvals.entries[id];
      b == if Overdue(a, e.clock(2 * i)) then a.(status := Approvals.Expired, expiredAt := Some(e.clock(2 * i + 1)))
           else a
  {
    i := SweptEntry(w.books.approvals, e.clock, id);
  }

  /** A sweep touches nothing but approvals and the log. */
  lemma SweepTouchesApprovalsOnly(s: Configuration, w: World, e: Event)
    requires Invariant(s, w) && e.ExpireEvent?
    ensures var v := Step(s, w, e);
      && v.books.approvals.order == w.books.approvals.order
      && v.books.approvals.entries.Keys == w.books.approvals.entries.Keys
      && v == w.(books := w.books.(approvals := v.books.approvals, events := v.books.events))
      && w.books.events <= v.books.events
      && forall i :: |w.books.events| <= i < |v.books.events| ==> v.books.events[i].ApprovalExpired?
  {
    Approvals.SweepIsPointwise(w.books.approvals, e.clock);
    ExpiryEventsAreExpiries(Approvals.Snapshot(w.books.approvals), e.clock);
    var more := Approvals.ExpiryEvents(Approvals.Snapshot(w.books.approvals), e.clock);
    assert forall i :: 0 <= i < |more| ==> more[i] in more;
  }

  /** A sweep logs an expiry for an approval exactly when it has expired it. */
  lemma SweepLogsExactly(store: Approvals.Store, clock: Clock, id: string)
    requires Approvals.WellFormed(store)
    ensures ApprovalExpired(id) in Approvals.ExpiryEvents(Approvals.Snapshot(store), clock)
       <==> id in Approvals.NewlyExpired(store, Approvals.ExpireStale(store, clock))
  {
    var pending := Approvals.Snapshot(store);
    Approvals.SnapshotIsPending(store);
    Approvals.SweepIsPointwise(store, clock);
    LoggedIds(pending, clock, id);
    if id in store.entries && store.entries[id].status == Approvals.Pending {
      var i :| 0 <= i < |pending| && pending[i] == store.entries[id];
      Approvals.ExpiredId(pending, clock, i);
    } else {
      Approvals.NotExpiredId(pending, clock, id);
    }
  }

  lemma {:induction false} LoggedIds(snapshot: seq<Approvals.Approval>, clock: Clock, id: string)
    ensures ApprovalExpired(id) in Approvals.ExpiryEvents(snapshot, clock)
       <==> id in Approvals.ExpiredIds(snapshot, clock)
  {
    if snapshot == [] {
    } else {
      LoggedIds(snapshot[..|snapshot| - 1], clock, id);
    }
  }
}
