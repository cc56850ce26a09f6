/** Approval requests, their in-memory repository and the approval service
    (app/approvals/models.py, repository.py and service.py). */
module Approvals {
  import opened Common
  import opened Audit

  /** A payload entry: absent or None, an integer, a text, or anything else. */
  datatype Entry = Missing | IntEntry(n: int) | TextEntry(s: string) | OtherEntry

  /** The payload entries that the code reads. */
  datatype Payload = Payload(
    phoneNumber: Entry, amount: Entry, accountReference: Entry, description: Entry, idempotencyKey: Entry)

  datatype ApprovalStatus = Pending | Approved | Rejected | Expired

  datatype Approval = Approval(
    approvalId: string, action: string, payload: Payload, reason: string,
    status: ApprovalStatus, createdAt: Time, expiresAt: Time,
    reviewedAt: Option<Time>, expiredAt: Option<Time>,
    requiredReviewers: int, reviewerIds: seq<string>, reviewCount: int)

  datatype Config = Config(
    expiryMinutes: int, requiredReviewers: int, highRiskRequiredReviewers: int, highRiskAmountThreshold: int)

  const MICROSECONDS_PER_MINUTE: int := 60_000_000

  // ---------------------------------------------------------------- the repository's dictionary

  /** A dictionary in insertion order. */
  datatype Store = Store(order: seq<string>, entries: map<string, Approval>)

  const EMPTY: Store := Store([], map[])

  ghost predicate WellFormed(s: Store) {
    && NoDuplicates(s.order)
    && (forall id :: id in s.entries <==> id in s.order)
    && (forall id :: id in s.entries ==> s.entries[id].approvalId == id)
  }

  function Put(s: Store, a: Approval): Store {
    Store(if a.approvalId in s.entries then s.order else s.order + [a.approvalId],
          s.entries[a.approvalId := a])
  }

  function Get(s: Store, id: string): Option<Approval> {
    if id in s.entries then Some(s.entries[id]) else None
  }

  /** The pending ones of the given ids, in their order. */
  function PendingOf(order: seq<string>, entries: map<string, Approval>): seq<Approval> {
    if order == [] then []
    else
      var id := order[0];
      (if id in entries && entries[id].status == Pending then [entries[id]] else [])
      + PendingOf(order[1..], entries)
  }

  function Restamped(a: Approval, status: ApprovalStatus, now: Time): Approval {
    if status == Expired then a.(status := status, expiredAt := Some(now))
    else a.(status := status, reviewedAt := Some(now))
  }

  function UpdatedStore(s: Store, id: string, status: ApprovalStatus, now: Time): Store {
    if id in s.entries then Store(s.order, s.entries[id := Restamped(s.entries[id], status, now)]) else s
  }

  class InMemoryApprovalRepository {
    var approvals: Store

    constructor ()
      ensures approvals == EMPTY
    {
      approvals := EMPTY;
    }

    method Create(newId: string, action: string, payload: Payload, reason: string,
                  expiresAt: Time, requiredReviewers: int, now: Time) returns (a: Approval)
      modifies this
      ensures a == Approval(newId, action, payload, reason, Pending, now, expiresAt,
                            None, None, requiredReviewers, [], 0)
      ensures approvals == Put(old(approvals), a)
    {
      a := Approval(newId, action, payload, reason, Pending, now, expiresAt,
                    None, None, requiredReviewers, [], 0);
      approvals := Put(approvals, a);
    }

    function Find(id: string): Option<Approval>
      reads this
    {
      Get(approvals, id)
    }

    function ListPending(): seq<Approval>
      reads this
    {
      PendingOf(approvals.order, approvals.entries)
    }

    method UpdateStatus(id: string, status: ApprovalStatus, now: Time) returns (updated: Option<Approval>)
      modifies this
      ensures approvals == UpdatedStore(old(approvals), id, status, now)
      ensures updated == if id in old(approvals).entries
                         then Some(Restamped(old(approvals).entries[id], status, now)) else None
    {
      var found := Find(id);
      if found.None? {
        return None;
      }
      var a := Restamped(found.value, status, now);
      approvals := Store(approvals.order, approvals.entries[id := a]);
      return Some(a);
    }

    method Save(a: Approval)
      modifies this
      ensures approvals == Put(old(approvals), a)
    {
      approvals := Put(approvals, a);
    }
  }

  // ---------------------------------------------------------------- the service, call by call

  predicate IsExpired(a: Approval, now: Time) {
    a.status == Pending && now >= a.expiresAt
  }

  function RequiredReviewersFor(c: Config, payload: Payload): int {
    if payload.amount.IntEntry? && payload.amount.n >= c.highRiskAmountThreshold
    then c.highRiskRequiredReviewers else c.requiredReviewers
  }

  /** The first reading of the clock sets the expiry, the second one the creation time. */
  function NewApproval(
    c: Config, newId: string, action: string, payload: Payload, reason: string, clock: Clock): Approval
  {
    Approval(newId, action, payload, reason, Pending, clock(1), clock(0) + c.expiryMinutes * MICROSECONDS_PER_MINUTE,
             None, None, RequiredReviewersFor(c, payload), [], 0)
  }

  /** One more review; the review that completes the required number approves. */
  function Reviewed(a: Approval, operator: string, now: Time): Approval {
    a.(reviewerIds := a.reviewerIds + [operator],
       reviewCount := |a.reviewerIds| + 1,
       reviewedAt := Some(now),
       status := if |a.reviewerIds| + 1 < a.requiredReviewers then a.status else Approved)
  }

  datatype Outcome =
    | WasExpired | NotFound | NotPending | AlreadyReviewed | PartiallyApproved | WasApproved | WasRejected

  datatype Response = Response(outcome: Outcome, allowed: bool, approval: Option<Approval>)

  /** The effect of one service call: the store, the answer, and what is logged. */
  datatype Step = Step(store: Store, response: Response, events: seq<AuditEvent>)

  function ExpireStep(s: Store, a: Approval, now: Time): Step {
    Step(UpdatedStore(s, a.approvalId, Expired, now),
         Response(WasExpired, false, Some(Restamped(a, Expired, now))), [ApprovalExpired(a.approvalId)])
  }

  /** A review reads the clock for the expiry check, and again for the stamp. */
  function ApproveStep(s: Store, id: string, operator: string, clock: Clock): Step {
    if id !in s.entries then Step(s, Response(NotFound, false, None), [])
    else
      var a := s.entries[id];
      if IsExpired(a, clock(0)) then ExpireStep(s, a, clock(1))
      else if a.status != Pending then Step(s, Response(NotPending, false, Some(a)), [])
      else if operator in a.reviewerIds then Step(s, Response(AlreadyReviewed, false, Some(a)), [])
      else
        var b := Reviewed(a, operator, clock(1));
        if b.status == Pending
        then Step(Put(s, b), Response(PartiallyApproved, true, Some(b)), [ApprovalPartiallyApproved(id, b.reviewCount)])
        else Step(Put(s, b), Response(WasApproved, true, Some(b)), [ApprovalApproved(id, b.reviewCount)])
  }

  function RejectStep(s: Store, id: string, clock: Clock): Step {
    if id !in s.entries then Step(s, Response(NotFound, false, None), [])
    else
      var a := s.entries[id];
      if IsExpired(a, clock(0)) then ExpireStep(s, a, clock(1))
      else Step(UpdatedStore(s, id, Rejected, clock(1)),
                Response(WasRejected, false, Some(Restamped(a, Rejected, clock(1)))), [ApprovalRejected(id)])
  }

  /** Walking a snapshot and expiring what is overdue. The clock is read for the check of each
      approval and for its stamp. */
  function ExpireEach(s: Store, snapshot: seq<Approval>, clock: Clock): Store {
    if snapshot == [] then s
    else
      var n := |snapshot| - 1;
      var before := ExpireEach(s, snapshot[..n], clock);
      if IsExpired(snapshot[n], clock(2 * n)) then UpdatedStore(before, snapshot[n].approvalId, Expired, clock(2 * n + 1))
      else before
  }

  function ExpiryEvents(snapshot: seq<Approval>, clock: Clock): seq<AuditEvent> {
    if snapshot == [] then []
    else
      var n := |snapshot| - 1;
      ExpiryEvents(snapshot[..n], clock)
      + if IsExpired(snapshot[n], clock(2 * n)) then [ApprovalExpired(snapshot[n].approvalId)] else []
  }

  function Snapshot(s: Store): seq<Approval> {
    PendingOf(s.order, s.entries)
  }

  function ExpireStale(s: Store, clock: Clock): Store {
    ExpireEach(s, Snapshot(s), clock)
  }

  /** The listed approvals; the clock is read once for each candidate. */
  function Unexpired(approvals: seq<Approval>, clock: Clock): seq<Approval> {
    if approvals == [] then []
    else
      var n := |approvals| - 1;
      Unexpired(approvals[..n], clock) + if IsExpired(approvals[n], clock(n)) then [] else [approvals[n]]
  }

  lemma SweepStep(s: Store, snapshot: seq<Approval>, i: nat, clock: Clock)
    requires i < |snapshot|
    ensures ExpireEach(s, snapshot[..i + 1], clock)
         == (var before := ExpireEach(s, snapshot[..i], clock);
             if IsExpired(snapshot[i], clock(2 * i))
             then UpdatedStore(before, snapshot[i].approvalId, Expired, clock(2 * i + 1)) else before)
    ensures ExpiryEvents(snapshot[..i + 1], clock)
         == ExpiryEvents(snapshot[..i], clock)
            + if IsExpired(snapshot[i], clock(2 * i)) then [ApprovalExpired(snapshot[i].approvalId)] else []
  {
    assert snapshot[..i + 1][..i] == snapshot[..i];
  }

  class ApprovalService {
    const repository: InMemoryApprovalRepository
    const auditLog: AuditLog
    const config: Config

    constructor (repository: InMemoryApprovalRepository, auditLog: AuditLog, config: Config)
      ensures this.repository == repository && this.auditLog == auditLog && this.config == config
    {
      this.repository, this.auditLog, this.config := repository, auditLog, config;
    }

    method CreateApprovalRequest(newId: string, action: string, payload: Payload, reason: string, clock: Clock)
      returns (a: Approval)
      modifies repository, auditLog
      ensures a == NewApproval(config, newId, action, payload, reason, clock)
      ensures repository.approvals == Put(old(repository.approvals), a)
      ensures auditLog.events == old(auditLog.events) + [ApprovalCreated(newId, a.requiredReviewers)]
    {
      var requiredReviewers := RequiredReviewersFor(config, payload);
      a := repository.Create(newId, action, payload, reason,
        clock(0) + config.expiryMinutes * MICROSECONDS_PER_MINUTE, requiredReviewers, clock(1));
      auditLog.LogEvent(ApprovalCreated(a.approvalId, a.requiredReviewers));
    }

    method ApproveRequest(id: string, operator: string, clock: Clock) returns (r: Response)
      requires WellFormed(repository.approvals)
      modifies repository, auditLog
      ensures var step := ApproveStep(old(repository.approvals), id, operator, clock);
        && repository.approvals == step.store && r == step.response
        && auditLog.events == old(auditLog.events) + step.events
    {
      var found := repository.Find(id);
      if found.None? {
        return Response(NotFound, false, None);
      }
      var current := found.value;
      if IsExpired(current, clock(0)) {
        var expired := ExpireApproval(current, clock(1));
        return Response(WasExpired, false, Some(expired));
      }
      if current.status != Pending {
        return Response(NotPending, false, Some(current));
      }
      if operator in current.reviewerIds {
        return Response(AlreadyReviewed, false, Some(current));
      }
      var reviewerIds := current.reviewerIds + [operator];
      var reviewCount := |reviewerIds|;
      if reviewCount < current.requiredReviewers {
        var a := current.(reviewerIds := reviewerIds, reviewCount := reviewCount, reviewedAt := Some(clock(1)));
        repository.Save(a);
        auditLog.LogEvent(ApprovalPartiallyApproved(id, reviewCount));
        return Response(PartiallyApproved, true, Some(a));
      }
      var a := current.(status := Approved, reviewerIds := reviewerIds, reviewCount := reviewCount,
                        reviewedAt := Some(clock(1)));
      repository.Save(a);
      auditLog.LogEvent(ApprovalApproved(id, reviewCount));
      return Response(WasApproved, true, Some(a));
    }

    method RejectRequest(id: string, clock: Clock) returns (r: Response)
      requires WellFormed(repository.approvals)
      modifies repository, auditLog
      ensures var step := RejectStep(old(repository.approvals), id, clock);
        && repository.approvals == step.store && r == step.response
        && auditLog.events == old(auditLog.events) + step.events
    {
      var found := repository.Find(id);
      if found.Some? && IsExpired(found.value, clock(0)) {
        var expired := ExpireApproval(found.value, clock(1));
        return Response(WasExpired, false, Some(expired));
      }
      var updated := repository.UpdateStatus(id, Rejected, clock(1));
      if updated.None? {
        return Response(NotFound, false, None);
      }
      auditLog.LogEvent(ApprovalRejected(id));
      return Response(WasRejected, false, updated);
    }

    method ExpireApproval(a: Approval, now: Time) returns (expired: Approval)
      requires a.approvalId in repository.approvals.entries
      modifies repository, auditLog
      ensures repository.approvals == UpdatedStore(old(repository.approvals), a.approvalId, Expired, now)
      ensures expired == Restamped(old(repository.approvals).entries[a.approvalId], Expired, now)
      ensures auditLog.events == old(auditLog.events) + [ApprovalExpired(a.approvalId)]
    {
      var updated := repository.UpdateStatus(a.approvalId, Expired, now);
      auditLog.LogEvent(ApprovalExpired(a.approvalId));
      expired := updated.value;
    }

    method ExpireStaleApprovals(clock: Clock) returns (count: nat)
      requires WellFormed(repository.approvals)
      modifies repository, auditLog
      ensures repository.approvals == ExpireStale(old(repository.approvals), clock)
      ensures var events := ExpiryEvents(Snapshot(old(repository.approvals)), clock);
        auditLog.events == old(auditLog.events) + events && count == |events|
    {
      SnapshotIsPending(repository.approvals);
      var snapshot := repository.ListPending();
      count := Sweep(snapshot, clock);
    }

    /** The loop over a snapshot. */
    method Sweep(snapshot: seq<Approval>, clock: Clock) returns (count: nat)
      requires forall i :: 0 <= i < |snapshot| ==> snapshot[i].approvalId in repository.approvals.entries
      modifies repository, auditLog
      ensures repository.approvals == ExpireEach(old(repository.approvals), snapshot, clock)
      ensures auditLog.events == old(auditLog.events) + ExpiryEvents(snapshot, clock)
      ensures count == |ExpiryEvents(snapshot, clock)|
    {
      var before := repository.approvals;
      count := 0;
      for i := 0 to |snapshot|
        invariant repository.approvals == ExpireEach(before, snapshot[..i], clock)
        invariant auditLog.events == old(auditLog.events) + ExpiryEvents(snapshot[..i], clock)
        invariant count == |ExpiryEvents(snapshot[..i], clock)|
      {
        SweepStep(before, snapshot, i, clock);
        SweepKeepsIds(before, snapshot[..i], clock);
        var expired := ExpireIfStale(snapshot[i], clock(2 * i), clock(2 * i + 1));
        count := count + if expired then 1 else 0;
      }
      assert snapshot[..|snapshot|] == snapshot;
    }

    /** One turn of the sweep. */
    method ExpireIfStale(a: Approval, checkedAt: Time, stampedAt: Time) returns (stale: bool)
      requires a.approvalId in repository.approvals.entries
      modifies repository, auditLog
      ensures stale == IsExpired(a, checkedAt)
      ensures repository.approvals
           == if stale then UpdatedStore(old(repository.approvals), a.approvalId, Expired, stampedAt)
              else old(repository.approvals)
      ensures auditLog.events == old(auditLog.events) + if stale then [ApprovalExpired(a.approvalId)] else []
    {
      stale := IsExpired(a, checkedAt);
      if stale {
        var expired := ExpireApproval(a, stampedAt);
      }
    }

    method ListPendingRequests(clock: Clock, later: Clock) returns (pending: seq<Approval>)
      requires WellFormed(repository.approvals)
      modifies repository, auditLog
      ensures repository.approvals == ExpireStale(old(repository.approvals), clock)
      ensures pending == Unexpired(Snapshot(repository.approvals), later)
    {
      var count := ExpireStaleApprovals(clock);
      var candidates := repository.ListPending();
      pending := [];
      for i := 0 to |candidates|
        invariant pending == Unexpired(candidates[..i], later)
      {
        assert candidates[..i + 1][..i] == candidates[..i];
        if !IsExpired(candidates[i], later(i)) {
          pending := pending + [candidates[i]];
        }
      }
      assert candidates[..|candidates|] == candidates;
    }
  }

  ghost predicate DistinctApprovals(approvals: seq<Approval>) {
    forall i, j :: 0 <= i < j < |approvals| ==> approvals[i].approvalId != approvals[j].approvalId
  }

  /** A snapshot holds exactly the pending approvals, each under its own id and once. */
  lemma {:induction false} PendingOfIsPending(order: seq<string>, entries: map<string, Approval>)
    requires NoDuplicates(order)
    requires forall id :: id in order ==> id in entries && entries[id].approvalId == id
    ensures var p := PendingOf(order, entries);
      && (forall a :: a in p <==> a.approvalId in order && entries[a.approvalId] == a && a.status == Pending)
      && DistinctApprovals(p)
  {
    if order == [] {
    } else {
      PendingOfIsPending(order[1..], entries);
    }
  }

  lemma SnapshotIsPending(s: Store)
    requires WellFormed(s)
    ensures forall a :: a in Snapshot(s)
              <==> a.approvalId in s.entries && s.entries[a.approvalId] == a && a.status == Pending
    ensures DistinctApprovals(Snapshot(s))
  {
    PendingOfIsPending(s.order, s.entries);
  }

  // ---------------------------------------------------------------- what a sweep does

  function Aged(a: Approval, checkedAt: Time, stampedAt: Time): Approval {
    if IsExpired(a, checkedAt) then Restamped(a, Expired, stampedAt) else a
  }

  lemma {:induction false} SweepLeavesOthers(s: Store, snapshot: seq<Approval>, clock: Clock, id: string)
    requires id in s.entries && forall a :: a in snapshot ==> a.approvalId != id
    ensures id in ExpireEach(s, snapshot, clock).entries && ExpireEach(s, snapshot, clock).entries[id] == s.entries[id]
  {
    if snapshot == [] {
    } else {
      SweepLeavesOthers(s, snapshot[..|snapshot| - 1], clock, id);
    }
  }

  lemma {:induction false} SweepKeepsIds(s: Store, snapshot: seq<Approval>, clock: Clock)
    ensures var t := ExpireEach(s, snapshot, clock); t.order == s.order && t.entries.Keys == s.entries.Keys
  {
    if snapshot == [] {
    } else {
      SweepKeepsIds(s, snapshot[..|snapshot| - 1], clock);
    }
  }

  lemma {:induction false} SweepAges(s: Store, snapshot: seq<Approval>, clock: Clock, i: nat)
    requires i < |snapshot|
    requires snapshot[i].approvalId in s.entries && s.entries[snapshot[i].approvalId] == snapshot[i]
    requires DistinctApprovals(snapshot)
    ensures var t := ExpireEach(s, snapshot, clock);
      && snapshot[i].approvalId in t.entries
      && t.entries[snapshot[i].approvalId] == Aged(snapshot[i], clock(2 * i), clock(2 * i + 1))
  {
    var n := |snapshot| - 1;
    SweepStep(s, snapshot, n, clock);
    assert snapshot[..n + 1] == snapshot;
    if i < n {
      SweepAges(s, snapshot[..n], clock, i);
    } else {
      SweepLeavesOthers(s, snapshot[..n], clock, snapshot[n].approvalId);
    }
  }

  /** A sweep decides about each pending approval by its own reading of the clock, and leaves
      every other approval and the order as they were. */
  lemma SweepIsPointwise(s: Store, clock: Clock)
    requires WellFormed(s)
    ensures var t, pending := ExpireStale(s, clock), Snapshot(s);
      && WellFormed(t) && t.order == s.order && t.entries.Keys == s.entries.Keys
      && (forall i :: 0 <= i < |pending| ==>
            && pending[i].approvalId in s.entries && pending[i] == s.entries[pending[i].approvalId]
            && t.entries[pending[i].approvalId] == Aged(pending[i], clock(2 * i), clock(2 * i + 1)))
      && (forall id :: id in s.entries && s.entries[id].status != Pending ==> t.entries[id] == s.entries[id])
      && (forall id :: id in s.entries && s.entries[id].status == Pending ==> s.entries[id] in pending)
  {
    SnapshotIsPending(s);
    SweepKeepsIds(s, Snapshot(s), clock);
    var t, pending := ExpireStale(s, clock), Snapshot(s);
    forall i | 0 <= i < |pending|
      ensures t.entries[pending[i].approvalId] == Aged(pending[i], clock(2 * i), clock(2 * i + 1))
    {
      SweepAges(s, pending, clock, i);
    }
    forall id | id in s.entries
      ensures s.entries[id].status != Pending ==> t.entries[id] == s.entries[id]
      ensures t.entries[id].approvalId == id
    {
      if s.entries[id].status == Pending {
        var i :| 0 <= i < |pending| && pending[i] == s.entries[id];
      } else {
        SweepLeavesOthers(s, pending, clock, id);
      }
    }
  }

  ghost predicate Ticks(clock: Clock) {
    forall i: nat, j: nat :: i <= j ==> clock(i) <= clock(j)
  }

  /** With a clock that does not go back, a sweep expires every pending approval that is overdue
      when it starts, and none that has time left when it ends. */
  lemma SweepIsBracketed(s: Store, clock: Clock, id: string)
    requires WellFormed(s) && Ticks(clock) && id in s.entries && s.entries[id].status == Pending
    ensures var b := ExpireStale(s, clock).entries;
      && id in b && b[id].status in {Pending, Expired}
      && (IsExpired(s.entries[id], clock(0)) ==> b[id].status == Expired)
      && (!IsExpired(s.entries[id], clock(2 * |Snapshot(s)|)) ==> b[id] == s.entries[id])
  {
    SweepIsPointwise(s, clock);
    var i :| 0 <= i < |Snapshot(s)| && Snapshot(s)[i] == s.entries[id];
    assert clock(0) <= clock(2 * i) <= clock(2 * |Snapshot(s)|);
  }

  /** A clock that stands still. */
  function At(now: Time): Clock {
    (i: nat) => now
  }

  /** At one time, a sweep turns exactly the overdue pending approvals to expired and leaves
      every other approval as it was. */
  lemma ExpireStaleIsPointwise(s: Store, now: Time)
    requires WellFormed(s)
    ensures ExpireStale(s, At(now)) == Store(s.order, map id | id in s.entries :: Aged(s.entries[id], now, now))
    ensures WellFormed(ExpireStale(s, At(now)))
  {
    SweepIsPointwise(s, At(now));
    var t := ExpireStale(s, At(now));
    forall id | id in s.entries ensures t.entries[id] == Aged(s.entries[id], now, now) {
      if s.entries[id].status == Pending {
        var i :| 0 <= i < |Snapshot(s)| && Snapshot(s)[i] == s.entries[id];
        assert t.entries[Snapshot(s)[i].approvalId] == Aged(Snapshot(s)[i], now, now);
      }
    }
  }

  /** The approvals that a sweep turned from pending to expired. */
  ghost function NewlyExpired(s: Store, t: Store): set<string> {
    set id | id in s.entries && id in t.entries && s.entries[id].status == Pending && t.entries[id].status == Expired
  }

  /** The number that a sweep returns is the number of approvals that it expired. */
  lemma ExpiryCountIsExact(s: Store, clock: Clock)
    requires WellFormed(s)
    ensures |ExpiryEvents(Snapshot(s), clock)| == |NewlyExpired(s, ExpireStale(s, clock))|
  {
    SnapshotIsPending(s);
    SweepIsPointwise(s, clock);
    var t, pending := ExpireStale(s, clock), Snapshot(s);
    CountExpired(pending, clock);
    forall id | id in s.entries ensures id in ExpiredIds(pending, clock) <==> id in NewlyExpired(s, t) {
      if s.entries[id].status == Pending {
        var i :| 0 <= i < |pending| && pending[i] == s.entries[id];
        ExpiredId(pending, clock, i);
      } else {
        NotExpiredId(pending, clock, id);
      }
    }
    forall id | id !in s.entries ensures id !in ExpiredIds(pending, clock) {
      NotExpiredId(pending, clock, id);
    }
    assert ExpiredIds(pending, clock) == NewlyExpired(s, t);
  }

  ghost function ExpiredIds(snapshot: seq<Approval>, clock: Clock): set<string> {
    if snapshot == [] then {}
    else
      var n := |snapshot| - 1;
      ExpiredIds(snapshot[..n], clock) + if IsExpired(snapshot[n], clock(2 * n)) then {snapshot[n].approvalId} else {}
  }

  lemma {:induction false} NotExpiredId(snapshot: seq<Approval>, clock: Clock, id: string)
    requires forall a :: a in snapshot ==> a.approvalId != id
    ensures id !in ExpiredIds(snapshot, clock)
  {
    if snapshot == [] {
    } else {
      NotExpiredId(snapshot[..|snapshot| - 1], clock, id);
    }
  }

  lemma {:induction false} ExpiredId(snapshot: seq<Approval>, clock: Clock, i: nat)
    requires i < |snapshot|
    requires DistinctApprovals(snapshot)
    ensures snapshot[i].approvalId in ExpiredIds(snapshot, clock) <==> IsExpired(snapshot[i], clock(2 * i))
  {
    var n := |snapshot| - 1;
    if i < n {
      ExpiredId(snapshot[..n], clock, i);
    } else {
      NotExpiredId(snapshot[..n], clock, snapshot[n].approvalId);
    }
  }

  lemma {:induction false} CountExpired(snapshot: seq<Approval>, clock: Clock)
    requires DistinctApprovals(snapshot)
    ensures |ExpiryEvents(snapshot, clock)| == |ExpiredIds(snapshot, clock)|
  {
    if snapshot == [] {
    } else {
      var n := |snapshot| - 1;
      CountExpired(snapshot[..n], clock);
      NotExpiredId(snapshot[..n], clock, snapshot[n].approvalId);
    }
  }

  /** What a listing returns: approvals that the sweep left pending and that had time left at
      their own reading; with a clock that does not go back, all that have time left at the end. */
  lemma ListingIsExact(s: Store, clock: Clock, later: Clock)
    requires WellFormed(s)
    ensures var t := ExpireStale(s, clock);
      var candidates, listed := Snapshot(t), Unexpired(Snapshot(t), later);
      && (forall a :: a in candidates
            <==> && a.approvalId in s.entries && a.approvalId in t.entries
                 && s.entries[a.approvalId] == a == t.entries[a.approvalId] && a.status == Pending)
      && DistinctApprovals(listed)
      && (forall a :: a in listed <==> InTime(candidates, later, a))
      && (Ticks(later) ==> forall a :: a in candidates && later(|candidates|) < a.expiresAt ==> a in listed)
  {
    SweepIsPointwise(s, clock);
    var t := ExpireStale(s, clock);
    SnapshotIsPending(t);
    UnexpiredIsExact(Snapshot(t), later);
    UnexpiredAreDistinct(Snapshot(t), later);
    forall a | a in Snapshot(t) ensures a == s.entries[a.approvalId] {
      if s.entries[a.approvalId].status == Pending {
        var i :| 0 <= i < |Snapshot(s)| && Snapshot(s)[i] == s.entries[a.approvalId];
        assert t.entries[Snapshot(s)[i].approvalId] == Aged(Snapshot(s)[i], clock(2 * i), clock(2 * i + 1));
      }
    }
  }

  /** A candidate with time left at its own reading. */
  ghost predicate InTime(approvals: seq<Approval>, clock: Clock, a: Approval) {
    exists i :: 0 <= i < |approvals| && approvals[i] == a && clock(i) < a.expiresAt
  }

  lemma {:induction false} UnexpiredIsExact(approvals: seq<Approval>, clock: Clock)
    requires forall a :: a in approvals ==> a.status == Pending
    ensures forall a :: a in Unexpired(approvals, clock) <==> InTime(approvals, clock, a)
  {
    if approvals == [] {
    } else {
      var n := |approvals| - 1;
      UnexpiredIsExact(approvals[..n], clock);
      forall a ensures InTime(approvals, clock, a)
                  <==> InTime(approvals[..n], clock, a) || (approvals[n] == a && clock(n) < a.expiresAt)
      {
        if InTime(approvals[..n], clock, a) {
          var i :| 0 <= i < n && approvals[..n][i] == a && clock(i) < a.expiresAt;
          assert approvals[i] == a;
        }
      }
    }
  }

  lemma {:induction false} UnexpiredArePart(approvals: seq<Approval>, clock: Clock)
    ensures forall a :: a in Unexpired(approvals, clock) ==> a in approvals
  {
    if approvals == [] {
    } else {
      var n := |approvals| - 1;
      UnexpiredArePart(approvals[..n], clock);
      assert approvals == approvals[..n] + [approvals[n]];
    }
  }

  lemma {:induction false} UnexpiredAreDistinct(approvals: seq<Approval>, clock: Clock)
    requires DistinctApprovals(approvals)
    ensures DistinctApprovals(Unexpired(approvals, clock))
  {
    if approvals == [] {
    } else {
      var n := |approvals| - 1;
      UnexpiredAreDistinct(approvals[..n], clock);
      UnexpiredArePart(approvals[..n], clock);
      AppendDistinct(Unexpired(approvals[..n], clock), approvals[n]);
    }
  }

  lemma AppendDistinct(approvals: seq<Approval>, a: Approval)
    requires DistinctApprovals(approvals) && forall b :: b in approvals ==> b.approvalId != a.approvalId
    ensures DistinctApprovals(approvals + [a]) && DistinctApprovals(approvals + [])
  {}

  /** At one time a listing is exactly the pending approvals with time left, each once. */
  lemma ListingAtOneTime(s: Store, now: Time)
    requires WellFormed(s)
    ensures var listed := Unexpired(Snapshot(ExpireStale(s, At(now))), At(now));
      && (forall a :: a in listed
            <==> a.approvalId in s.entries && s.entries[a.approvalId] == a && a.status == Pending && now < a.expiresAt)
      && DistinctApprovals(listed)
  {
    ListingIsExact(s, At(now), At(now));
    ExpireStaleIsPointwise(s, now);
  }

  ghost function WithStatus(s: Store, status: ApprovalStatus): set<string> {
    set id | id in s.entries && s.entries[id].status == status
  }

  /** The four statuses partition the approvals. */
  lemma StatusesPartition(s: Store)
    ensures s.entries.Keys
         == WithStatus(s, Pending) + WithStatus(s, Approved) + WithStatus(s, Rejected) + WithStatus(s, Expired)
    ensures |s.entries| == |WithStatus(s, Pending)| + |WithStatus(s, Approved)|
                         + |WithStatus(s, Rejected)| + |WithStatus(s, Expired)|
  {
    var p, a, r, e := WithStatus(s, Pending), WithStatus(s, Approved), WithStatus(s, Rejected), WithStatus(s, Expired);
    assert s.entries.Keys == p + a + r + e;
    assert |p + a + r + e| == |p + a + r| + |e|;
    assert |p + a + r| == |p + a| + |r|;
  }

  // ---------------------------------------------------------------- what every call keeps

  predicate FullyReviewed(a: Approval) {
    |a.reviewerIds| == Max(1, a.requiredReviewers)
  }

  /** A single approval's bookkeeping: distinct reviewers, counted exactly, fewer than required
      while pending, and exactly as many as required once approved. */
  ghost predicate Regular(c: Config, a: Approval) {
    && NoDuplicates(a.reviewerIds)
    && a.reviewCount == |a.reviewerIds|
    && a.requiredReviewers == RequiredReviewersFor(c, a.payload)
    && |a.reviewerIds| <= Max(1, a.requiredReviewers)
    && (a.status == Pending ==> !FullyReviewed(a))
    && (a.status == Approved ==> FullyReviewed(a))
  }

  ghost predicate Invariant(c: Config, s: Store) {
    WellFormed(s) && forall id :: id in s.entries ==> Regular(c, s.entries[id])
  }

  /** What never changes about an approval, and that it never becomes pending again. */
  predicate Evolves(a: Approval, b: Approval) {
    && a.approvalId == b.approvalId && a.action == b.action && a.payload == b.payload && a.reason == b.reason
    && a.expiresAt == b.expiresAt && a.createdAt == b.createdAt && a.requiredReviewers == b.requiredReviewers
    && a.reviewerIds <= b.reviewerIds
    && (a.status != Pending ==> b.status != Pending && b.reviewerIds == a.reviewerIds)
  }

  ghost predicate StoreEvolves(s: Store, t: Store) {
    forall id :: id in s.entries ==> id in t.entries && Evolves(s.entries[id], t.entries[id])
  }

  lemma EvolutionComposes(s: Store, t: Store, u: Store)
    requires StoreEvolves(s, t) && StoreEvolves(t, u)
    ensures StoreEvolves(s, u)
  {
    forall id | id in s.entries ensures id in u.entries && Evolves(s.entries[id], u.entries[id]) {
      assert Evolves(s.entries[id], t.entries[id]) && Evolves(t.entries[id], u.entries[id]);
    }
  }

  lemma CreateKeeps(c: Config, s: Store, newId: string, action: string, payload: Payload, reason: string, clock: Clock)
    requires Invariant(c, s) && newId !in s.entries
    ensures var t := Put(s, NewApproval(c, newId, action, payload, reason, clock));
      Invariant(c, t) && StoreEvolves(s, t)
  {}

  /** A changed entry keeps the invariant if it keeps its own part of it. */
  lemma EntryKeeps(c: Config, s: Store, b: Approval)
    requires Invariant(c, s) && b.approvalId in s.entries
    requires Regular(c, b) && Evolves(s.entries[b.approvalId], b)
    ensures var t := Store(s.order, s.entries[b.approvalId := b]); Invariant(c, t) && StoreEvolves(s, t)
  {}

  lemma RestampKeeps(c: Config, s: Store, id: string, status: ApprovalStatus, now: Time)
    requires Invariant(c, s) && (status == Rejected || status == Expired)
    ensures var t := UpdatedStore(s, id, status, now); Invariant(c, t) && StoreEvolves(s, t)
  {
    if id in s.entries {
      assert Regular(c, s.entries[id]);
      EntryKeeps(c, s, Restamped(s.entries[id], status, now));
    }
  }

  lemma ReviewKeeps(c: Config, a: Approval, operator: string, now: Time)
    requires Regular(c, a) && a.status == Pending && operator !in a.reviewerIds
    ensures Regular(c, Reviewed(a, operator, now)) && Evolves(a, Reviewed(a, operator, now))
  {}

  lemma ApproveKeeps(c: Config, s: Store, id: string, operator: string, clock: Clock)
    requires Invariant(c, s)
    ensures var t := ApproveStep(s, id, operator, clock).store; Invariant(c, t) && StoreEvolves(s, t)
  {
    if id in s.entries {
      var a := s.entries[id];
      if IsExpired(a, clock(0)) {
        RestampKeeps(c, s, id, Expired, clock(1));
      } else if a.status == Pending && operator !in a.reviewerIds {
        ReviewKeeps(c, a, operator, clock(1));
        EntryKeeps(c, s, Reviewed(a, operator, clock(1)));
      }
    }
  }

  lemma RejectKeeps(c: Config, s: Store, id: string, clock: Clock)
    requires Invariant(c, s)
    ensures var t := RejectStep(s, id, clock).store; Invariant(c, t) && StoreEvolves(s, t)
  {
    RestampKeeps(c, s, id, Rejected, clock(1));
    RestampKeeps(c, s, id, Expired, clock(1));
  }

  lemma AgeingKeeps(c: Config, a: Approval, checkedAt: Time, stampedAt: Time)
    requires Regular(c, a)
    ensures Regular(c, Aged(a, checkedAt, stampedAt)) && Evolves(a, Aged(a, checkedAt, stampedAt))
  {}

  lemma ExpireKeeps(c: Config, s: Store, clock: Clock)
    requires Invariant(c, s)
    ensures var t := ExpireStale(s, clock); Invariant(c, t) && StoreEvolves(s, t) && t.entries.Keys == s.entries.Keys
  {
    SweepIsPointwise(s, clock);
    var t := ExpireStale(s, clock);
    forall id | id in s.entries ensures Regular(c, t.entries[id]) && Evolves(s.entries[id], t.entries[id]) {
      if s.entries[id].status == Pending {
        var i :| 0 <= i < |Snapshot(s)| && Snapshot(s)[i] == s.entries[id];
        AgeingKeeps(c, Snapshot(s)[i], clock(2 * i), clock(2 * i + 1));
      }
    }
  }

  /** An approval is answered "approved" only by the review that completes it, before it expires. */
  lemma ApprovedMeansReviewedInTime(c: Config, s: Store, id: string, operator: string, clock: Clock)
    requires Invariant(c, s) && ApproveStep(s, id, operator, clock).response.outcome == WasApproved
    ensures id in s.entries && s.entries[id].status == Pending && clock(0) < s.entries[id].expiresAt
    ensures var b := ApproveStep(s, id, operator, clock).store.entries[id];
      b.status == Approved && FullyReviewed(b) && ApproveStep(s, id, operator, clock).response.approval == Some(b)
  {
    ApproveKeeps(c, s, id, operator, clock);
  }
}
