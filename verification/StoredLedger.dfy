/** Payment execution over the constrained table (app/services/payment_service.py over the
    PostgreSQL repository): when the ledger stays exact, and what is lost when it does not. */
module StoredLedger {
  import opened Common
  import opened TransactionStates
  import opened TransactionRepository
  import opened Audit
  import opened Callbacks
  import opened Payments
  import opened Lifecycle
  import opened PaymentEffects
  import opened PostgresRepository

  /** What the payment service writes to. */
  datatype StoredBooks = StoredBooks(table: Table, events: seq<AuditEvent>, counts: Counts, calls: seq<ProviderCall>)

  /** The outcome of an execution: its answer, or the storage error that escapes from it. */
  datatype Outcome = Answered(response: PaymentResponse) | Escaped(error: StorageError)

  datatype Executing = Executing(q: Request, answer: Answer, newId: string, now: Time)

  function RowOf(x: Executing): Transaction
    requires x.answer.Accepted?
  {
    NewTransaction(x.newId, FieldsOf(x.q, x.answer.initiation), x.now)
  }

  ghost function StoredExecution(b: StoredBooks, x: Executing): (StoredBooks, Outcome) {
    var existing := SelectedByKey(b.table, x.q.idempotencyKey);
    if existing.Some? then (b, Answered(ExistingResponse(existing.value)))
    else
      var called := b.(calls := b.calls + [CallOf(x.q, x.answer)]);
      match x.answer
      case Raised => (called.(counts := Counted(b.counts, FailedPayment)), Answered(FAILED))
      case Accepted(i) =>
        match Inserted(b.table, RowOf(x))
        case Err(error) => (called, Escaped(error))
        case Ok(table) =>
          (called.(table := table, events := b.events + [InitiatedEvent(RowOf(x))],
                   counts := Counted(b.counts, SuccessfulPayment)),
           Answered(NewResponse(RowOf(x), i)))
  }

  class StoredPaymentService {
    const provider: PaymentProvider
    const repository: PostgresTransactionRepository
    const auditLog: AuditLog
    const metrics: Metrics

    ghost function State(): StoredBooks
      reads provider, repository, auditLog, metrics
    {
      StoredBooks(repository.table, auditLog.events, metrics.counts, provider.calls)
    }

    constructor (provider: PaymentProvider, repository: PostgresTransactionRepository, auditLog: AuditLog,
                 metrics: Metrics)
      ensures this.provider == provider && this.repository == repository
      ensures this.auditLog == auditLog && this.metrics == metrics
    {
      this.provider, this.repository, this.auditLog, this.metrics := provider, repository, auditLog, metrics;
    }

    /** The provider is called before the insert, which no handler guards. */
    method ExecuteStkPush(x: Executing) returns (outcome: Outcome)
      requires repository.Valid()
      modifies provider, repository, auditLog, metrics
      ensures repository.Valid()
      ensures (State(), outcome) == StoredExecution(old(State()), x)
    {
      var existing := repository.FindByIdempotencyKey(x.q.idempotencyKey);
      if existing.Some? {
        return Answered(ExistingResponse(existing.value));
      }
      var reply := provider.InitiatePayment(
        x.q.phoneNumber, x.q.amount, x.q.accountReference, x.q.description, x.answer);
      if reply == Raised {
        metrics.Increment(FailedPayment);
        return Answered(FAILED);
      }
      var saved := repository.SavePendingTransaction(FieldsOf(x.q, reply.initiation), x.newId, x.now);
      if saved.Err? {
        return Escaped(saved.error);
      }
      auditLog.LogEvent(InitiatedEvent(saved.value));
      metrics.Increment(SuccessfulPayment);
      outcome := Answered(NewResponse(saved.value, reply.initiation));
    }
  }

  // ---------------------------------------------------------------- what an execution does and answers

  /** The row fits its columns and stands beside every stored row. */
  ghost predicate Storable(table: Table, row: Transaction) {
    FieldsFit(row.fields) && |row.transactionId| <= 36 && forall r :: r in table ==> !Clash(r, row)
  }

  /** With a taken key nothing changes, and the one row under it is answered. */
  lemma StoredRepeat(b: StoredBooks, x: Executing, row: Transaction)
    requires Consistent(b.table) && row in b.table && row.fields.idempotencyKey == Some(x.q.idempotencyKey)
    ensures var (c, outcome) := StoredExecution(b, x);
      c == b && outcome.Answered? && Names(outcome.response, row) && outcome.response.responseCode == None
  {
    var found := SelectedByKey(b.table, x.q.idempotencyKey).value;
    if found != row {
      assert Clash(found, row);
    }
  }

  /** With an unused key the provider is called once. If it raises, that is one failed payment; if
      it accepts a row that can be stored, that is one row, one event and one count, and the
      answer names the row; otherwise the storage error escapes and nothing else has happened. */
  lemma StoredFirstTry(b: StoredBooks, x: Executing)
    requires forall r :: r in b.table ==> r.fields.idempotencyKey != Some(x.q.idempotencyKey)
    ensures var (c, outcome) := StoredExecution(b, x);
      && c.calls == b.calls + [ProviderCall(x.q.phoneNumber, x.q.amount, x.q.accountReference, x.q.description,
                                            x.answer)]
      && (x.answer.Raised? ==>
          && c == b.(calls := c.calls, counts := b.counts.(failedPayments := b.counts.failedPayments + 1))
          && outcome.Answered? && Refuses(outcome.response, InitiationFailed))
      && (x.answer.Accepted? && Storable(b.table, RowOf(x)) ==>
          && StoredFor(RowOf(x), x.q, x.answer.initiation, x.newId, x.now)
          && c.table == b.table + {RowOf(x)}
          && c.events == b.events + [StkPushInitiated(x.newId, x.q.amount, x.q.phoneNumber, Some(x.q.idempotencyKey),
                                                      x.answer.initiation.checkoutRequestId,
                                                      x.answer.initiation.merchantRequestId)]
          && c.counts == b.counts.(successfulPayments := b.counts.successfulPayments + 1)
          && outcome.Answered? && Names(outcome.response, RowOf(x))
          && outcome.response.responseCode == Some(x.answer.initiation.responseCode))
      && (x.answer.Accepted? && !Storable(b.table, RowOf(x)) ==> c == b.(calls := c.calls) && outcome.Escaped?)
  {}

  /** The widths and the unique columns of the table, spelled out: a pending row is stored exactly
      when it fits and no unique column would hold a value twice. */
  lemma InsertedExactly(table: Table, row: Transaction)
    requires row.status == Pending
    ensures Inserted(table, row) == Ok(table + {row})
       <==> && |row.transactionId| <= 36 && |row.fields.phoneNumber| <= 32
            && -0x8000_0000 <= row.fields.amount < 0x8000_0000
            && |row.fields.accountReference| <= 128 && |row.fields.description| <= 255
            && |row.fields.checkoutRequestId| <= 128 && |row.fields.merchantRequestId| <= 128
            && |row.fields.idempotencyKey.GetOr("")| <= 128
            && |row.fields.provider| <= 64 && |row.fields.rail| <= 64
            && |row.fields.providerTransactionId.GetOr("")| <= 128 && |row.fields.providerReference.GetOr("")| <= 128
            && row.transactionId !in (set r | r in table :: r.transactionId)
            && row.fields.checkoutRequestId !in (set r | r in table :: r.fields.checkoutRequestId)
            && (row.fields.idempotencyKey == None
                || row.fields.idempotencyKey !in (set r | r in table :: r.fields.idempotencyKey))
            && (row.fields.providerTransactionId == None
                || row.fields.providerTransactionId !in (set r | r in table :: r.fields.providerTransactionId))
  {}

  // ---------------------------------------------------------------- runs

  /** Executions, and callbacks that have passed the handler's checks. */
  datatype Call = Execute(x: Executing) | Settle(f: Facts, now: Time)

  ghost function StoredStep(b: StoredBooks, c: Call): StoredBooks {
    match c
    case Execute(x) => StoredExecution(b, x).0
    case Settle(f, now) => b.(table := UpdatedTable(b.table, f.checkout, f.ToSettlement(), now))
  }

  const NOTHING_STORED: StoredBooks := StoredBooks({}, [], Counts(0, 0, 0, 0, 0), [])

  ghost function StoredRun(calls: seq<Call>): StoredBooks {
    if calls == [] then NOTHING_STORED else StoredStep(StoredRun(calls[..|calls| - 1]), calls[|calls| - 1])
  }

  /** An execution that the provider accepts and the table refuses. */
  ghost predicate Lost(b: StoredBooks, c: Call) {
    && c.Execute? && c.x.answer.Accepted? && SelectedByKey(b.table, c.x.q.idempotencyKey).None?
    && !Storable(b.table, RowOf(c.x))
  }

  /** How many executions of a run are lost. */
  ghost function LostCalls(calls: seq<Call>): nat {
    if calls == [] then 0
    else
      var before := calls[..|calls| - 1];
      LostCalls(before) + if Lost(StoredRun(before), calls[|calls| - 1]) then 1 else 0
  }

  /** Stored rows, recorded initiations and the success counter agree, whatever was lost. */
  ghost predicate Recorded(b: StoredBooks) {
    && Consistent(b.table)
    && |Initiations(b.events)| == |b.table| && b.counts.successfulPayments == |b.table|
  }

  lemma InsertGrows(table: Table, row: Transaction)
    requires Consistent(table) && row.status == TransactionStates.Pending
    ensures Inserted(table, row).Ok? <==> Storable(table, row)
    ensures Storable(table, row) ==>
      Consistent(Inserted(table, row).value) && |Inserted(table, row).value| == |table| + 1
  {
    if row in table {
      assert Clash(row, row);
    }
    if Storable(table, row) {
      forall a | a in table ensures !Clash(a, row) && !Clash(row, a) {}
    }
  }

  lemma ExecutionRecords(b: StoredBooks, x: Executing)
    requires Recorded(b)
    ensures var c := StoredExecution(b, x).0;
      && Recorded(c)
      && |AcceptedCalls(c.calls)| - |c.table|
         == |AcceptedCalls(b.calls)| - |b.table| + if Lost(b, Execute(x)) then 1 else 0
  {
    if SelectedByKey(b.table, x.q.idempotencyKey).None? {
      OneCall(b.calls, CallOf(x.q, x.answer));
      if x.answer.Accepted? {
        OneInitiation(b.events, InitiatedEvent(RowOf(x)));
        InsertGrows(b.table, RowOf(x));
      }
    }
  }

  lemma SettlingRecords(b: StoredBooks, f: Facts, now: Time)
    requires Recorded(b)
    ensures var c := StoredStep(b, Settle(f, now)); Recorded(c) && |c.table| == |b.table|
  {
    var answer := UpdateAnswer(b.table, f.checkout, f.ToSettlement(), now);
    if answer.Ok? && answer.value.Updated? {
      var row := Selected(b.table, f.checkout).value;
      UpdateKeepsConsistent(b.table, row, f.ToSettlement(), now);
      assert answer.value.row !in b.table - {row} by {
        if answer.value.row in b.table - {row} {
          assert Clash(row, answer.value.row);
        }
      }
    }
  }

  /** In every run the accepted provider calls outnumber the stored transactions, the recorded
      initiations and the success counter by exactly the lost executions. */
  lemma {:induction false} GapIsLostCalls(calls: seq<Call>)
    ensures var b := StoredRun(calls);
      Recorded(b) && |AcceptedCalls(b.calls)| == |b.table| + LostCalls(calls)
  {
    if calls == [] {
    } else {
      var before, c := calls[..|calls| - 1], calls[|calls| - 1];
      GapIsLostCalls(before);
      match c {
        case Execute(x) => ExecutionRecords(StoredRun(before), x);
        case Settle(f, now) => SettlingRecords(StoredRun(before), f, now);
      }
    }
  }

  ghost predicate LostAt(calls: seq<Call>, i: nat)
    requires i < |calls|
  {
    Lost(StoredRun(calls[..i]), calls[i])
  }

  /** No execution of the run is lost. */
  ghost predicate NothingLost(calls: seq<Call>) {
    forall i :: 0 <= i < |calls| ==> !LostAt(calls, i)
  }

  lemma LostBefore(calls: seq<Call>, n: nat, i: nat)
    requires i < n <= |calls|
    ensures LostAt(calls[..n], i) <==> LostAt(calls, i)
  {
    assert calls[..n][..i] == calls[..i];
  }

  lemma {:induction false} LostCallsCount(calls: seq<Call>)
    ensures LostCalls(calls) == 0 <==> NothingLost(calls)
  {
    if calls == [] {
    } else {
      var n := |calls| - 1;
      LostCallsCount(calls[..n]);
      forall i | 0 <= i < n ensures LostAt(calls[..n], i) <==> LostAt(calls, i) {
        LostBefore(calls, n, i);
      }
      assert LostAt(calls, n) <==> Lost(StoredRun(calls[..n]), calls[n]);
    }
  }

  /** The exact condition: over the table, accepted provider calls and stored transactions are
      equal in number if and only if every accepted execution fits the columns and clashes with
      no stored row. */
  lemma StoredLedgerIsExactly(calls: seq<Call>)
    ensures |AcceptedCalls(StoredRun(calls).calls)| == |StoredRun(calls).table| <==> NothingLost(calls)
  {
    GapIsLostCalls(calls);
    LostCallsCount(calls);
  }

  // ---------------------------------------------------------------- agreement with memory

  function MemoryCall(b: Books, c: Call): Books {
    match c
    case Execute(x) => Executed(b, x.q, x.answer, x.newId, x.now)
    case Settle(f, now) => b.(rows := UpdatedRows(b.rows, f.checkout, f.ToSettlement(), now))
  }

  function MemoryRun(calls: seq<Call>): Books {
    if calls == [] then START.books else MemoryCall(MemoryRun(calls[..|calls| - 1]), calls[|calls| - 1])
  }

  ghost function StoredView(b: Books): StoredBooks {
    StoredBooks(RowSet(b.rows), b.events, b.counts, b.calls)
  }

  /** A positive amount, or a settlement that fits its columns. */
  predicate Proper(c: Call) {
    match c
    case Execute(x) => x.q.amount > 0
    case Settle(f, _) => SettlementFits(f.ToSettlement())
  }

  ghost predicate LedgerHolds(b: Books) {
    ClashFree(b.rows) && RowsOk(b.rows) && LedgerOk(b)
  }

  lemma ExecutionAgrees(b: Books, x: Executing)
    requires LedgerHolds(b) && x.q.amount > 0 && !Lost(StoredView(b), Execute(x))
    ensures StoredExecution(StoredView(b), x)
         == (StoredView(Executed(b, x.q, x.answer, x.newId, x.now)),
             Answered(ExecutedResponse(b, x.q, x.answer, x.newId, x.now)))
    ensures LedgerHolds(Executed(b, x.q, x.answer, x.newId, x.now))
  {
    KeySelectionIsFirstMatch(b.rows, x.q.idempotencyKey);
    if Unused(b.rows, x.q.idempotencyKey) {
      match x.answer {
        case Raised =>
          RaisedKeepsLedger(b, x);
        case Accepted(i) =>
          assert RegularCall(b.rows, Save(FieldsOf(x.q, i), x.newId, x.now));
          SaveAgrees(b.rows, FieldsOf(x.q, i), x.newId, x.now);
          assert NewId(b.rows, x.newId);
          ExecutedKeeps(b, x.q, x.answer, x.newId, x.now);
      }
    }
  }

  lemma RaisedKeepsLedger(b: Books, x: Executing)
    requires LedgerHolds(b) && x.answer == Raised
    ensures LedgerHolds(Executed(b, x.q, x.answer, x.newId, x.now))
  {
    OneCall(b.calls, CallOf(x.q, x.answer));
  }

  lemma SettlementAgrees(b: Books, f: Facts, now: Time)
    requires LedgerHolds(b) && SettlementFits(f.ToSettlement())
    ensures StoredStep(StoredView(b), Settle(f, now)) == StoredView(MemoryCall(b, Settle(f, now)))
    ensures LedgerHolds(MemoryCall(b, Settle(f, now)))
  {
    var i := IndexOfCheckout(b.rows, f.checkout);
    UpdateAgrees(b.rows, f.checkout, f.ToSettlement(), now);
    UpdateInPlace(b.rows, f.checkout, f.ToSettlement(), now);
    if i < |b.rows| {
      SettlingKeeps(b, i, f, now);
    }
  }

  /** With nothing lost, a run over the table is the run over memory: the same rows, log,
      counters and provider calls, corresponding one by one. */
  lemma {:induction false} StoredRunIsMemoryRun(calls: seq<Call>)
    requires NothingLost(calls) && forall i :: 0 <= i < |calls| ==> Proper(calls[i])
    ensures StoredRun(calls) == StoredView(MemoryRun(calls))
    ensures LedgerHolds(MemoryRun(calls))
  {
    if calls == [] {
      assert RowSet([]) == {};
    } else {
      var n := |calls| - 1;
      forall i | 0 <= i < n ensures !LostAt(calls[..n], i) {
        LostBefore(calls, n, i);
      }
      assert !LostAt(calls, n);
      StoredRunIsMemoryRun(calls[..n]);
      match calls[n] {
        case Execute(x) => ExecutionAgrees(MemoryRun(calls[..n]), x);
        case Settle(f, now) => SettlementAgrees(MemoryRun(calls[..n]), f, now);
      }
    }
  }

  // ---------------------------------------------------------------- what a lost execution costs

  ghost function StoredExecutions(b: StoredBooks, xs: seq<Executing>): StoredBooks {
    if xs == [] then b else StoredExecution(StoredExecutions(b, xs[..|xs| - 1]), xs[|xs| - 1]).0
  }

  function CallsOf(xs: seq<Executing>): seq<ProviderCall> {
    if xs == [] then []
    else CallsOf(xs[..|xs| - 1]) + [CallOf(xs[|xs| - 1].q, xs[|xs| - 1].answer)]
  }

  /** A request whose account reference is wider than its column is paid on every try: each one
      ends in a storage error after the provider has accepted, and leaves no row, no event and
      no count behind, so the key stays unused. */
  lemma {:induction false} WideReferencePaysEveryTime(b: StoredBooks, q: Request, xs: seq<Executing>)
    requires |q.accountReference| > 128 && SelectedByKey(b.table, q.idempotencyKey).None?
    requires forall i :: 0 <= i < |xs| ==> xs[i].q == q && xs[i].answer.Accepted?
    ensures StoredExecutions(b, xs) == b.(calls := b.calls + CallsOf(xs))
    ensures forall i :: 0 <= i < |xs| ==> StoredExecution(b, xs[i]).1 == Escaped(StorageUnavailable)
  {
    if xs == [] {
      assert b.calls + [] == b.calls;
    } else {
      WideReferencePaysEveryTime(b, q, xs[..|xs| - 1]);
    }
  }
}
