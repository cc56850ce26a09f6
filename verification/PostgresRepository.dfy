/** The PostgreSQL repository as an abstract table with the column widths and constraints of
    app/storage/models.py, and its agreement with the in-memory repository. */
module PostgresRepository {
  import opened Common
  import opened TransactionStates
  import opened TransactionRepository

  type Table = set<Transaction>

  datatype StorageError = StorageUnavailable | DuplicateTransaction | IntegrityViolation

  predicate ShortOption(s: Option<string>, width: nat) {
    s.Some? ==> |s.value| <= width
  }

  predicate Int32(n: int) {
    -0x8000_0000 <= n < 0x8000_0000
  }

  predicate FieldsFit(f: Fields) {
    && |f.phoneNumber| <= 32 && Int32(f.amount)
    && |f.accountReference| <= 128 && |f.description| <= 255
    && |f.checkoutRequestId| <= 128 && |f.merchantRequestId| <= 128
    && ShortOption(f.idempotencyKey, 128)
    && |f.provider| <= 64 && |f.rail| <= 64
    && ShortOption(f.providerTransactionId, 128) && ShortOption(f.providerReference, 128)
  }

  predicate SettlementFits(s: Settlement) {
    && Int32(s.resultCode) && |s.resultDescription| <= 255 && ShortOption(s.mpesaReceiptNumber, 128)
  }

  /** Two rows that no unique constraint lets stand side by side. NULLs never clash. */
  predicate Clash(a: Transaction, b: Transaction) {
    || a.transactionId == b.transactionId
    || a.fields.checkoutRequestId == b.fields.checkoutRequestId
    || (a.fields.idempotencyKey.Some? && a.fields.idempotencyKey == b.fields.idempotencyKey)
    || (a.fields.providerTransactionId.Some? && a.fields.providerTransactionId == b.fields.providerTransactionId)
  }

  ghost predicate Consistent(table: Table) {
    && (forall a, b :: a in table && b in table && a != b ==> !Clash(a, b))
    && (forall a :: a in table ==> a.status in ALLOWED_STATUSES)
  }

  /** One insert: the values must fit, then the constraints are checked. */
  function Inserted(table: Table, row: Transaction): Result<Table, StorageError> {
    if !FieldsFit(row.fields) || |row.transactionId| > 36 then Err(StorageUnavailable)
    else if row.status !in ALLOWED_STATUSES then Err(IntegrityViolation)
    else if exists r :: r in table && Clash(r, row) then Err(DuplicateTransaction)
    else Ok(table + {row})
  }

  /** The row a query by checkout id selects. */
  ghost function Selected(table: Table, checkout: string): Option<Transaction> {
    if r :| r in table && r.fields.checkoutRequestId == checkout then Some(r) else None
  }

  ghost function SelectedByKey(table: Table, key: string): Option<Transaction> {
    if r :| r in table && r.fields.idempotencyKey == Some(key) then Some(r) else None
  }

  ghost function UpdateAnswer(table: Table, checkout: string, s: Settlement, now: Time)
    : Result<UpdateOutcome, StorageError>
  {
    var row := Selected(table, checkout);
    if row.None? then Ok(NotFound)
    else if !CanTransition(row.value.status, s.status) then Ok(Refused(row.value.status, s.status))
    else if !SettlementFits(s) then Err(StorageUnavailable)
    else Ok(Updated(Settled(row.value, s, now)))
  }

  ghost function UpdatedTable(table: Table, checkout: string, s: Settlement, now: Time): Table {
    var answer := UpdateAnswer(table, checkout, s, now);
    if answer.Ok? && answer.value.Updated? then table - {Selected(table, checkout).value} + {answer.value.row}
    else table
  }

  lemma UpdateKeepsConsistent(table: Table, row: Transaction, s: Settlement, now: Time)
    requires Consistent(table) && row in table && CanTransition(row.status, s.status)
    ensures Consistent(table - {row} + {Settled(row, s, now)})
  {
    forall a | a in table && a != row
      ensures !Clash(a, Settled(row, s, now)) && !Clash(Settled(row, s, now), a)
    {
      assert !Clash(a, row) && !Clash(row, a);
    }
  }

  /** The first and the last microsecond of a UTC day. */
  function StartOfDay(date: int): Time {
    date * MICROSECONDS_PER_DAY
  }

  function EndOfDay(date: int): Time {
    date * MICROSECONDS_PER_DAY + (MICROSECONDS_PER_DAY - 1)
  }

  class PostgresTransactionRepository {
    var table: Table

    ghost predicate Valid()
      reads this
    {
      Consistent(table)
    }

    constructor ()
      ensures Valid() && table == {}
    {
      table := {};
    }

    method SavePendingTransaction(fields: Fields, newId: string, now: Time)
      returns (r: Result<Transaction, StorageError>)
      requires Valid()
      modifies this
      ensures Valid()
      ensures match Inserted(old(table), NewTransaction(newId, fields, now))
        case Ok(t) => table == t && r == Ok(NewTransaction(newId, fields, now))
        case Err(e) => table == old(table) && r == Err(e)
    {
      var row := NewTransaction(newId, fields, now);
      var inserted := Inserted(table, row);
      match inserted {
        case Ok(t) =>
          table := t;
          return Ok(row);
        case Err(e) =>
          return Err(e);
      }
    }

    method FindByCheckoutRequestId(checkout: string) returns (found: Option<Transaction>)
      requires Valid()
      ensures found == Selected(table, checkout)
    {
      if r :| r in table && r.fields.checkoutRequestId == checkout {
        found := Some(r);
      } else {
        found := None;
      }
      if found.Some? {
        assert Clash(found.value, Selected(table, checkout).value);
      }
    }

    method FindByIdempotencyKey(key: string) returns (found: Option<Transaction>)
      requires Valid()
      ensures found == SelectedByKey(table, key)
    {
      if r :| r in table && r.fields.idempotencyKey == Some(key) {
        found := Some(r);
      } else {
        found := None;
      }
      if found.Some? {
        assert Clash(found.value, SelectedByKey(table, key).value);
      }
    }

    method UpdateTransactionStatus(checkout: string, s: Settlement, now: Time)
      returns (answer: Result<UpdateOutcome, StorageError>)
      requires Valid()
      modifies this
      ensures Valid()
      ensures answer == UpdateAnswer(old(table), checkout, s, now)
      ensures table == UpdatedTable(old(table), checkout, s, now)
    {
      var found := FindByCheckoutRequestId(checkout);
      if found.None? {
        return Ok(NotFound);
      }
      var row := found.value;
      if !CanTransition(row.status, s.status) {
        return Ok(Refused(row.status, s.status));
      }
      if !SettlementFits(s) {
        return Err(StorageUnavailable);
      }
      var updated := Settled(row, s, now);
      UpdateKeepsConsistent(table, row, s, now);
      table := table - {row} + {updated};
      answer := Ok(Updated(updated));
    }

    function ListTransactionsForDate(date: int): Table
      reads this
    {
      set r | r in table && StartOfDay(date) <= r.createdAt <= EndOfDay(date)
    }
  }

  // ---------------------------------------------------------------- agreement with memory

  datatype Call =
    | Save(fields: Fields, newId: string, now: Time)
    | Update(checkout: string, settlement: Settlement, now: Time)

  function MemoryStep(rows: Rows, call: Call): Rows {
    match call
    case Save(fields, newId, now) => Put(rows, NewTransaction(newId, fields, now))
    case Update(checkout, s, now) => UpdatedRows(rows, checkout, s, now)
  }

  function Memory(calls: seq<Call>): Rows {
    if calls == [] then [] else MemoryStep(Memory(calls[..|calls| - 1]), calls[|calls| - 1])
  }

  /** The table and the number of calls that ended in a storage error. */
  datatype Stored = Stored(table: Table, errors: nat)

  ghost function StoredStep(t: Stored, call: Call): Stored {
    match call
    case Save(fields, newId, now) =>
      (match Inserted(t.table, NewTransaction(newId, fields, now))
       case Ok(table) => t.(table := table)
       case Err(_) => t.(errors := t.errors + 1))
    case Update(checkout, s, now) =>
      Stored(UpdatedTable(t.table, checkout, s, now),
             t.errors + if UpdateAnswer(t.table, checkout, s, now).Err? then 1 else 0)
  }

  ghost function StoredAfter(calls: seq<Call>): Stored {
    if calls == [] then Stored({}, 0) else StoredStep(StoredAfter(calls[..|calls| - 1]), calls[|calls| - 1])
  }

  function RowSet(rows: Rows): Table {
    set r | r in rows
  }

  /** The call's values fit their columns and a saved row's ids are new. */
  ghost predicate RegularCall(rows: Rows, call: Call) {
    match call
    case Save(fields, newId, now) =>
      FieldsFit(fields) && |newId| <= 36 && forall r :: r in rows ==> !Clash(r, NewTransaction(newId, fields, now))
    case Update(_, s, _) => SettlementFits(s)
  }

  ghost predicate Regular(calls: seq<Call>) {
    forall i :: 0 <= i < |calls| ==> RegularCall(Memory(calls[..i]), calls[i])
  }

  ghost predicate ClashFree(rows: Rows) {
    && (forall i, j :: 0 <= i < j < |rows| ==> !Clash(rows[i], rows[j]))
    && (forall i :: 0 <= i < |rows| ==> rows[i].status in ALLOWED_STATUSES)
  }

  /** With clash-free rows the selected row is the first match. */
  lemma SelectionIsFirstMatch(rows: Rows, checkout: string)
    requires ClashFree(rows)
    ensures Selected(RowSet(rows), checkout) == RowAt(rows, IndexOfCheckout(rows, checkout))
  {
    var i := IndexOfCheckout(rows, checkout);
    if i < |rows| {
      assert rows[i] in RowSet(rows);
      var r := Selected(RowSet(rows), checkout).value;
      var j :| 0 <= j < |rows| && rows[j] == r;
      assert j == i;
    } else {
      assert forall r :: r in RowSet(rows) ==> r.fields.checkoutRequestId != checkout;
    }
  }

  lemma KeySelectionIsFirstMatch(rows: Rows, key: string)
    requires ClashFree(rows)
    ensures SelectedByKey(RowSet(rows), key) == RowAt(rows, IndexOfKey(rows, key))
  {
    var i := IndexOfKey(rows, key);
    if i < |rows| {
      assert rows[i] in RowSet(rows);
      var r := SelectedByKey(RowSet(rows), key).value;
      var j :| 0 <= j < |rows| && rows[j] == r;
      assert j == i;
    } else {
      assert forall r :: r in RowSet(rows) ==> r.fields.idempotencyKey != Some(key);
    }
  }

  lemma SaveAgrees(rows: Rows, fields: Fields, newId: string, now: Time)
    requires ClashFree(rows) && RegularCall(rows, Save(fields, newId, now))
    ensures var row := NewTransaction(newId, fields, now);
      && Put(rows, row) == rows + [row] && ClashFree(Put(rows, row))
      && Inserted(RowSet(rows), row) == Ok(RowSet(Put(rows, row)))
  {
    var row := NewTransaction(newId, fields, now);
    assert IndexOfId(rows, newId) == |rows| by {
      if IndexOfId(rows, newId) < |rows| {
        assert Clash(rows[IndexOfId(rows, newId)], row);
      }
    }
    assert RowSet(rows + [row]) == RowSet(rows) + {row};
  }

  lemma UpdateAgrees(rows: Rows, checkout: string, s: Settlement, now: Time)
    requires ClashFree(rows) && SettlementFits(s)
    ensures UpdateAnswer(RowSet(rows), checkout, s, now) == Ok(UpdateResult(rows, checkout, s, now))
    ensures UpdatedTable(RowSet(rows), checkout, s, now) == RowSet(UpdatedRows(rows, checkout, s, now))
    ensures ClashFree(UpdatedRows(rows, checkout, s, now))
  {
    var i := IndexOfCheckout(rows, checkout);
    SelectionIsFirstMatch(rows, checkout);
    UpdateInPlace(rows, checkout, s, now);
    if i < |rows| && CanTransition(rows[i].status, s.status) {
      var row := Settled(rows[i], s, now);
      DistinctRows(rows, i);
      ReplacedSet(rows, i, row);
      SettledClashFree(rows, i, s, now);
    }
  }

  lemma SettledClashFree(rows: Rows, i: nat, s: Settlement, now: Time)
    requires ClashFree(rows) && i < |rows| && CanTransition(rows[i].status, s.status)
    ensures ClashFree(rows[i := Settled(rows[i], s, now)])
  {
    var row := Settled(rows[i], s, now);
    DistinctRows(rows, i);
    forall j | 0 <= j < |rows| && j != i ensures !Clash(rows[j], row) && !Clash(row, rows[j]) {
      assert !Clash(rows[j], rows[i]);
    }
  }

  lemma DistinctRows(rows: Rows, i: nat)
    requires ClashFree(rows) && i < |rows|
    ensures forall j :: 0 <= j < |rows| && j != i ==> rows[j] != rows[i] && !Clash(rows[j], rows[i])
  {
    forall j | 0 <= j < |rows| && j != i ensures !Clash(rows[j], rows[i]) {
      assert !Clash(rows[if j < i then j else i], rows[if j < i then i else j]);
    }
  }

  lemma ReplacedSet(rows: Rows, i: nat, row: Transaction)
    requires i < |rows| && forall j :: 0 <= j < |rows| && j != i ==> rows[j] != rows[i]
    ensures RowSet(rows[i := row]) == RowSet(rows) - {rows[i]} + {row}
  {
    forall r | r in RowSet(rows) - {rows[i]} ensures r in rows[i := row] {
      var j :| 0 <= j < |rows| && rows[j] == r;
      assert rows[i := row][j] == r;
    }
    assert rows[i := row][i] == row;
  }

  lemma CallAgrees(rows: Rows, call: Call)
    requires ClashFree(rows) && RegularCall(rows, call)
    ensures StoredStep(Stored(RowSet(rows), 0), call) == Stored(RowSet(MemoryStep(rows, call)), 0)
    ensures ClashFree(MemoryStep(rows, call))
  {
    match call {
      case Save(fields, newId, now) => SaveAgrees(rows, fields, newId, now);
      case Update(checkout, s, now) => UpdateAgrees(rows, checkout, s, now);
    }
  }

  /** After the same calls, with new ids and values that fit, both repositories hold the same
      rows and no constraint of the table has ever fired. */
  lemma {:induction false} RepositoriesAgree(calls: seq<Call>)
    requires Regular(calls)
    ensures StoredAfter(calls) == Stored(RowSet(Memory(calls)), 0)
    ensures ClashFree(Memory(calls))
  {
    if calls == [] {
      assert RowSet([]) == {};
    } else {
      var n := |calls| - 1;
      forall i | 0 <= i < n ensures calls[..n][..i] == calls[..i] {}
      RepositoriesAgree(calls[..n]);
      CallAgrees(Memory(calls[..n]), calls[n]);
    }
  }

  /** Every query by checkout id, and the start-to-end-of-day query, give the same answers:
      the range selects exactly the rows whose UTC date is the target. */
  lemma QueriesAgree(calls: seq<Call>, checkout: string, date: int)
    requires Regular(calls)
    ensures var rows := Memory(calls);
      var table := StoredAfter(calls).table;
      && Selected(table, checkout) == RowAt(rows, IndexOfCheckout(rows, checkout))
      && (set r | r in table && StartOfDay(date) <= r.createdAt <= EndOfDay(date)) == RowSet(CreatedOn(rows, date))
  {
    RepositoriesAgree(calls);
    SelectionIsFirstMatch(Memory(calls), checkout);
    DateQuery(Memory(calls), date);
  }

  lemma {:induction false} DateQuery(rows: Rows, date: int)
    ensures RowSet(CreatedOn(rows, date))
         == set r | r in rows && StartOfDay(date) <= r.createdAt <= EndOfDay(date)
  {
    if rows == [] {
    } else {
      DateQuery(rows[1..], date);
      DayRange(rows[0].createdAt, date);
      var rest := set r | r in rows[1..] && StartOfDay(date) <= r.createdAt <= EndOfDay(date);
      assert (set r | r in rows && StartOfDay(date) <= r.createdAt <= EndOfDay(date))
          == rest + if DateOf(rows[0].createdAt) == date then {rows[0]} else {};
    }
  }

  lemma DayRange(t: Time, date: int)
    ensures StartOfDay(date) <= t <= EndOfDay(date) <==> DateOf(t) == date
  {}
}
