/** The in-memory transaction repository (app/storage/repositories.py). */
module TransactionRepository {
  import opened Common
  import opened TransactionStates

  /** What a caller asks the repository to store. */
  datatype Fields = Fields(
    phoneNumber: string, amount: int, accountReference: string, description: string,
    checkoutRequestId: string, merchantRequestId: string, idempotencyKey: Option<string>,
    provider: string, rail: string,
    providerTransactionId: Option<string>, providerReference: Option<string>)

  datatype Transaction = Transaction(
    transactionId: string, fields: Fields, createdAt: Time, updatedAt: Time, status: Status,
    resultCode: Option<int>, resultDescription: Option<string>, mpesaReceiptNumber: Option<string>)

  function NewTransaction(id: string, fields: Fields, now: Time): Transaction {
    Transaction(id, fields, now, now, Pending, None, None, None)
  }

  /** The repository's dictionary in insertion order; every row holds its own key. */
  type Rows = seq<Transaction>

  ghost predicate DistinctIds(rows: Rows) {
    forall i, j :: 0 <= i < j < |rows| ==> rows[i].transactionId != rows[j].transactionId
  }

  /** The position of the first row with the given id, or the length when there is none. */
  function IndexOfId(rows: Rows, id: string): (i: nat)
    ensures i <= |rows|
    ensures i < |rows| ==> rows[i].transactionId == id
    ensures forall j :: 0 <= j < i ==> rows[j].transactionId != id
  {
    if rows == [] then 0
    else if rows[0].transactionId == id then 0
    else 1 + IndexOfId(rows[1..], id)
  }

  function IndexOfCheckout(rows: Rows, checkout: string): (i: nat)
    ensures i <= |rows|
    ensures i < |rows| ==> rows[i].fields.checkoutRequestId == checkout
    ensures forall j :: 0 <= j < i ==> rows[j].fields.checkoutRequestId != checkout
  {
    if rows == [] then 0
    else if rows[0].fields.checkoutRequestId == checkout then 0
    else 1 + IndexOfCheckout(rows[1..], checkout)
  }

  function IndexOfKey(rows: Rows, key: string): (i: nat)
    ensures i <= |rows|
    ensures i < |rows| ==> rows[i].fields.idempotencyKey == Some(key)
    ensures forall j :: 0 <= j < i ==> rows[j].fields.idempotencyKey != Some(key)
  {
    if rows == [] then 0
    else if rows[0].fields.idempotencyKey == Some(key) then 0
    else 1 + IndexOfKey(rows[1..], key)
  }

  function RowAt(rows: Rows, i: nat): Option<Transaction> {
    if i < |rows| then Some(rows[i]) else None
  }

  /** A dictionary write: a known id keeps its position, a new one goes to the end. */
  function Put(rows: Rows, row: Transaction): Rows {
    var i := IndexOfId(rows, row.transactionId);
    if i < |rows| then rows[i := row] else rows + [row]
  }

  /** What a callback settles on a transaction. */
  datatype Settlement = Settlement(
    status: Status, resultCode: int, resultDescription: string, mpesaReceiptNumber: Option<string>)

  function Settled(row: Transaction, s: Settlement, now: Time): Transaction {
    row.(status := s.status, resultCode := Some(s.resultCode), resultDescription := Some(s.resultDescription),
         mpesaReceiptNumber := s.mpesaReceiptNumber, updatedAt := now)
  }

  datatype UpdateOutcome = NotFound | Refused(from: Status, to: Status) | Updated(row: Transaction)

  function UpdateResult(rows: Rows, checkout: string, s: Settlement, now: Time): UpdateOutcome {
    var i := IndexOfCheckout(rows, checkout);
    if i == |rows| then NotFound
    else if !CanTransition(rows[i].status, s.status) then Refused(rows[i].status, s.status)
    else Updated(Settled(rows[i], s, now))
  }

  function UpdatedRows(rows: Rows, checkout: string, s: Settlement, now: Time): Rows {
    var r := UpdateResult(rows, checkout, s, now);
    if r.Updated? then Put(rows, r.row) else rows
  }

  /** With distinct ids an update replaces the first row with that checkout id where it stands. */
  lemma UpdateInPlace(rows: Rows, checkout: string, s: Settlement, now: Time)
    requires DistinctIds(rows)
    ensures var i := IndexOfCheckout(rows, checkout);
      UpdatedRows(rows, checkout, s, now)
      == if i < |rows| && CanTransition(rows[i].status, s.status) then rows[i := Settled(rows[i], s, now)] else rows
  {
    var i := IndexOfCheckout(rows, checkout);
    if i < |rows| {
      assert IndexOfId(rows, rows[i].transactionId) == i;
    }
  }

  function WithStatus(rows: Rows, status: Status): Rows {
    if rows == [] then []
    else (if rows[0].status == status then [rows[0]] else []) + WithStatus(rows[1..], status)
  }

  function CreatedOn(rows: Rows, date: int): Rows {
    if rows == [] then []
    else (if DateOf(rows[0].createdAt) == date then [rows[0]] else []) + CreatedOn(rows[1..], date)
  }

  class InMemoryTransactionRepository {
    var transactions: Rows

    constructor ()
      ensures transactions == []
    {
      transactions := [];
    }

    method SavePendingTransaction(fields: Fields, newId: string, now: Time) returns (row: Transaction)
      modifies this
      ensures row == NewTransaction(newId, fields, now)
      ensures transactions == Put(old(transactions), row)
    {
      row := NewTransaction(newId, fields, now);
      transactions := Put(transactions, row);
    }

    function FindByCheckoutRequestId(checkout: string): Option<Transaction>
      reads this
    {
      RowAt(transactions, IndexOfCheckout(transactions, checkout))
    }

    function FindByIdempotencyKey(key: string): Option<Transaction>
      reads this
    {
      RowAt(transactions, IndexOfKey(transactions, key))
    }

    method UpdateTransactionStatus(checkout: string, s: Settlement, now: Time) returns (outcome: UpdateOutcome)
      modifies this
      ensures outcome == UpdateResult(old(transactions), checkout, s, now)
      ensures transactions == UpdatedRows(old(transactions), checkout, s, now)
    {
      var found := FindByCheckoutRequestId(checkout);
      if found.None? {
        return NotFound;
      }
      if !CanTransition(found.value.status, s.status) {
        return Refused(found.value.status, s.status);
      }
      var row := Settled(found.value, s, now);
      transactions := Put(transactions, row);
      return Updated(row);
    }

    function ListTransactions(): Rows
      reads this
    {
      transactions
    }

    function ListTransactionsForDate(date: int): Rows
      reads this
    {
      CreatedOn(transactions, date)
    }
  }
}
