/** What rejecting a duplicate callback can lose: the exact condition, and a callback that is lost. */
module Suppression {
  import opened Common
  import opened TransactionStates
  import opened TransactionRepository
  import opened Decimal
  import opened Json
  import opened Callbacks
  import opened Lifecycle
  import opened LifecycleTheorems
  import opened Replay
  import CallbackRoutes

  // ---------------------------------------------------------------- payloads

  function Object(fields: Dict): Json {
    JObject(fields, "")
  }

  function Item(name: string, value: Json): Json {
    Object(map["Name" := JText(name), "Value" := value])
  }

  function SuccessItems(amount: int, receipt: string, phone: string): seq<Json> {
    [Item("Amount", JInt(amount)), Item("MpesaReceiptNumber", JText(receipt)), Item("PhoneNumber", JText(phone))]
  }

  /** A callback body as the provider sends it. */
  function StkBody(checkout: string, code: Json, items: seq<Json>): Dict {
    map["Body" := Object(map["stkCallback" := Object(map[
      "CheckoutRequestID" := JText(checkout), "ResultCode" := code, "ResultDesc" := JText("result"),
      "CallbackMetadata" := Object(map["Item" := JList(items, "")])])])]
  }

  /** A success callback for a transaction's checkout id and phone, with some amount. */
  function SuccessFor(row: Transaction, amount: int, receipt: string): Dict {
    StkBody(row.fields.checkoutRequestId, JInt(0), SuccessItems(amount, receipt, row.fields.phoneNumber))
  }

  lemma SuccessMetadata(amount: int, receipt: string, phone: string)
    ensures Parsed(SuccessItems(amount, receipt, phone))
         == map["Amount" := JInt(amount), "MpesaReceiptNumber" := JText(receipt), "PhoneNumber" := JText(phone)]
  {
    var items := SuccessItems(amount, receipt, phone);
    assert items[..2] == [items[0], items[1]] && items[..2][..1] == [items[0]] && [items[0]][..0] == [];
    assert Parsed([items[0]]) == map["Amount" := JInt(amount)];
    assert Parsed(items[..2]) == map["Amount" := JInt(amount), "MpesaReceiptNumber" := JText(receipt)];
  }

  lemma BodyParts(checkout: string, code: Json, items: seq<Json>)
    ensures var p := StkBody(checkout, code, items);
      && ExtractCallback(p).Some? && ReplayCallback(p) == ExtractCallback(p).value
      && FingerprintOf(p) == Fingerprint(checkout, StringOrEmpty(code),
                                         StringOrEmpty(Get(Parsed(items), "MpesaReceiptNumber")))
    ensures var c := ExtractCallback(StkBody(checkout, code, items)).value;
      && GetString(c, "CheckoutRequestID") == Some(checkout) && Get(c, "ResultCode") == code
      && GetString(c, "ResultDesc") == Some("result") && Metadata(c) == Parsed(items)
  {}

  // ---------------------------------------------------------------- a correct callback is lost

  /** The first transaction with its checkout id, still pending. */
  predicate Awaits(rows: Rows, i: nat) {
    && i < |rows| && rows[i].status == Pending
    && IndexOfCheckout(rows, rows[i].fields.checkoutRequestId) == i
  }

  /** For every transaction that awaits its callback: a success callback with a wrong amount is
      refused, one with the right amount settles it, and both have one fingerprint. */
  lemma WrongAndRightShareFingerprint(rows: Rows, i: nat, receipt: string, wrong: int)
    requires Awaits(rows, i) && wrong != rows[i].fields.amount
    ensures FingerprintOf(SuccessFor(rows[i], wrong, receipt))
         == FingerprintOf(SuccessFor(rows[i], rows[i].fields.amount, receipt))
         == Fingerprint(rows[i].fields.checkoutRequestId, "0", receipt)
    ensures Judge(rows, SuccessFor(rows[i], wrong, receipt)).WrongAmount?
    ensures Judge(rows, SuccessFor(rows[i], rows[i].fields.amount, receipt)).Settles?
  {
    var f := rows[i].fields;
    SuccessMetadata(wrong, receipt, f.phoneNumber);
    SuccessMetadata(f.amount, receipt, f.phoneNumber);
    BodyParts(f.checkoutRequestId, JInt(0), SuccessItems(wrong, receipt, f.phoneNumber));
    BodyParts(f.checkoutRequestId, JInt(0), SuccessItems(f.amount, receipt, f.phoneNumber));
    OnlyPendingMoves(Pending, Completed, Pending);
  }

  /** Two payloads with one fingerprint, of which the second would settle a transaction and the
      first would not. */
  predicate Misleads(rows: Rows, f: Fingerprint, first: Dict, second: Dict) {
    FingerprintOf(first) == FingerprintOf(second) == f && !Judge(rows, first).Settles? && Judge(rows, second).Settles?
  }

  /** So suppression loses something: with replay protection on and the key not seen, the first
      of such payloads shuts out the second. */
  lemma MisleadingShutsOut(s: CallbackRoutes.Settings, w: World, f: Fingerprint, first: Dict, second: Dict,
                           now: Time, clock: real, later: real)
    requires s.protected && s.windowSeconds >= 1 && clock <= later < clock + s.windowSeconds as real
    requires DistinctIds(w.books.rows) && Accepts(w.seen, KeyOf(s.hash, f), clock)
    requires Misleads(w.books.rows, f, first, second)
    ensures var v := AfterCallback(s, w, first, now, clock);
      && v.books.rows == w.books.rows
      && !CallbackRoutes.Passes(s, v.seen, second, later)
      && RowsAfter(v.books.rows, second, now) != v.books.rows
  {
    UnappliedKeysSuppress(s, w, first, second, now, clock, later);
  }

  /** And there are such payloads for every transaction that awaits its callback. */
  lemma EveryAwaitedCallbackCanBeLost(rows: Rows, i: nat, receipt: string)
    requires Awaits(rows, i)
    ensures Misleads(rows, Fingerprint(rows[i].fields.checkoutRequestId, "0", receipt),
                     SuccessFor(rows[i], rows[i].fields.amount + 1, receipt),
                     SuccessFor(rows[i], rows[i].fields.amount, receipt))
  {
    WrongAndRightShareFingerprint(rows, i, receipt, rows[i].fields.amount + 1);
  }

  // ---------------------------------------------------------------- exactly when something can be lost

  /** The result code that the handler reads from a value shown as this text. */
  function CodeOf(text: string): Option<int> {
    if text == "True" then Some(1) else if text == "False" then Some(0) else ParseDecimal(text)
  }

  lemma BooleansAreNoNumbers()
    ensures ParseDecimal("True").None? && ParseDecimal("False").None?
  {
    assert !IsDigit("True"[0]) && !IsDigit("False"[0]);
  }

  /** The handler's reading depends on the shown text only. */
  lemma CodeIsByText(v: Json)
    requires ToInt(v).Some?
    ensures CodeOf(Show(v)) == ToInt(v)
  {
    if v.JInt? {
      DecimalRoundTrip(v.number);
    }
    BooleansAreNoNumbers();
  }

  /** A value that shows as the text and from which the code is read. */
  function CodeValue(text: string): (v: Json)
    requires CodeOf(text).Some?
    ensures !v.JNull? && Show(v) == text && ToInt(v) == CodeOf(text)
  {
    if text == "True" then JBool(true) else if text == "False" then JBool(false) else JText(text)
  }

  /** Whether a callback with this fingerprint can still settle a transaction: its result code is
      readable and the first transaction with its checkout id is pending. */
  predicate StillOpen(rows: Rows, f: Fingerprint) {
    && CodeOf(f.resultCode).Some?
    && var i := IndexOfCheckout(rows, f.checkout); i < |rows| && rows[i].status == Pending
  }

  lemma OpenFingerprintSettles(rows: Rows, f: Fingerprint) returns (p: Dict)
    requires StillOpen(rows, f)
    ensures FingerprintOf(p) == f && Judge(rows, p).Settles?
  {
    var row := rows[IndexOfCheckout(rows, f.checkout)];
    var code := CodeValue(f.resultCode);
    var items := SuccessItems(row.fields.amount, f.receipt, row.fields.phoneNumber);
    SuccessMetadata(row.fields.amount, f.receipt, row.fields.phoneNumber);
    BodyParts(f.checkout, code, items);
    p := StkBody(f.checkout, code, items);
    OnlyPendingMoves(Pending, Completed, Pending);
    OnlyPendingMoves(Pending, TransactionStates.Failed, Pending);
  }

  lemma SettlingIsOpen(rows: Rows, p: Dict)
    requires Judge(rows, p).Settles?
    ensures StillOpen(rows, FingerprintOf(p))
  {
    SettlingIsByFacts(rows, p);
    FactsAreRead(rows, p);
    FactsSettle(rows, Judge(rows, p).facts);
    CodeIsByText(Get(ExtractCallback(p).value, "ResultCode"));
  }

  /** Some payload with the fingerprint would settle a transaction exactly when it is still open:
      for every result code, every receipt text and every shape of the payload. */
  lemma LosableExactly(rows: Rows, f: Fingerprint)
    ensures (exists p: Dict :: FingerprintOf(p) == f && Judge(rows, p).Settles?) <==> StillOpen(rows, f)
  {
    if StillOpen(rows, f) {
      var p := OpenFingerprintSettles(rows, f);
    }
    forall p: Dict | FingerprintOf(p) == f && Judge(rows, p).Settles? ensures StillOpen(rows, f) {
      SettlingIsOpen(rows, p);
    }
  }

  ghost predicate Injective(hash: string -> string) {
    forall s, t :: hash(s) == hash(t) ==> s == t
  }

  /** Some payload with this replay key would change a transaction. */
  ghost predicate Loses(hash: string -> string, rows: Rows, key: string, now: Time) {
    exists p: Dict :: ReplayKey(hash, p) == key && RowsAfter(rows, p, now) != rows
  }

  /** The exact condition: suppressing the replay key of a payload can lose a callback if and only
      if the payload's result code is readable and the first transaction with its checkout id is
      pending. Nothing else about the payload or the state matters. */
  lemma SuppressionLosesExactly(hash: string -> string, rows: Rows, payload: Dict, now: Time)
    requires Injective(hash) && DistinctIds(rows)
    ensures Loses(hash, rows, ReplayKey(hash, payload), now) <==> StillOpen(rows, FingerprintOf(payload))
  {
    if StillOpen(rows, FingerprintOf(payload)) {
      var p := OpenFingerprintSettles(rows, FingerprintOf(payload));
      SettlingChangesRows(rows, p, now);
      assert ReplayKey(hash, p) == ReplayKey(hash, payload);
    }
    forall p: Dict | ReplayKey(hash, p) == ReplayKey(hash, payload) && RowsAfter(rows, p, now) != rows
      ensures StillOpen(rows, FingerprintOf(payload))
    {
      KeyIdentifiesFingerprint(hash, p, payload);
      SettlesOnlyMatchingPending(rows, p, now);
      SettlingIsOpen(rows, p);
    }
  }

  lemma SettlingChangesRows(rows: Rows, p: Dict, now: Time)
    requires DistinctIds(rows) && Judge(rows, p).Settles?
    ensures RowsAfter(rows, p, now) != rows
  {
    SettlesOnlyMatchingPending(rows, p, now);
    var f := Judge(rows, p).facts;
    var i := IndexOfCheckout(rows, f.checkout);
    assert RowsAfter(rows, p, now)[i].status != rows[i].status;
  }
}
