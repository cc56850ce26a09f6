/** What a callback does, told on the entries of its payload: when a transaction must settle, what
    it then holds, and which answer every other payload gets. */
module CallbackEffects {
  import opened Common
  import opened TransactionStates
  import opened TransactionRepository
  import opened Audit
  import opened Decimal
  import opened Json
  import opened Callbacks
  import Replay

  // ---------------------------------------------------------------- the entries of a payload

  /** `payload["Body"]["stkCallback"]` is the dictionary `c`. */
  predicate CallbackIn(payload: Dict, c: Dict) {
    && "Body" in payload && payload["Body"].JObject?
    && var body := payload["Body"].fields;
       "stkCallback" in body && body["stkCallback"].JObject? && body["stkCallback"].fields == c
  }

  predicate Text(source: Dict, key: string, text: string) {
    key in source && source[key] != JNull && Show(source[key]) == text
  }

  predicate Number(source: Dict, key: string, n: int) {
    key in source && ToInt(source[key]) == Some(n)
  }

  predicate Readable(c: Dict, checkout: string, code: int, description: string) {
    Text(c, "CheckoutRequestID", checkout) && Number(c, "ResultCode", code) && Text(c, "ResultDesc", description)
  }

  predicate ItemNames(item: Json, name: string) {
    item.JObject? && "Name" in item.fields && item.fields["Name"] == JText(name) && "Value" in item.fields
  }

  /** The last item that names `name` holds `v`. */
  ghost predicate Holds(items: seq<Json>, name: string, v: Json) {
    exists k :: 0 <= k < |items| && ItemNames(items[k], name) && items[k].fields["Value"] == v
                && forall l :: k < l < |items| ==> !ItemNames(items[l], name)
  }

  /** `c["CallbackMetadata"]["Item"]` holds `v` under `name`. */
  ghost predicate Datum(c: Dict, name: string, v: Json) {
    && "CallbackMetadata" in c && c["CallbackMetadata"].JObject?
    && var metadata := c["CallbackMetadata"].fields;
       "Item" in metadata && metadata["Item"].JList? && Holds(metadata["Item"].items, name, v)
  }

  ghost predicate DatumText(c: Dict, name: string, text: string) {
    exists v :: Datum(c, name, v) && v != JNull && Show(v) == text
  }

  ghost predicate DatumNumber(c: Dict, name: string, n: int) {
    exists v :: Datum(c, name, v) && ToInt(v) == Some(n)
  }

  lemma {:induction false} LastNamedHolds(items: seq<Json>, name: string, v: Json)
    ensures LastNamed(items, name) == Some(v) <==> Holds(items, name, v)
  {
    if items == [] {
    } else {
      var n := |items| - 1;
      LastNamedHolds(items[..n], name, v);
      if !ItemNames(items[n], name) && Holds(items[..n], name, v) {
        var k :| 0 <= k < n && ItemNames(items[..n][k], name) && items[..n][k].fields["Value"] == v
                 && forall l :: k < l < n ==> !ItemNames(items[..n][l], name);
        assert forall l :: k < l < n ==> items[..n][l] == items[l];
        assert ItemNames(items[k], name);
      }
    }
  }

  /** The handler's dictionary of metadata has exactly the data. */
  lemma MetadataIsData(c: Dict, name: string, v: Json)
    ensures name in Metadata(c) && Metadata(c)[name] == v <==> Datum(c, name, v)
  {
    LastItemWins(MetadataItems(c), name);
    LastNamedHolds(MetadataItems(c), name, v);
  }

  lemma TextIsRead(c: Dict, name: string, text: string)
    ensures GetString(Metadata(c), name) == Some(text) <==> DatumText(c, name, text)
  {
    forall v ensures name in Metadata(c) && Metadata(c)[name] == v <==> Datum(c, name, v) {
      MetadataIsData(c, name, v);
    }
  }

  lemma NumberIsRead(c: Dict, name: string, n: int)
    ensures GetInt(Metadata(c), name) == Some(n) <==> DatumNumber(c, name, n)
  {
    forall v ensures name in Metadata(c) && Metadata(c)[name] == v <==> Datum(c, name, v) {
      MetadataIsData(c, name, v);
    }
  }

  /** An option that holds what the data have under a name, if they have anything readable. */
  ghost predicate ReadsText(o: Option<string>, c: Dict, name: string) {
    match o
    case Some(text) => DatumText(c, name, text)
    case None => forall t :: !DatumText(c, name, t)
  }

  ghost predicate ReadsNumber(o: Option<int>, c: Dict, name: string) {
    match o
    case Some(n) => DatumNumber(c, name, n)
    case None => forall n :: !DatumNumber(c, name, n)
  }

  lemma DataAreRead(c: Dict, name: string)
    ensures ReadsText(GetString(Metadata(c), name), c, name)
    ensures ReadsNumber(GetInt(Metadata(c), name), c, name)
  {
    forall t ensures GetString(Metadata(c), name) == Some(t) <==> DatumText(c, name, t) {
      TextIsRead(c, name, t);
    }
    forall n ensures GetInt(Metadata(c), name) == Some(n) <==> DatumNumber(c, name, n) {
      NumberIsRead(c, name, n);
    }
  }

  // ---------------------------------------------------------------- the clauses

  /** The first row with the checkout id. */
  ghost predicate First(rows: Rows, i: nat, checkout: string) {
    && i < |rows| && rows[i].fields.checkoutRequestId == checkout
    && forall j :: 0 <= j < i ==> rows[j].fields.checkoutRequestId != checkout
  }

  ghost predicate SuccessData(c: Dict) {
    && (exists n :: DatumNumber(c, "Amount", n))
    && (exists t :: DatumText(c, "MpesaReceiptNumber", t))
    && (exists t :: DatumText(c, "PhoneNumber", t))
  }

  ghost predicate AmountAgrees(c: Dict, row: Transaction) {
    forall n :: DatumNumber(c, "Amount", n) ==> n == row.fields.amount
  }

  ghost predicate PhoneAgrees(c: Dict, row: Transaction) {
    forall t :: DatumText(c, "PhoneNumber", t) ==> DigitsOnly(t) == DigitsOnly(row.fields.phoneNumber)
  }

  lemma ClausesAreRead(c: Dict, row: Transaction)
    ensures HasSuccessMetadata(Metadata(c)) <==> SuccessData(c)
    ensures AmountAgrees(c, row)
       <==> (GetInt(Metadata(c), "Amount").Some? ==> GetInt(Metadata(c), "Amount").value == row.fields.amount)
    ensures PhoneAgrees(c, row)
       <==> (var p := GetString(Metadata(c), "PhoneNumber");
             p.Some? ==> DigitsOnly(p.value) == DigitsOnly(row.fields.phoneNumber))
  {
    forall n ensures GetInt(Metadata(c), "Amount") == Some(n) <==> DatumNumber(c, "Amount", n) {
      NumberIsRead(c, "Amount", n);
    }
    forall t ensures GetString(Metadata(c), "MpesaReceiptNumber") == Some(t) <==> DatumText(c, "MpesaReceiptNumber", t) {
      TextIsRead(c, "MpesaReceiptNumber", t);
    }
    forall t ensures GetString(Metadata(c), "PhoneNumber") == Some(t) <==> DatumText(c, "PhoneNumber", t) {
      TextIsRead(c, "PhoneNumber", t);
    }
  }

  /** Only digits count in a phone number, all of them, and in their order. */
  lemma {:induction false} DigitsOnlyJoins(a: string, b: string)
    ensures DigitsOnly(a + b) == DigitsOnly(a) + DigitsOnly(b)
  {
    if a == "" {
      assert a + b == b;
    } else {
      var head := if IsDigit(a[0]) then [a[0]] else [];
      assert (a + b)[0] == a[0] && (a + b)[1..] == a[1..] + b;
      DigitsOnlyJoins(a[1..], b);
      Associates(head, DigitsOnly(a[1..]), DigitsOnly(b));
    }
  }

  lemma Associates(a: string, b: string, c: string)
    ensures (a + b) + c == a + (b + c)
  {}

  lemma {:induction false} DigitsAreKept(a: string)
    requires AllDigits(a)
    ensures DigitsOnly(a) == a
  {
    if a == "" {
    } else {
      DigitsAreKept(a[1..]);
      assert a == [a[0]] + a[1..];
    }
  }

  lemma {:induction false} OthersAreDropped(a: string)
    requires forall i :: 0 <= i < |a| ==> !IsDigit(a[i])
    ensures DigitsOnly(a) == ""
  {
    if a == "" {
    } else {
      OthersAreDropped(a[1..]);
    }
  }

  // ---------------------------------------------------------------- the seven outcomes

  lemma ReadableIsRead(payload: Dict, c: Dict, checkout: string, code: int, description: string)
    requires CallbackIn(payload, c)
    ensures ExtractCallback(payload) == Some(c)
    ensures Readable(c, checkout, code, description)
       <==> ReadFacts(c) == Some(Facts(checkout, code, description, Metadata(c)))
  {}

  /** The row after its callback: settled by code, with the receipt number if the data has one. */
  ghost predicate SettledBy(row: Transaction, after: Transaction, c: Dict, code: int, description: string, now: Time) {
    && after.status == (if code == 0 then Completed else Failed)
    && after.resultCode == Some(code) && after.resultDescription == Some(description) && after.updatedAt == now
    && ReadsText(after.mpesaReceiptNumber, c, "MpesaReceiptNumber")
    && after.transactionId == row.transactionId && after.fields == row.fields && after.createdAt == row.createdAt
  }

  /** The texts and numbers that an answer repeats from the data. */
  ghost predicate Repeats(r: Processing, c: Dict) {
    && ReadsText(r.mpesaReceiptNumber, c, "MpesaReceiptNumber")
    && ReadsText(r.phoneNumber, c, "PhoneNumber")
    && ReadsNumber(r.amount, c, "Amount")
  }

  /** All that it takes for a callback to settle row `i`. */
  ghost predicate MustSettle(rows: Rows, payload: Dict, c: Dict, checkout: string, code: int, description: string,
                             i: nat)
  {
    && CallbackIn(payload, c) && Readable(c, checkout, code, description)
    && First(rows, i, checkout) && rows[i].status == Pending
    && AmountAgrees(c, rows[i]) && PhoneAgrees(c, rows[i])
    && (code == 0 ==> SuccessData(c))
  }

  /** Which clause fails first decides the verdict. */
  lemma KnownVerdict(rows: Rows, payload: Dict, c: Dict, checkout: string, code: int, description: string, i: nat)
    requires CallbackIn(payload, c) && Readable(c, checkout, code, description) && First(rows, i, checkout)
    ensures var f := Facts(checkout, code, description, Metadata(c));
      && Judge(rows, payload) == (
           if code == 0 && !SuccessData(c) then Malformed(Some(checkout))
           else if rows[i].status != Pending then BadTransition(f)
           else if !AmountAgrees(c, rows[i]) then WrongAmount(f, rows[i])
           else if !PhoneAgrees(c, rows[i]) then WrongPhone(f, rows[i])
           else Settles(f, rows[i]))
      && (!AmountAgrees(c, rows[i]) ==> f.Amount().Some?)
      && (!PhoneAgrees(c, rows[i]) ==> f.Phone().Some?)
      && IndexOfCheckout(rows, checkout) == i && CanTransition(Pending, f.Target())
  {
    var f := Facts(checkout, code, description, Metadata(c));
    ReadableIsRead(payload, c, checkout, code, description);
    assert IndexOfCheckout(rows, checkout) == i;
    ClausesAreRead(c, rows[i]);
    OnlyPendingMoves(rows[i].status, f.Target(), Pending);
    OnlyPendingMoves(Pending, f.Target(), Pending);
  }

  lemma DataAreRepeated(f: Facts, c: Dict)
    requires f.metadata == Metadata(c)
    ensures ReadsText(f.Receipt(), c, "MpesaReceiptNumber")
    ensures ReadsText(f.Phone(), c, "PhoneNumber")
    ensures ReadsNumber(f.Amount(), c, "Amount")
  {
    DataAreRead(c, "MpesaReceiptNumber");
    DataAreRead(c, "PhoneNumber");
    DataAreRead(c, "Amount");
  }

  /** The answer and the log entry of a refusal, by the clause that failed. */
  ghost predicate RefusedFor(r: Processing, e: AuditEvent, row: Transaction, c: Dict, checkout: string, code: int,
                             description: string)
  {
    if code == 0 && !SuccessData(c) then
      && r == Processing(InvalidCallback, false, Some(checkout), None, None, None, None, None, None)
      && e == CallbackInvalidPayload(Some(checkout))
    else if row.status != Pending then
      && r == Processing(InvalidTransition, false, Some(checkout), Some(code), Some(description),
                         r.mpesaReceiptNumber, r.phoneNumber, r.amount, None)
      && Repeats(r, c) && e == CallbackInvalidTransition(checkout)
    else if !AmountAgrees(c, row) then
      && r == Processing(AmountMismatch, false, Some(checkout), Some(code), Some(description),
                         None, None, r.amount, Some(row.transactionId))
      && r.amount.Some? && DatumNumber(c, "Amount", r.amount.value)
      && e == CallbackAmountMismatch(checkout, row.transactionId, r.amount.value)
    else
      && r == Processing(PhoneMismatch, false, Some(checkout), Some(code), Some(description),
                         None, r.phoneNumber, None, Some(row.transactionId))
      && r.phoneNumber.Some? && DatumText(c, "PhoneNumber", r.phoneNumber.value)
      && e == CallbackPhoneMismatch(checkout, row.transactionId, r.phoneNumber.value)
  }

  /** The answer and the log entry of a settled transaction. */
  ghost predicate SettledFor(r: Processing, e: AuditEvent, row: Transaction, c: Dict, checkout: string, code: int,
                             description: string)
  {
    && r == Processing(if code == 0 then CallbackCompleted else CallbackFailed, code == 0, Some(checkout),
                       Some(code), Some(description), r.mpesaReceiptNumber, r.phoneNumber, r.amount,
                       Some(row.transactionId))
    && Repeats(r, c)
    && e == CallbackProcessed(checkout, row.transactionId, code)
  }

  lemma RefusingVerdict(v: Verdict, f: Facts, row: Transaction, c: Dict)
    requires f.metadata == Metadata(c) && (AmountAgrees(c, row) && PhoneAgrees(c, row) && row.status == Pending ==>
                                             f.code == 0 && !SuccessData(c))
    requires v == (if f.code == 0 && !SuccessData(c) then Malformed(Some(f.checkout))
                   else if row.status != Pending then BadTransition(f)
                   else if !AmountAgrees(c, row) then WrongAmount(f, row)
                   else WrongPhone(f, row))
    requires !AmountAgrees(c, row) ==> f.Amount().Some?
    requires !PhoneAgrees(c, row) ==> f.Phone().Some?
    ensures RefusedFor(ResultOf(v), EventOf(v), row, c, f.checkout, f.code, f.description)
  {
    DataAreRepeated(f, c);
  }

  lemma SettlingVerdict(f: Facts, row: Transaction, c: Dict, now: Time)
    requires f.metadata == Metadata(c)
    ensures SettledFor(ResultOf(Settles(f, row)), EventOf(Settles(f, row)), row, c, f.checkout, f.code, f.description)
    ensures SettledBy(row, Settled(row, f.ToSettlement(), now), c, f.code, f.description, now)
  {
    DataAreRepeated(f, c);
  }

  /** A readable callback for a known transaction that fails a clause: the first one that fails
      decides the answer and the log entry, and no transaction changes. */
  lemma KnownCallbackRefused(rows: Rows, payload: Dict, now: Time, c: Dict, checkout: string, code: int,
                             description: string, i: nat)
    requires CallbackIn(payload, c) && Readable(c, checkout, code, description) && First(rows, i, checkout)
    requires !MustSettle(rows, payload, c, checkout, code, description, i)
    ensures RowsAfter(rows, payload, now) == rows
    ensures RefusedFor(AnswerTo(rows, payload), LoggedFor(rows, payload), rows[i], c, checkout, code, description)
  {
    KnownVerdict(rows, payload, c, checkout, code, description, i);
    RefusingVerdict(Judge(rows, payload), Facts(checkout, code, description, Metadata(c)), rows[i], c);
  }

  /** If no clause fails, the transaction settles where it stands. */
  lemma KnownCallbackSettles(rows: Rows, payload: Dict, now: Time, c: Dict, checkout: string, code: int,
                             description: string, i: nat) returns (after: Transaction)
    requires DistinctIds(rows) && MustSettle(rows, payload, c, checkout, code, description, i)
    ensures SettledFor(AnswerTo(rows, payload), LoggedFor(rows, payload), rows[i], c, checkout, code, description)
    ensures RowsAfter(rows, payload, now) == rows[i := after]
    ensures SettledBy(rows[i], after, c, code, description, now)
  {
    var f := Facts(checkout, code, description, Metadata(c));
    KnownVerdict(rows, payload, c, checkout, code, description, i);
    SettlingVerdict(f, rows[i], c, now);
    UpdateInPlace(rows, checkout, f.ToSettlement(), now);
    after := Settled(rows[i], f.ToSettlement(), now);
  }

  lemma UnknownCallbackOutcome(rows: Rows, payload: Dict, now: Time, c: Dict, checkout: string, code: int,
                               description: string)
    requires CallbackIn(payload, c) && Readable(c, checkout, code, description)
    requires forall i :: 0 <= i < |rows| ==> rows[i].fields.checkoutRequestId != checkout
    ensures var r := AnswerTo(rows, payload);
      && r == Processing(UnknownTransaction, false, Some(checkout), None, None, None, None, None, None)
      && LoggedFor(rows, payload) == CallbackUnknownTransaction(checkout) && RowsAfter(rows, payload, now) == rows
  {
    ReadableIsRead(payload, c, checkout, code, description);
  }

  /** A payload without a readable callback is invalid. */
  lemma UnreadableCallbackOutcome(rows: Rows, payload: Dict, now: Time)
    requires forall c, checkout, code, description ::
      CallbackIn(payload, c) ==> !Readable(c, checkout, code, description)
    ensures var r := AnswerTo(rows, payload);
      && r == Processing(InvalidCallback, false, r.checkoutRequestId, None, None, None, None, None, None)
      && (forall t :: r.checkoutRequestId == Some(t)
            <==> exists c :: CallbackIn(payload, c) && Text(c, "CheckoutRequestID", t))
      && LoggedFor(rows, payload) == CallbackInvalidPayload(r.checkoutRequestId)
      && RowsAfter(rows, payload, now) == rows
  {
    var callback := ExtractCallback(payload);
    forall c ensures CallbackIn(payload, c) <==> callback == Some(c) {}
    if callback.Some? && ReadFacts(callback.value).Some? {
      var f := ReadFacts(callback.value).value;
      assert CallbackIn(payload, callback.value) && Readable(callback.value, f.checkout, f.code, f.description);
      assert false;
    }
  }

  /** The exact condition, for every payload: transactions change if and only if the callback is
      readable, the first transaction with its checkout id is pending, the amount and the phone
      agree as far as they are given, and code 0 comes with amount, receipt number and phone. */
  lemma SettlesExactly(rows: Rows, payload: Dict, now: Time)
    requires DistinctIds(rows)
    ensures RowsAfter(rows, payload, now) != rows
       <==> exists c, checkout, code, description, i :: MustSettle(rows, payload, c, checkout, code, description, i)
  {
    forall c, checkout, code, description, i: nat | MustSettle(rows, payload, c, checkout, code, description, i)
      ensures RowsAfter(rows, payload, now) != rows
    {
      var after := KnownCallbackSettles(rows, payload, now, c, checkout, code, description, i);
      assert rows[i := after][i].status != rows[i].status;
    }
    if RowsAfter(rows, payload, now) != rows {
      SettlesOnlyMatchingPending(rows, payload, now);
      var callback := ExtractCallback(payload).value;
      var f := ReadFacts(callback).value;
      var i := IndexOfCheckout(rows, f.checkout);
      ReadableIsRead(payload, callback, f.checkout, f.code, f.description);
      if !MustSettle(rows, payload, callback, f.checkout, f.code, f.description, i) {
        KnownCallbackRefused(rows, payload, now, callback, f.checkout, f.code, f.description, i);
      }
    }
  }

  // ---------------------------------------------------------------- the shapes of a payload

  function Shown(source: Dict, key: string): string {
    if key in source && source[key] != JNull then Show(source[key]) else ""
  }

  /** The three shapes of one callback have one replay fingerprint: wrapped in `Body`, wrapped in
      `stkCallback` only, or bare. */
  lemma ShapesShareFingerprint(c: Dict, shown: string)
    requires "Body" !in c && "stkCallback" !in c
    ensures var wrapped := map["stkCallback" := JObject(c, shown)];
      Replay.FingerprintOf(map["Body" := JObject(wrapped, shown)])
      == Replay.FingerprintOf(wrapped) == Replay.FingerprintOf(c)
  {
    var wrapped := map["stkCallback" := JObject(c, shown)];
    assert Replay.ReplayCallback(map["Body" := JObject(wrapped, shown)]) == c;
    assert Replay.ReplayCallback(wrapped) == c && Replay.ReplayCallback(c) == c;
  }

  /** A fingerprint shows the checkout id, the result code and the receipt number of the data. */
  lemma FingerprintShowsEntries(payload: Dict, c: Dict)
    requires CallbackIn(payload, c)
    ensures var f := Replay.FingerprintOf(payload);
      && f.checkout == Shown(c, "CheckoutRequestID") && f.resultCode == Shown(c, "ResultCode")
      && (forall t :: DatumText(c, "MpesaReceiptNumber", t) ==> f.receipt == t)
      && ((forall t :: !DatumText(c, "MpesaReceiptNumber", t)) ==> f.receipt == "")
  {
    forall t ensures GetString(Metadata(c), "MpesaReceiptNumber") == Some(t) <==> DatumText(c, "MpesaReceiptNumber", t) {
      TextIsRead(c, "MpesaReceiptNumber", t);
    }
    assert Replay.ReplayCallback(payload) == c;
    var receipt := GetString(Metadata(c), "MpesaReceiptNumber");
    if receipt.Some? {
      assert DatumText(c, "MpesaReceiptNumber", receipt.value);
    }
  }
}
