/** The text hashed for a derived idempotency key (app/services/payment_service.py). */
module IdempotencyKey {
  import opened Common
  import opened Decimal

  function RawKey(phone: string, amount: int, reference: string, description: string): string {
    phone + "|" + DecimalText(amount) + "|" + reference + "|" + description
  }

  predicate BarFree(s: string) {
    '|' !in s
  }

  lemma AmountIsBarFree(n: int)
    ensures BarFree(DecimalText(n))
  {
    var body := Digits(if n < 0 then -n else n);
    forall i | 0 <= i < |body| ensures body[i] != '|' {
      assert IsDigit(body[i]);
    }
  }

  /** The text up to the first bar, and the rest, are determined. */
  lemma SplitAtFirstBar(a: string, x: string, b: string, y: string)
    requires BarFree(a) && BarFree(b)
    requires a + "|" + x == b + "|" + y
    ensures a == b && x == y
  {
    var s := a + "|" + x;
    assert s[|a|] == '|' && s[|b|] == '|';
    assert forall i :: 0 <= i < |a| ==> s[i] == a[i];
    assert forall i :: 0 <= i < |b| ==> s[i] == b[i];
    assert a == s[..|a|] && b == s[..|b|];
    assert x == s[|a| + 1..] && y == s[|b| + 1..];
  }

  lemma RawKeyParts(phone: string, amount: int, reference: string, description: string)
    ensures RawKey(phone, amount, reference, description)
         == phone + "|" + (DecimalText(amount) + "|" + (reference + "|" + description))
  {
    var a := DecimalText(amount);
    assert a + "|" + (reference + "|" + description) == a + "|" + reference + "|" + description;
  }

  /** Requests whose phone and account reference contain no bar share a key text only if
      they agree in every field, whatever their descriptions and amounts. */
  lemma RawKeyIsInjective(
    p1: string, a1: int, r1: string, d1: string, p2: string, a2: int, r2: string, d2: string)
    requires BarFree(p1) && BarFree(r1) && BarFree(p2) && BarFree(r2)
    requires RawKey(p1, a1, r1, d1) == RawKey(p2, a2, r2, d2)
    ensures p1 == p2 && a1 == a2 && r1 == r2 && d1 == d2
  {
    var rest1 := DecimalText(a1) + "|" + (r1 + "|" + d1);
    var rest2 := DecimalText(a2) + "|" + (r2 + "|" + d2);
    RawKeyParts(p1, a1, r1, d1);
    RawKeyParts(p2, a2, r2, d2);
    SplitAtFirstBar(p1, rest1, p2, rest2);
    AmountIsBarFree(a1);
    AmountIsBarFree(a2);
    SplitAtFirstBar(DecimalText(a1), r1 + "|" + d1, DecimalText(a2), r2 + "|" + d2);
    SplitAtFirstBar(r1, d1, r2, d2);
    DecimalRoundTrip(a1);
    DecimalRoundTrip(a2);
  }

  // ---------------------------------------------------------------- when requests share a text

  /** A bar in the reference can be moved into the description, and back. */
  lemma ReferenceBarMoves(phone: string, amount: int, x: string, y: string, description: string)
    ensures RawKey(phone, amount, x + "|" + y, description) == RawKey(phone, amount, x, y + "|" + description)
  {
    var a := DecimalText(amount);
    RawKeyParts(phone, amount, x + "|" + y, description);
    RawKeyParts(phone, amount, x, y + "|" + description);
    assert (x + "|" + y) + "|" + description == x + "|" + (y + "|" + description);
  }

  /** Between a bar and the next bar, or the end, the phone reads as the amount `n`. */
  predicate AmountAfter(phone: string, x: string, n: int) {
    x + "|" + DecimalText(n) + "|" <= phone + "|"
  }

  /** A segment of the phone, after the first one, reads as an amount. */
  ghost predicate HoldsAmount(phone: string) {
    exists x, n :: AmountAfter(phone, x, n)
  }

  /** No other request has the same text. */
  ghost predicate TextIsUnshared(phone: string, amount: int, reference: string, description: string) {
    forall p, a, r, d :: RawKey(p, a, r, d) == RawKey(phone, amount, reference, description) ==>
      p == phone && a == amount && r == reference && d == description
  }

  function Bars(s: string): nat {
    if s == "" then 0 else (if s[0] == '|' then 1 else 0) + Bars(s[1..])
  }

  lemma {:induction false} BarsAdd(s: string, t: string)
    ensures Bars(s + t) == Bars(s) + Bars(t)
  {
    if s == "" {
      assert s + t == t;
    } else {
      assert (s + t)[1..] == s[1..] + t;
      BarsAdd(s[1..], t);
    }
  }

  lemma {:induction false} NoBars(s: string)
    ensures Bars(s) == 0 <==> BarFree(s)
  {
    if s == "" {
    } else {
      NoBars(s[1..]);
      assert s == [s[0]] + s[1..];
    }
  }

  lemma JoinedBars(a: string, b: string)
    ensures Bars(a + "|" + b) == Bars(a) + 1 + Bars(b)
  {
    BarsAdd(a + "|", b);
    BarsAdd(a, "|");
  }

  /** The first bar of a text that has one. */
  lemma {:induction false} FirstBar(s: string) returns (head: string, tail: string)
    requires !BarFree(s)
    ensures s == head + "|" + tail && BarFree(head)
  {
    if s[0] == '|' {
      head, tail := "", s[1..];
    } else {
      head, tail := FirstBar(s[1..]);
      head := [s[0]] + head;
    }
  }

  /** Texts that agree after different phones: the longer phone has the shorter one and a bar as
      its beginning. */
  lemma LongerPhone(p: string, u: string, q: string, v: string) returns (z: string)
    requires p + "|" + u == q + "|" + v && |q| < |p|
    ensures p == q + "|" + z && z + "|" + u == v
  {
    var s := p + "|" + u;
    z := p[|q| + 1..];
    assert q == s[..|q|] == p[..|q|];
    assert p[|q|] == s[|q|] == (q + "|" + v)[|q|] == '|';
    assert p == p[..|q|] + [p[|q|]] + z;
    assert s == (q + "|") + (z + "|" + u) == (q + "|") + v;
    assert z + "|" + u == s[|q| + 1..] == v;
  }

  /** A bar-free text that ends at the first bar of `z|u` ends at the first bar of `z|`. */
  lemma FirstSegment(z: string, u: string, n: string, v: string)
    requires BarFree(n) && z + "|" + u == n + "|" + v
    ensures n + "|" <= z + "|"
  {
    if BarFree(z) {
      SplitAtFirstBar(z, u, n, v);
    } else {
      var head, tail := FirstBar(z);
      assert z + "|" + u == head + "|" + (tail + "|" + u);
      SplitAtFirstBar(head, tail + "|" + u, n, v);
    }
  }

  /** If the phone begins with another request's phone and a bar, what follows is that request's amount. */
  lemma ShorterPhoneShares(p: string, a: int, r: string, d: string, q: string, b: int, r': string, d': string)
    requires RawKey(p, a, r, d) == RawKey(q, b, r', d') && |q| < |p|
    ensures HoldsAmount(p)
  {
    var u, v := DecimalText(a) + "|" + (r + "|" + d), r' + "|" + d';
    RawKeyParts(p, a, r, d);
    RawKeyParts(q, b, r', d');
    var z := LongerPhone(p, u, q, DecimalText(b) + "|" + v);
    AmountIsBarFree(b);
    FirstSegment(z, u, DecimalText(b), v);
    Regroup(q + "|", z, "|");
    Regroup(q + "|", DecimalText(b), "|");
    assert AmountAfter(p, q, b);
  }

  /** With a bar-free reference and description, no other request has a longer phone. */
  lemma NoLongerPhone(p: string, a: int, r: string, d: string, q: string, b: int, r': string, d': string)
    requires RawKey(p, a, r, d) == RawKey(q, b, r', d') && BarFree(r) && BarFree(d)
    ensures |q| <= |p|
  {
    if |p| < |q| {
      RawKeyParts(p, a, r, d);
      RawKeyParts(q, b, r', d');
      var z := LongerPhone(q, DecimalText(b) + "|" + (r' + "|" + d'), p, DecimalText(a) + "|" + (r + "|" + d));
      AmountIsBarFree(a);
      NoBars(DecimalText(a));
      NoBars(r);
      NoBars(d);
      JoinedBars(r, d);
      JoinedBars(DecimalText(a), r + "|" + d);
      JoinedBars(r', d');
      JoinedBars(DecimalText(b), r' + "|" + d');
      JoinedBars(z, DecimalText(b) + "|" + (r' + "|" + d'));
      assert false;
    }
  }

  /** With equal phones and a bar-free reference and description, the requests are equal. */
  lemma SamePhone(p: string, a: int, r: string, d: string, b: int, r': string, d': string)
    requires RawKey(p, a, r, d) == RawKey(p, b, r', d') && BarFree(r) && BarFree(d)
    ensures a == b && r == r' && d == d'
  {
    RawKeyParts(p, a, r, d);
    RawKeyParts(p, b, r', d');
    var u, v := DecimalText(a) + "|" + (r + "|" + d), DecimalText(b) + "|" + (r' + "|" + d');
    assert u == (p + "|" + u)[|p| + 1..] && v == (p + "|" + v)[|p| + 1..];
    AmountIsBarFree(a);
    AmountIsBarFree(b);
    SplitAtFirstBar(DecimalText(a), r + "|" + d, DecimalText(b), r' + "|" + d');
    DecimalRoundTrip(a);
    DecimalRoundTrip(b);
    JoinedBars(r, d);
    JoinedBars(r', d');
    NoBars(r);
    NoBars(d);
    NoBars(r');
    SplitAtFirstBar(r, d, r', d');
  }

  lemma BarInReferenceShares(phone: string, amount: int, reference: string, description: string)
    returns (r: string, d: string)
    requires !BarFree(reference)
    ensures r != reference && RawKey(phone, amount, r, d) == RawKey(phone, amount, reference, description)
  {
    var x, y := FirstBar(reference);
    ReferenceBarMoves(phone, amount, x, y, description);
    r, d := x, y + "|" + description;
    assert |x| < |reference|;
  }

  lemma BarInDescriptionShares(phone: string, amount: int, reference: string, description: string)
    returns (r: string, d: string)
    requires !BarFree(description)
    ensures d != description && RawKey(phone, amount, r, d) == RawKey(phone, amount, reference, description)
  {
    var x, y := FirstBar(description);
    ReferenceBarMoves(phone, amount, reference, x, y);
    r, d := reference + "|" + x, y;
    assert |y| < |description|;
  }

  lemma AmountInPhoneShares(phone: string, amount: int, reference: string, description: string, x: string, n: int)
    returns (r: string, d: string)
    requires AmountAfter(phone, x, n)
    ensures x != phone && RawKey(x, n, r, d) == RawKey(phone, amount, reference, description)
  {
    var rest := (phone + "|")[|x + "|" + DecimalText(n) + "|"|..];
    var body := DecimalText(amount) + "|" + (reference + "|" + description);
    assert (rest + body)[|rest| + |DecimalText(amount)|] == '|';
    r, d := FirstBar(rest + body);
    RawKeyParts(phone, amount, reference, description);
    Regroup(x + "|" + DecimalText(n) + "|", rest, body);
    RawKeyTail(x, n, r, d);
    assert |x| < |phone|;
  }

  lemma RawKeyTail(phone: string, amount: int, reference: string, description: string)
    ensures RawKey(phone, amount, reference, description)
         == (phone + "|" + DecimalText(amount) + "|") + (reference + "|" + description)
  {}

  lemma Regroup(a: string, b: string, c: string)
    ensures (a + b) + c == a + (b + c)
  {}

  lemma HeldAmountsNeedBars(phone: string, x: string, n: int)
    requires AmountAfter(phone, x, n)
    ensures !BarFree(phone)
  {
    assert (x + "|" + DecimalText(n) + "|")[|x|] == (phone + "|")[|x|];
    assert phone[|x|] == '|';
  }

  lemma PlainTextIsUnshared(phone: string, amount: int, reference: string, description: string,
                            p: string, a: int, r: string, d: string)
    requires BarFree(reference) && BarFree(description) && !HoldsAmount(phone)
    requires RawKey(p, a, r, d) == RawKey(phone, amount, reference, description)
    ensures p == phone && a == amount && r == reference && d == description
  {
    NoLongerPhone(phone, amount, reference, description, p, a, r, d);
    if |p| < |phone| {
      ShorterPhoneShares(phone, amount, reference, description, p, a, r, d);
    } else {
      assert p == RawKey(p, a, r, d)[..|p|] == phone;
      SamePhone(phone, amount, reference, description, a, r, d);
    }
  }

  /** The exact condition, over all requests: a text belongs to one request only if and only if
      neither its reference nor its description has a bar and no segment of its phone, after the
      first, reads as an amount. */
  lemma UnsharedExactly(phone: string, amount: int, reference: string, description: string)
    ensures TextIsUnshared(phone, amount, reference, description)
       <==> BarFree(reference) && BarFree(description) && !HoldsAmount(phone)
  {
    if !BarFree(reference) {
      var r, d := BarInReferenceShares(phone, amount, reference, description);
    } else if !BarFree(description) {
      var r, d := BarInDescriptionShares(phone, amount, reference, description);
    } else if HoldsAmount(phone) {
      var x, n :| AmountAfter(phone, x, n);
      var r, d := AmountInPhoneShares(phone, amount, reference, description, x, n);
    } else {
      forall p, a, r, d | RawKey(p, a, r, d) == RawKey(phone, amount, reference, description)
        ensures p == phone && a == amount && r == reference && d == description
      {
        PlainTextIsUnshared(phone, amount, reference, description, p, a, r, d);
      }
    }
  }

  /** Among requests with bar-free phones, a text belongs to one only if and only if neither
      its reference nor its description has a bar. */
  lemma UnsharedAmongPlainPhones(phone: string, amount: int, reference: string, description: string)
    requires BarFree(phone)
    ensures (forall p, a, r, d ::
               BarFree(p) && RawKey(p, a, r, d) == RawKey(phone, amount, reference, description) ==>
                 p == phone && a == amount && r == reference && d == description)
       <==> BarFree(reference) && BarFree(description)
  {
    if !BarFree(reference) {
      var r, d := BarInReferenceShares(phone, amount, reference, description);
    } else if !BarFree(description) {
      var r, d := BarInDescriptionShares(phone, amount, reference, description);
    } else {
      if HoldsAmount(phone) {
        var x, n :| AmountAfter(phone, x, n);
        HeldAmountsNeedBars(phone, x, n);
        assert false;
      }
      UnsharedExactly(phone, amount, reference, description);
    }
  }

  /** Two such pairs: a barred phone whose second segment is an amount, and a barred reference. */
  lemma BarsCollide()
    ensures RawKey("1|2", 3, "r", "d") == RawKey("1", 2, "3", "r|d")
    ensures RawKey("1", 2, "r|s", "d") == RawKey("1", 2, "r", "s|d")
  {
    assert DecimalText(2) == "2" && DecimalText(3) == "3";
  }

  /** Unless the hash collides on their texts, derived keys identify requests. */
  lemma DerivedKeysIdentifyRequests(
    hash: string -> string,
    p1: string, a1: int, r1: string, d1: string, p2: string, a2: int, r2: string, d2: string)
    requires var x, y := RawKey(p1, a1, r1, d1), RawKey(p2, a2, r2, d2); hash(x) == hash(y) ==> x == y
    requires BarFree(p1) && BarFree(r1) && BarFree(p2) && BarFree(r2)
    ensures hash(RawKey(p1, a1, r1, d1)) == hash(RawKey(p2, a2, r2, d2))
       <==> p1 == p2 && a1 == a2 && r1 == r2 && d1 == d2
  {
    if RawKey(p1, a1, r1, d1) == RawKey(p2, a2, r2, d2) {
      RawKeyIsInjective(p1, a1, r1, d1, p2, a2, r2, d2);
    }
  }
}
