/** Callback replay protection (app/callbacks/replay.py): the pruned table, its Redis form and
    the replay key of a payload. */
module Replay {
  import opened Common
  import opened Json
  import opened JsonText

  // ---------------------------------------------------------------- the in-memory table

  /** Replay keys with the times at which they expire. */
  type Table = map<string, real>

  predicate Accepts(seen: Table, key: string, now: real) {
    !(key in seen && seen[key] > now)
  }

  function Pruned(seen: Table, now: real): Table {
    map k | k in seen && seen[k] > now :: seen[k]
  }

  function AfterCheck(seen: Table, key: string, window: int, now: real): Table {
    if Accepts(seen, key, now) then Pruned(seen[key := now + window as real], now) else seen
  }

  class InMemoryReplayProtection {
    var seen: Table

    constructor ()
      ensures seen == map[]
    {
      seen := map[];
    }

    method CheckAndStore(key: string, windowSeconds: int, now: real) returns (allowed: bool)
      modifies this
      ensures allowed == Accepts(old(seen), key, now)
      ensures seen == AfterCheck(old(seen), key, windowSeconds, now)
    {
      if key in seen && seen[key] > now {
        return false;
      }
      seen := seen[key := now + windowSeconds as real];
      PruneExpired(now);
      return true;
    }

    method PruneExpired(now: real)
      modifies this
      ensures seen == Pruned(old(seen), now)
    {
      var expiredKeys := set k | k in seen && seen[k] <= now;
      while expiredKeys != {}
        invariant forall k :: k in expiredKeys ==> k in old(seen) && old(seen)[k] <= now
        invariant forall k :: k in seen ==> k in old(seen) && seen[k] == old(seen)[k]
        invariant forall k :: k in old(seen) && k !in seen ==> old(seen)[k] <= now
        invariant forall k :: k in seen && seen[k] <= now ==> k in expiredKeys
        decreases expiredKeys
      {
        var key :| key in expiredKeys;
        expiredKeys := expiredKeys - {key};
        seen := seen - {key};
      }
    }
  }

  // ---------------------------------------------------------------- refinement of the history

  datatype Check = Check(key: string, window: int, now: real) {
    function Expiry(): real {
      now + window as real
    }
  }

  ghost predicate InOrder(h: seq<Check>) {
    forall i, j :: 0 <= i < j < |h| ==> h[i].now <= h[j].now
  }

  /** The specification, with no table: a check is accepted exactly when every earlier accepted
      check of its key has expired. */
  ghost predicate Accepted(h: seq<Check>, i: nat)
    requires i < |h|
    decreases i
  {
    forall j :: 0 <= j < i && h[j].key == h[i].key && Accepted(h, j) ==> h[j].Expiry() <= h[i].now
  }

  function TableAfter(h: seq<Check>): Table {
    if h == [] then map[]
    else
      var c := h[|h| - 1];
      AfterCheck(TableAfter(h[..|h| - 1]), c.key, c.window, c.now)
  }

  /** The same table when nothing is ever pruned. */
  function UnprunedAfter(h: seq<Check>): Table {
    if h == [] then map[]
    else
      var c := h[|h| - 1];
      var before := UnprunedAfter(h[..|h| - 1]);
      if Accepts(before, c.key, c.now) then before[c.key := c.Expiry()] else before
  }

  /** Acceptance depends on the history up to the check only. */
  lemma {:induction false} AcceptedPrefix(h: seq<Check>, n: nat, i: nat)
    requires i < n <= |h|
    ensures Accepted(h[..n], i) <==> Accepted(h, i)
    decreases i
  {
    forall j | 0 <= j < i ensures Accepted(h[..n], j) <==> Accepted(h, j) {
      AcceptedPrefix(h, n, j);
    }
  }

  /** Some accepted check of `key` expires at `expiry`. */
  ghost predicate Granted(h: seq<Check>, key: string, expiry: real) {
    exists i :: 0 <= i < |h| && h[i].key == key && Accepted(h, i) && h[i].Expiry() == expiry
  }

  /** The table holds only accepted checks, and every one that outlives the last check. */
  ghost predicate Represents(seen: Table, h: seq<Check>) {
    && (forall k :: k in seen ==> Granted(h, k, seen[k]))
    && (forall i :: 0 <= i < |h| && Accepted(h, i) && h[i].Expiry() > h[|h| - 1].now
          ==> h[i].key in seen && seen[h[i].key] == h[i].Expiry())
  }

  /** A table that represents the history decides the next check as the specification does. */
  lemma DecidesBySpecification(seen: Table, h: seq<Check>, c: Check)
    requires InOrder(h + [c]) && Represents(seen, h)
    ensures Accepts(seen, c.key, c.now) <==> Accepted(h + [c], |h|)
  {
    var all := h + [c];
    assert all[..|h|] == h;
    forall j | 0 <= j < |h| ensures Accepted(all, j) <==> Accepted(h, j) {
      AcceptedPrefix(all, |h|, j);
    }
    if h != [] {
      assert all[|h| - 1].now <= all[|h|].now;
    }
    if !Accepts(seen, c.key, c.now) {
      var i :| 0 <= i < |h| && h[i].key == c.key && Accepted(h, i) && h[i].Expiry() == seen[c.key];
      assert all[i] == h[i] && Accepted(all, i);
    }
  }

  /** Pruning or not, a table that keeps what outlives the check and adds nothing but the
      accepted check goes on representing the history. */
  lemma StepRepresents(seen: Table, h: seq<Check>, c: Check, next: Table)
    requires InOrder(h + [c]) && Represents(seen, h)
    requires !Accepts(seen, c.key, c.now) ==> next == seen
    requires Accepts(seen, c.key, c.now) ==>
      && (forall k :: k in next ==> if k == c.key then next[k] == c.Expiry() else k in seen && next[k] == seen[k])
      && (forall k :: k in seen && k != c.key && seen[k] > c.now ==> k in next)
      && (c.Expiry() > c.now ==> c.key in next)
    ensures Represents(next, h + [c])
  {
    var all := h + [c];
    DecidesBySpecification(seen, h, c);
    assert all[..|h|] == h;
    forall j | 0 <= j < |h| ensures all[j] == h[j] && (Accepted(all, j) <==> Accepted(h, j)) && h[j].now <= c.now {
      AcceptedPrefix(all, |h|, j);
      assert all[j].now <= all[|h|].now;
    }
    forall k | k in next ensures Granted(all, k, next[k]) {
      if k == c.key && Accepts(seen, c.key, c.now) {
        assert all[|h|].key == k && Accepted(all, |h|) && all[|h|].Expiry() == next[k];
      } else {
        var i :| 0 <= i < |h| && h[i].key == k && Accepted(h, i) && h[i].Expiry() == seen[k];
        assert all[i].key == k && Accepted(all, i) && all[i].Expiry() == next[k];
      }
    }
    forall i | 0 <= i < |all| && Accepted(all, i) && all[i].Expiry() > c.now
      ensures all[i].key in next && next[all[i].key] == all[i].Expiry()
    {
      if i < |h| {
        assert h[i].Expiry() > h[|h| - 1].now;
      }
    }
  }

  lemma {:induction false} TableRepresents(h: seq<Check>)
    requires InOrder(h)
    ensures Represents(TableAfter(h), h)
  {
    if h == [] {
    } else {
      var prefix, c := h[..|h| - 1], h[|h| - 1];
      assert h == prefix + [c];
      TableRepresents(prefix);
      StepRepresents(TableAfter(prefix), prefix, c, TableAfter(h));
    }
  }

  lemma {:induction false} UnprunedRepresents(h: seq<Check>)
    requires InOrder(h)
    ensures Represents(UnprunedAfter(h), h)
  {
    if h == [] {
    } else {
      var prefix, c := h[..|h| - 1], h[|h| - 1];
      assert h == prefix + [c];
      UnprunedRepresents(prefix);
      StepRepresents(UnprunedAfter(prefix), prefix, c, UnprunedAfter(h));
    }
  }

  /** The pruned table accepts a key exactly when every earlier acceptance of it has expired,
      and never decides otherwise than a table that keeps everything. */
  lemma TableRefinesHistory(h: seq<Check>, i: nat)
    requires InOrder(h) && i < |h|
    ensures Accepts(TableAfter(h[..i]), h[i].key, h[i].now) <==> Accepted(h, i)
    ensures Accepts(TableAfter(h[..i]), h[i].key, h[i].now) <==> Accepts(UnprunedAfter(h[..i]), h[i].key, h[i].now)
  {
    assert h[..i] + [h[i]] == h[..i + 1];
    TableRepresents(h[..i]);
    UnprunedRepresents(h[..i]);
    DecidesBySpecification(TableAfter(h[..i]), h[..i], h[i]);
    DecidesBySpecification(UnprunedAfter(h[..i]), h[..i], h[i]);
    AcceptedPrefix(h, i + 1, i);
  }

  /** Two acceptances of one key are at least the first one's window apart. */
  lemma AcceptancesAreApart(h: seq<Check>, i: nat, j: nat)
    requires InOrder(h) && i < j < |h| && h[i].key == h[j].key
    requires Accepts(TableAfter(h[..i]), h[i].key, h[i].now)
    requires Accepts(TableAfter(h[..j]), h[j].key, h[j].now)
    ensures h[j].now - h[i].now >= h[i].window as real
  {
    TableRefinesHistory(h, i);
    TableRefinesHistory(h, j);
  }

  /** Right after an acceptance the table holds exactly the accepted checks that are alive. */
  lemma TableIsExactAfterAcceptance(h: seq<Check>, key: string)
    requires InOrder(h) && h != []
    requires var c := h[|h| - 1]; Accepts(TableAfter(h[..|h| - 1]), c.key, c.now)
    ensures key in TableAfter(h)
       <==> exists i :: 0 <= i < |h| && h[i].key == key && Accepted(h, i) && h[i].Expiry() > h[|h| - 1].now
  {
    TableRepresents(h);
    if key in TableAfter(h) {
      assert Granted(h, key, TableAfter(h)[key]);
    }
  }

  // ---------------------------------------------------------------- the Redis form

  /** `SET key 1 EX window NX` on a server that forgets a key exactly when it expires. */
  function RedisAfter(h: seq<Check>): Table {
    if h == [] then map[]
    else
      var c := h[|h| - 1];
      var live := Pruned(RedisAfter(h[..|h| - 1]), c.now);
      if c.key in live then live else live[c.key := c.Expiry()]
  }

  predicate RedisStores(keys: Table, key: string, now: real) {
    key !in Pruned(keys, now)
  }

  /** Both forms give the same decision on every history; Redis refuses windows below one second. */
  lemma RedisDecidesAlike(h: seq<Check>, i: nat)
    requires InOrder(h) && i < |h| && forall j :: 0 <= j < |h| ==> h[j].window >= 1
    ensures RedisStores(RedisAfter(h[..i]), h[i].key, h[i].now)
       <==> Accepts(TableAfter(h[..i]), h[i].key, h[i].now)
  {
    SameLiveEntry(h[..i], h[i].key, h[i].now);
  }

  lemma {:induction false} SameLiveEntry(h: seq<Check>, key: string, now: real)
    requires InOrder(h) && forall i :: 0 <= i < |h| ==> h[i].now <= now
    ensures var redis, table := RedisAfter(h), TableAfter(h);
      && (key in redis && redis[key] > now <==> key in table && table[key] > now)
      && (key in redis && redis[key] > now ==> redis[key] == table[key])
  {
    if h == [] {
    } else {
      SameLiveEntry(h[..|h| - 1], key, h[|h| - 1].now);
    }
  }

  // ---------------------------------------------------------------- the replay key

  /** The callback a replay key is built from: the two known shapes, or the payload itself. */
  function ReplayCallback(payload: Dict): Dict {
    var body := Get(payload, "Body");
    if body.JObject? && Get(body.fields, "stkCallback").JObject? then Get(body.fields, "stkCallback").fields
    else if Get(payload, "stkCallback").JObject? then Get(payload, "stkCallback").fields
    else payload
  }

  datatype Fingerprint = Fingerprint(checkout: string, resultCode: string, receipt: string)

  function FingerprintOf(payload: Dict): Fingerprint {
    var callback := ReplayCallback(payload);
    Fingerprint(
      StringOrEmpty(Get(callback, "CheckoutRequestID")),
      StringOrEmpty(Get(callback, "ResultCode")),
      StringOrEmpty(Get(Metadata(callback), "MpesaReceiptNumber")))
  }

  /** The canonical JSON text, with sorted keys, that is hashed. */
  function Canonical(f: Fingerprint): string {
    "{\"CheckoutRequestID\":\"" + Closed(f.checkout,
      ",\"MpesaReceiptNumber\":\"" + Closed(f.receipt,
        ",\"ResultCode\":\"" + Closed(f.resultCode, "}")))
  }

  function KeyOf(hash: string -> string, f: Fingerprint): string {
    "callback_replay:" + hash(Canonical(f))
  }

  function ReplayKey(hash: string -> string, payload: Dict): string {
    KeyOf(hash, FingerprintOf(payload))
  }

  lemma CanonicalIsInjective(f: Fingerprint, g: Fingerprint)
    requires Canonical(f) == Canonical(g)
    ensures f == g
  {
    var fc := ",\"ResultCode\":\"" + Closed(f.resultCode, "}");
    var gc := ",\"ResultCode\":\"" + Closed(g.resultCode, "}");
    var fr := ",\"MpesaReceiptNumber\":\"" + Closed(f.receipt, fc);
    var gr := ",\"MpesaReceiptNumber\":\"" + Closed(g.receipt, gc);
    CutPrefix("{\"CheckoutRequestID\":\"", Closed(f.checkout, fr), "{\"CheckoutRequestID\":\"", Closed(g.checkout, gr));
    QuotedIsInjective(f.checkout, fr, g.checkout, gr);
    CutPrefix(",\"MpesaReceiptNumber\":\"", Closed(f.receipt, fc), ",\"MpesaReceiptNumber\":\"", Closed(g.receipt, gc));
    QuotedIsInjective(f.receipt, fc, g.receipt, gc);
    CutPrefix(",\"ResultCode\":\"", Closed(f.resultCode, "}"), ",\"ResultCode\":\"", Closed(g.resultCode, "}"));
    QuotedIsInjective(f.resultCode, "}", g.resultCode, "}");
  }

  /** The hash does not collide on the texts of two payloads. */
  predicate CollisionFree(hash: string -> string, p: Dict, q: Dict) {
    var s, t := Canonical(FingerprintOf(p)), Canonical(FingerprintOf(q));
    hash(s) == hash(t) ==> s == t
  }

  /** Unless the hash collides, two payloads share a replay key exactly when their fingerprints agree. */
  lemma KeyIdentifiesFingerprint(hash: string -> string, p: Dict, q: Dict)
    requires CollisionFree(hash, p, q)
    ensures ReplayKey(hash, p) == ReplayKey(hash, q) <==> FingerprintOf(p) == FingerprintOf(q)
  {
    if ReplayKey(hash, p) == ReplayKey(hash, q) {
      CutPrefix("callback_replay:", hash(Canonical(FingerprintOf(p))),
                "callback_replay:", hash(Canonical(FingerprintOf(q))));
      CanonicalIsInjective(FingerprintOf(p), FingerprintOf(q));
    }
  }
}
