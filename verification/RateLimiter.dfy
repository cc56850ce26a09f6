/** The fixed-window rate limiter (app/rate_limit/limiter.py) in its in-memory and Redis forms.
    Times are seconds of a monotonic clock and are passed to each call. */
module RateLimiter {
  import opened Common

  datatype Window = Window(start: real, count: int)

  datatype Decision = Decision(
    allowed: bool, key: string, limit: int, remaining: int, resetAfterSeconds: int)

  /** Python's `int(x)`: truncation toward zero. */
  function Truncate(x: real): int {
    if x >= 0.0 then x.Floor else -((-x).Floor)
  }

  // ---------------------------------------------------------------- one call on one key

  /** The stored window, or an empty one that starts now. */
  function Stored(w: Option<Window>, now: real): Window {
    w.GetOr(Window(now, 0))
  }

  /** The window a call falls into: the stored one, or a new one once the stored one is over. */
  function Entered(w: Option<Window>, span: int, now: real): Window {
    if now - Stored(w, now).start >= span as real then Window(now, 0) else Stored(w, now)
  }

  predicate Admits(w: Option<Window>, limit: int, span: int, now: real) {
    Entered(w, span, now).count < limit
  }

  function Next(w: Option<Window>, limit: int, span: int, now: real): Option<Window> {
    var v := Entered(w, span, now);
    if v.count < limit then Some(Window(v.start, v.count + 1)) else w
  }

  /** `remaining` of the answer. */
  function Remaining(w: Option<Window>, limit: int, span: int, now: real): int {
    if Admits(w, limit, span, now) then Max(0, limit - (Entered(w, span, now).count + 1)) else 0
  }

  /** `reset_after_seconds` of the answer: a denial measures from the stored window. */
  function ResetAfter(w: Option<Window>, limit: int, span: int, now: real): int {
    var start := if Admits(w, limit, span, now) then Entered(w, span, now).start else Stored(w, now).start;
    Max(0, Truncate(span as real - (now - start)))
  }

  function Lookup<V>(m: map<string, V>, key: string): Option<V> {
    if key in m then Some(m[key]) else None
  }

  class InMemoryRateLimiter {
    var windows: map<string, Window>

    constructor ()
      ensures windows == map[]
    {
      windows := map[];
    }

    method Allow(key: string, limit: int, windowSeconds: int, now: real) returns (d: Decision)
      modifies this
      ensures var w := Lookup(old(windows), key);
        && d == Decision(Admits(w, limit, windowSeconds, now), key, limit,
                         Remaining(w, limit, windowSeconds, now), ResetAfter(w, limit, windowSeconds, now))
        && Lookup(windows, key) == Next(w, limit, windowSeconds, now)
      ensures forall k :: k != key ==> Lookup(windows, k) == Lookup(old(windows), k)
    {
      var windowStart, count := now, 0;
      if key in windows {
        windowStart, count := windows[key].start, windows[key].count;
      }
      var elapsed := now - windowStart;
      if elapsed >= windowSeconds as real {
        windowStart := now;
        count := 0;
      }
      if count >= limit {
        return Decision(false, key, limit, 0, Max(0, Truncate(windowSeconds as real - elapsed)));
      }
      count := count + 1;
      windows := windows[key := Window(windowStart, count)];
      d := Decision(true, key, limit, Max(0, limit - count),
        Max(0, Truncate(windowSeconds as real - (now - windowStart))));
    }
  }

  // ---------------------------------------------------------------- all calls on one key

  ghost predicate Ordered(calls: seq<real>) {
    forall i, j :: 0 <= i < j < |calls| ==> calls[i] <= calls[j]
  }

  /** The window stored for a key after the given calls on it. */
  function After(calls: seq<real>, limit: int, span: int): Option<Window> {
    if calls == [] then None
    else Next(After(calls[..|calls| - 1], limit, span), limit, span, calls[|calls| - 1])
  }

  /** Whether the last call of the history was admitted. */
  predicate LastAdmitted(calls: seq<real>, limit: int, span: int)
    requires calls != []
  {
    Admits(After(calls[..|calls| - 1], limit, span), limit, span, calls[|calls| - 1])
  }

  /** How many admitted calls of the history lie in [from, to). */
  function AdmittedIn(calls: seq<real>, limit: int, span: int, from: real, to: real): nat {
    if calls == [] then 0
    else
      var n := |calls| - 1;
      AdmittedIn(calls[..n], limit, span, from, to)
      + if LastAdmitted(calls, limit, span) && from <= calls[n] < to then 1 else 0
  }

  /** How many admitted calls of the history are later than `since`. */
  function AdmittedSince(calls: seq<real>, limit: int, span: int, since: real): nat {
    if calls == [] then 0
    else
      var n := |calls| - 1;
      AdmittedSince(calls[..n], limit, span, since)
      + if LastAdmitted(calls, limit, span) && calls[n] > since then 1 else 0
  }

  /** The times at which a window was opened. */
  function Starts(calls: seq<real>, limit: int, span: int): seq<real> {
    if calls == [] then []
    else
      var n := |calls| - 1;
      var before := After(calls[..n], limit, span);
      Starts(calls[..n], limit, span)
      + if LastAdmitted(calls, limit, span) && (before.None? || calls[n] - before.value.start >= span as real)
        then [calls[n]] else []
  }

  /** The last admission that came before the currently stored window was opened. */
  function LastBeforeWindow(calls: seq<real>, limit: int, span: int): Option<real> {
    if calls == [] then None
    else
      var n := |calls| - 1;
      var before := After(calls[..n], limit, span);
      if !LastAdmitted(calls, limit, span) then LastBeforeWindow(calls[..n], limit, span)
      else if before.None? || calls[n] - before.value.start >= span as real then LastAdmission(calls[..n], limit, span)
      else LastBeforeWindow(calls[..n], limit, span)
  }

  function LastAdmission(calls: seq<real>, limit: int, span: int): Option<real> {
    if calls == [] then None
    else if LastAdmitted(calls, limit, span) then Some(calls[|calls| - 1])
    else LastAdmission(calls[..|calls| - 1], limit, span)
  }

  /** An interval splits into two. */
  lemma {:induction false} SplitInterval(calls: seq<real>, limit: int, span: int, a: real, b: real, c: real)
    requires a <= b <= c
    ensures AdmittedIn(calls, limit, span, a, c)
         == AdmittedIn(calls, limit, span, a, b) + AdmittedIn(calls, limit, span, b, c)
  {
    if calls == [] {
    } else {
      SplitInterval(calls[..|calls| - 1], limit, span, a, b, c);
    }
  }

  /** A smaller interval holds no more admissions. */
  lemma {:induction false} NarrowInterval(
    calls: seq<real>, limit: int, span: int, a: real, b: real, c: real, d: real)
    requires a <= b && c <= d
    ensures AdmittedIn(calls, limit, span, b, c) <= AdmittedIn(calls, limit, span, a, d)
  {
    if calls == [] {
    } else {
      NarrowInterval(calls[..|calls| - 1], limit, span, a, b, c, d);
    }
  }

  /** Nothing happens before the first call or after the last one. */
  lemma {:induction false} EmptyInterval(calls: seq<real>, limit: int, span: int, from: real, to: real)
    requires forall i :: 0 <= i < |calls| ==> calls[i] < from || to <= calls[i]
    ensures AdmittedIn(calls, limit, span, from, to) == 0
  {
    if calls == [] {
    } else {
      EmptyInterval(calls[..|calls| - 1], limit, span, from, to);
    }
  }

  /** As long as no window is stored, nothing was ever admitted. */
  lemma {:induction false} NoWindowNoAdmission(calls: seq<real>, limit: int, span: int, from: real, to: real)
    requires After(calls, limit, span).None?
    ensures AdmittedIn(calls, limit, span, from, to) == 0
    ensures LastAdmission(calls, limit, span).None?
  {
    if calls == [] {
    } else {
      NoWindowNoAdmission(calls[..|calls| - 1], limit, span, from, to);
    }
  }

  /** The stored window counts exactly the admissions since it was opened, at least one and
      at most `limit`, and every one of them is less than `span` after its start. */
  lemma {:induction false} WindowCountsItsAdmissions(calls: seq<real>, limit: int, span: int, to: real)
    requires Ordered(calls) && span >= 1
    requires forall i :: 0 <= i < |calls| ==> calls[i] < to
    requires After(calls, limit, span).Some?
    ensures var w := After(calls, limit, span).value;
      && w.start in calls
      && 1 <= w.count <= limit
      && w.count == AdmittedIn(calls, limit, span, w.start, to)
      && AdmittedIn(calls, limit, span, w.start + span as real, to) == 0
  {
    var n := |calls| - 1;
    var prefix := calls[..n];
    var before := After(prefix, limit, span);
    if before.None? {
      NoWindowNoAdmission(prefix, limit, span, calls[n], to);
      NoWindowNoAdmission(prefix, limit, span, calls[n] + span as real, to);
    } else {
      WindowCountsItsAdmissions(prefix, limit, span, to);
      if calls[n] - before.value.start >= span as real {
        NarrowInterval(prefix, limit, span, before.value.start + span as real, calls[n], to, to);
        NarrowInterval(prefix, limit, span, before.value.start + span as real, calls[n] + span as real, to, to);
      }
    }
  }

  /** The call that opened the stored window was admitted at its start. */
  lemma {:induction false} OpeningCallCounts(calls: seq<real>, limit: int, span: int, to: real)
    requires After(calls, limit, span).Some? && After(calls, limit, span).value.start < to
    ensures AdmittedIn(calls, limit, span, After(calls, limit, span).value.start, to) >= 1
  {
    var n := |calls| - 1;
    var before := After(calls[..n], limit, span);
    if before.Some? && before.value.start == After(calls, limit, span).value.start {
      OpeningCallCounts(calls[..n], limit, span, to);
    }
  }

  /** Of the admissions before the stored window, fewer than `limit` are less than `span` older
      than it: the call that opened the previous window is not among them. */
  lemma {:induction false} PreviousWindowBound(calls: seq<real>, limit: int, span: int, a: real)
    requires Ordered(calls) && span >= 1
    requires After(calls, limit, span).Some?
    requires a > After(calls, limit, span).value.start - span as real
    ensures AdmittedIn(calls, limit, span, a, After(calls, limit, span).value.start) <= limit - 1
  {
    var n := |calls| - 1;
    var prefix := calls[..n];
    var before := After(prefix, limit, span);
    WindowCountsItsAdmissions(calls, limit, span, calls[n] + 1.0);
    if before.None? {
      NoWindowNoAdmission(prefix, limit, span, a, calls[n]);
    } else if calls[n] - before.value.start >= span as real && LastAdmitted(calls, limit, span) {
      WindowCountsItsAdmissions(prefix, limit, span, calls[n] + 1.0);
      if a <= calls[n] {
        OpeningCallCounts(prefix, limit, span, a);
        SplitInterval(prefix, limit, span, before.value.start, a, calls[n] + 1.0);
        NarrowInterval(prefix, limit, span, a, a, calls[n], calls[n] + 1.0);
      } else {
        EmptyInterval(prefix, limit, span, a, calls[n]);
      }
    } else {
      PreviousWindowBound(prefix, limit, span, a);
    }
  }

  /** Any half-open interval as long as the window holds fewer than twice the limit of admissions. */
  lemma {:induction false} UnderTwiceTheLimit(calls: seq<real>, limit: int, span: int, a: real)
    requires Ordered(calls)
    ensures AdmittedIn(calls, limit, span, a, a + span as real) <= Max(0, 2 * limit - 1)
  {
    if span < 1 {
      EmptyInterval(calls, limit, span, a, a + span as real);
    } else if calls == [] {
    } else {
      var n := |calls| - 1;
      UnderTwiceTheLimit(calls[..n], limit, span, a);
      if LastAdmitted(calls, limit, span) && a <= calls[n] < a + span as real {
        var start := After(calls, limit, span).value.start;
        var to := a + span as real;
        WindowCountsItsAdmissions(calls, limit, span, to);
        if a >= start {
          NarrowInterval(calls, limit, span, start, a, a + span as real, to);
        } else {
          SplitInterval(calls, limit, span, a, start, a + span as real);
          NarrowInterval(calls, limit, span, start, start, a + span as real, to);
          PreviousWindowBound(calls, limit, span, a);
        }
      }
    }
  }

  lemma OneMoreCall(calls: seq<real>, limit: int, span: int, at: real, from: real, to: real)
    ensures After(calls + [at], limit, span) == Next(After(calls, limit, span), limit, span, at)
    ensures AdmittedIn(calls + [at], limit, span, from, to)
         == AdmittedIn(calls, limit, span, from, to)
            + if Admits(After(calls, limit, span), limit, span, at) && from <= at < to then 1 else 0
  {
    assert (calls + [at])[..|calls|] == calls;
  }

  /** A call inside a window that is not full. */
  lemma CallInside(calls: seq<real>, limit: int, span: int, w: Window, at: real, from: real, to: real)
    requires After(calls, limit, span) == Some(w) && at - w.start < span as real && w.count < limit
    ensures After(calls + [at], limit, span) == Some(Window(w.start, w.count + 1))
    ensures AdmittedIn(calls + [at], limit, span, from, to)
         == AdmittedIn(calls, limit, span, from, to) + if from <= at < to then 1 else 0
  {
    OneMoreCall(calls, limit, span, at, from, to);
  }

  lemma AfterWindow(w: Window, limit: int, span: int, at: real)
    requires at - w.start >= span as real && limit >= 1
    ensures Admits(Some(w), limit, span, at)
    ensures Next(Some(w), limit, span, at) == Some(Window(at, 1))
  {}

  function Burst(calls: seq<real>, n: nat, at: real): seq<real>
    decreases n
  {
    if n == 0 then calls else Burst(calls + [at], n - 1, at)
  }

  /** Calls within the stored window are admitted up to the limit. */
  lemma {:induction false} BurstIsAdmitted(
    calls: seq<real>, limit: int, span: int, w: Window, n: nat, at: real, from: real, to: real)
    requires After(calls, limit, span) == Some(w) && at - w.start < span as real && w.count + n <= limit
    ensures After(Burst(calls, n, at), limit, span) == Some(Window(w.start, w.count + n))
    ensures AdmittedIn(Burst(calls, n, at), limit, span, from, to)
         == AdmittedIn(calls, limit, span, from, to) + if from <= at < to then n else 0
    decreases n
  {
    if n == 0 {
    } else {
      CallInside(calls, limit, span, w, at, from, to);
      BurstIsAdmitted(calls + [at], limit, span, Window(w.start, w.count + 1), n - 1, at, from, to);
    }
  }

  lemma {:induction false} BurstIsOrdered(calls: seq<real>, n: nat, at: real)
    requires Ordered(calls) && forall t :: t in calls ==> t <= at
    ensures Ordered(Burst(calls, n, at)) && forall t :: t in Burst(calls, n, at) ==> t <= at
    decreases n
  {
    if n == 0 {
    } else {
      OrderedAppend(calls, at);
      BurstIsOrdered(calls + [at], n - 1, at);
    }
  }

  lemma OrderedAppend(calls: seq<real>, at: real)
    requires Ordered(calls) && forall t :: t in calls ==> t <= at
    ensures Ordered(calls + [at])
  {
    forall i | 0 <= i < |calls| ensures calls[i] <= at {
      assert calls[i] in calls;
    }
  }

  /** One call at 0 and the rest of the limit just before its window ends. */
  function LateBurst(limit: int, span: int): seq<real>
    requires limit >= 1
  {
    Burst([0.0], limit - 1, span as real - 0.5)
  }

  /** After it the limit again, as soon as the window is over. */
  function TwoBursts(limit: int, span: int): seq<real>
    requires limit >= 1
  {
    Burst(LateBurst(limit, span) + [span as real], limit - 1, span as real)
  }

  lemma FirstWindowFills(limit: int, span: int, from: real, to: real)
    requires limit >= 1 && span >= 1 && 0.0 < from <= span as real - 0.5 < to
    ensures After(LateBurst(limit, span), limit, span) == Some(Window(0.0, limit))
    ensures AdmittedIn(LateBurst(limit, span), limit, span, from, to) == limit - 1
  {
    OneMoreCall([], limit, span, 0.0, from, to);
    assert [] + [0.0] == [0.0];
    BurstIsAdmitted([0.0], limit, span, Window(0.0, 1), limit - 1, span as real - 0.5, from, to);
  }

  /** The bound is attained, for every limit and window. */
  lemma BoundIsAttained(limit: int, span: int)
    requires limit >= 1 && span >= 1
    ensures Ordered(TwoBursts(limit, span))
    ensures AdmittedIn(TwoBursts(limit, span), limit, span, 0.5, 0.5 + span as real) == 2 * limit - 1
  {
    var from, to, second := 0.5, 0.5 + span as real, span as real;
    var late := LateBurst(limit, span);
    FirstWindowFills(limit, span, from, to);
    AfterWindow(Window(0.0, limit), limit, span, second);
    OneMoreCall(late, limit, span, second, from, to);
    BurstIsAdmitted(late + [second], limit, span, Window(second, 1), limit - 1, second, from, to);
    BurstsAreOrdered(limit, span);
  }

  lemma BurstsAreOrdered(limit: int, span: int)
    requires limit >= 1 && span >= 1
    ensures Ordered(TwoBursts(limit, span))
  {
    BurstIsOrdered([0.0], limit - 1, span as real - 0.5);
    OrderedAppend(LateBurst(limit, span), span as real);
    BurstIsOrdered(LateBurst(limit, span) + [span as real], limit - 1, span as real);
  }

  /** Windows are opened at least `span` apart, and the stored window is the last one opened. */
  lemma {:induction false} WindowsAreSpaced(calls: seq<real>, limit: int, span: int)
    requires span >= 0
    ensures var s := Starts(calls, limit, span);
      && (After(calls, limit, span).Some? <==> s != [])
      && (s != [] ==> s[|s| - 1] == After(calls, limit, span).value.start)
      && forall i, j :: 0 <= i < j < |s| ==> s[j] - s[i] >= span as real
  {
    if calls == [] {
    } else {
      WindowsAreSpaced(calls[..|calls| - 1], limit, span);
    }
  }

  // ---------------------------------------------------------------- what a denial means

  /** Admissions in the stored window plus the ones before it. */
  lemma {:induction false} RecentAdmissions(calls: seq<real>, limit: int, span: int, since: real)
    requires Ordered(calls) && span >= 1
    requires After(calls, limit, span).Some? && since < After(calls, limit, span).value.start
    ensures var w := After(calls, limit, span).value;
      && AdmittedSince(calls, limit, span, since) >= w.count
      && (AdmittedSince(calls, limit, span, since) == w.count
          <==> var p := LastBeforeWindow(calls, limit, span); p.None? || p.value <= since)
  {
    var n := |calls| - 1;
    var prefix := calls[..n];
    var before := After(prefix, limit, span);
    WindowCountsItsAdmissions(calls, limit, span, calls[n] + 1.0);
    if before.None? {
      NoneSince(prefix, limit, span, since);
      NoWindowNoAdmission(prefix, limit, span, since, since);
    } else if LastAdmitted(calls, limit, span) && calls[n] - before.value.start >= span as real {
      NoneSince(prefix, limit, span, since);
    } else {
      RecentAdmissions(prefix, limit, span, since);
    }
  }

  lemma {:induction false} NoneSince(calls: seq<real>, limit: int, span: int, since: real)
    requires Ordered(calls)
    ensures AdmittedSince(calls, limit, span, since) == 0
       <==> var p := LastAdmission(calls, limit, span); p.None? || p.value <= since
  {
    if calls == [] {
    } else {
      NoneSince(calls[..|calls| - 1], limit, span, since);
      LastAdmissionIsACall(calls[..|calls| - 1], limit, span);
    }
  }

  lemma {:induction false} LastAdmissionIsACall(calls: seq<real>, limit: int, span: int)
    ensures var p := LastAdmission(calls, limit, span); p.Some? ==> p.value in calls
  {
    if calls == [] {
    } else {
      LastAdmissionIsACall(calls[..|calls| - 1], limit, span);
    }
  }

  /** A denial at `now` means that the current window, less than `span` old, has used up its
      limit. So at least `limit` calls were admitted in the last `span` seconds, and exactly
      `limit` if and only if the last admission before the current window is no longer recent. */
  lemma DenialMeansLimitReached(calls: seq<real>, limit: int, span: int, now: real)
    requires Ordered(calls + [now]) && span >= 1 && limit >= 1
    requires !Admits(After(calls, limit, span), limit, span, now)
    ensures var w := After(calls, limit, span);
      && w.Some? && w.value.count == limit && now - w.value.start < span as real
      && AdmittedSince(calls, limit, span, now - span as real) >= limit
      && (AdmittedSince(calls, limit, span, now - span as real) == limit
          <==> var p := LastBeforeWindow(calls, limit, span); p.None? || p.value <= now - span as real)
  {
    var w := After(calls, limit, span);
    assert w.Some? && now - w.value.start < span as real;
    var to := now + 1.0;
    forall i | 0 <= i < |calls| ensures calls[i] < to {
      assert (calls + [now])[i] <= (calls + [now])[|calls|];
    }
    forall i, j | 0 <= i < j < |calls| ensures calls[i] <= calls[j] {
      assert (calls + [now])[i] <= (calls + [now])[j];
    }
    WindowCountsItsAdmissions(calls, limit, span, to);
    RecentAdmissions(calls, limit, span, now - span as real);
  }

  /** "Exactly `limit` in the last `span` seconds" fails in general: with two calls in ten
      seconds, calls at 0, 9, 10 and 11 are admitted, the one at 12 is denied, and three
      admissions are less than ten seconds old. */
  lemma DenialAfterMoreThanLimit()
    ensures var calls := [0.0, 9.0, 10.0, 11.0];
      && Ordered(calls + [12.0])
      && !Admits(After(calls, 2, 10), 2, 10, 12.0)
      && AdmittedSince(calls, 2, 10, 12.0 - 10.0) == 3
  {
    var calls := [0.0, 9.0, 10.0, 11.0];
    var c1, c2, c3 := [0.0], [0.0, 9.0], [0.0, 9.0, 10.0];
    assert c1[..0] == [] && c2[..1] == c1 && c3[..2] == c2 && calls[..3] == c3;
    assert After(c1, 2, 10) == Some(Window(0.0, 1));
    assert After(c2, 2, 10) == Some(Window(0.0, 2));
    assert After(c3, 2, 10) == Some(Window(10.0, 1));
    assert After(calls, 2, 10) == Some(Window(10.0, 2));
    assert AdmittedSince(c1, 2, 10, 2.0) == 0;
    assert AdmittedSince(c2, 2, 10, 2.0) == 1;
    assert AdmittedSince(c3, 2, 10, 2.0) == 2;
  }

  /** A denied caller that waits `reset_after_seconds` plus one second is admitted if no
      other call on the key comes in between. */
  lemma RetryAfterResetIsAdmitted(w: Option<Window>, limit: int, span: int, now: real, later: real)
    requires limit >= 1
    requires !Admits(w, limit, span, now)
    requires later >= now + ResetAfter(w, limit, span, now) as real + 1.0
    ensures Admits(Next(w, limit, span, now), limit, span, later)
  {
    var left := span as real - (now - w.value.start);
    assert left > 0.0 && left < left.Floor as real + 1.0;
    assert later - w.value.start >= span as real;
  }

  // ---------------------------------------------------------------- many keys

  datatype Call = Call(key: string, now: real)

  /** The windows after calls on any keys, each key with its own limit and window. */
  function Windows(calls: seq<Call>, limits: string -> int, spans: string -> int): map<string, Window> {
    if calls == [] then map[]
    else
      var c := calls[|calls| - 1];
      var m := Windows(calls[..|calls| - 1], limits, spans);
      var w := Next(Lookup(m, c.key), limits(c.key), spans(c.key), c.now);
      if w.Some? then m[c.key := w.value] else m
  }

  function TimesOn(calls: seq<Call>, key: string): seq<real> {
    if calls == [] then []
    else
      var c := calls[|calls| - 1];
      TimesOn(calls[..|calls| - 1], key) + if c.key == key then [c.now] else []
  }

  /** Keys do not interfere: the window of a key depends on the calls on that key only. */
  lemma {:induction false} KeysAreIndependent(
    calls: seq<Call>, limits: string -> int, spans: string -> int, key: string)
    ensures Lookup(Windows(calls, limits, spans), key) == After(TimesOn(calls, key), limits(key), spans(key))
  {
    if calls == [] {
    } else {
      var c := calls[|calls| - 1];
      var prefix := calls[..|calls| - 1];
      KeysAreIndependent(prefix, limits, spans, key);
      if c.key == key {
        var times := TimesOn(calls, key);
        assert times[..|times| - 1] == TimesOn(prefix, key);
        assert times[|times| - 1] == c.now;
      } else {
        assert TimesOn(calls, key) == TimesOn(prefix, key);
      }
    }
  }

  /** How many calls on `key` in [from, to) the limiter admitted, among calls on all keys. */
  function AdmittedOn(
    calls: seq<Call>, limits: string -> int, spans: string -> int, key: string, from: real, to: real): nat
  {
    if calls == [] then 0
    else
      var c := calls[|calls| - 1];
      var w := Lookup(Windows(calls[..|calls| - 1], limits, spans), c.key);
      AdmittedOn(calls[..|calls| - 1], limits, spans, key, from, to)
      + if c.key == key && Admits(w, limits(key), spans(key), c.now) && from <= c.now < to then 1 else 0
  }

  lemma {:induction false} AdmissionsByKey(
    calls: seq<Call>, limits: string -> int, spans: string -> int, key: string, from: real, to: real)
    ensures AdmittedOn(calls, limits, spans, key, from, to)
         == AdmittedIn(TimesOn(calls, key), limits(key), spans(key), from, to)
  {
    if calls == [] {
    } else {
      var c := calls[|calls| - 1];
      var prefix := calls[..|calls| - 1];
      AdmissionsByKey(prefix, limits, spans, key, from, to);
      KeysAreIndependent(prefix, limits, spans, key);
      var times := TimesOn(calls, key);
      if c.key == key {
        assert times[..|times| - 1] == TimesOn(prefix, key) && times[|times| - 1] == c.now;
      } else {
        assert times == TimesOn(prefix, key);
      }
    }
  }

  lemma {:induction false} TimesAreOrdered(calls: seq<Call>, key: string)
    requires InOrder(calls)
    ensures Ordered(TimesOn(calls, key))
    ensures forall t :: t in TimesOn(calls, key) ==> calls != [] && t <= calls[|calls| - 1].now
  {
    if calls == [] {
    } else {
      var before, now := TimesOn(calls[..|calls| - 1], key), calls[|calls| - 1].now;
      TimesAreOrdered(calls[..|calls| - 1], key);
      forall i | 0 <= i < |before| ensures before[i] <= now {
        assert before[i] in before;
      }
    }
  }

  ghost predicate InOrder(calls: seq<Call>) {
    forall i, j :: 0 <= i < j < |calls| ==> calls[i].now <= calls[j].now
  }

  /** The limiter's guarantee: whatever calls on whatever keys are mixed, any half-open interval
      as long as a key's window holds fewer than twice its limit of admitted calls on that key. */
  lemma AnyKeyUnderTwiceTheLimit(calls: seq<Call>, limits: string -> int, spans: string -> int, key: string, from: real)
    requires InOrder(calls)
    ensures AdmittedOn(calls, limits, spans, key, from, from + spans(key) as real) <= Max(0, 2 * limits(key) - 1)
  {
    var to := from + spans(key) as real;
    calc {
      AdmittedOn(calls, limits, spans, key, from, to);
    ==  { AdmissionsByKey(calls, limits, spans, key, from, to); }
      AdmittedIn(TimesOn(calls, key), limits(key), spans(key), from, to);
    <=  { TimesAreOrdered(calls, key); UnderTwiceTheLimit(TimesOn(calls, key), limits(key), spans(key), from); }
      Max(0, 2 * limits(key) - 1);
    }
  }

  // ---------------------------------------------------------------- the Redis form

  /** A counter of the Redis server. Expiry is exact: the key is gone at `expiresAt`. */
  datatype Counter = Counter(count: int, expiresAt: Option<real>)

  predicate Live(c: Option<Counter>, now: real) {
    c.Some? && (c.value.expiresAt.None? || now < c.value.expiresAt.value)
  }

  class RedisServer {
    var counters: map<string, Counter>

    constructor ()
      ensures counters == map[]
    {
      counters := map[];
    }

    method Incr(key: string, now: real) returns (count: int)
      modifies this
      ensures var c := Lookup(old(counters), key);
        && Lookup(counters, key) == Some(
            if Live(c, now) then c.value.(count := c.value.count + 1) else Counter(1, None))
        && count == Lookup(counters, key).value.count
      ensures forall k :: k != key ==> Lookup(counters, k) == Lookup(old(counters), k)
    {
      if Live(Lookup(counters, key), now) {
        counters := counters[key := counters[key].(count := counters[key].count + 1)];
      } else {
        counters := counters[key := Counter(1, None)];
      }
      count := counters[key].count;
    }

    /** A non-positive time to live deletes the key. */
    method Expire(key: string, seconds: int, now: real)
      modifies this
      ensures Lookup(counters, key)
           == (if Live(Lookup(old(counters), key), now) && seconds >= 1
               then Some(old(counters)[key].(expiresAt := Some(now + seconds as real)))
               else if Live(Lookup(old(counters), key), now) then None
               else Lookup(old(counters), key))
      ensures forall k :: k != key ==> Lookup(counters, k) == Lookup(old(counters), k)
    {
      if Live(Lookup(counters, key), now) {
        if seconds >= 1 {
          counters := counters[key := counters[key].(expiresAt := Some(now + seconds as real))];
        } else {
          counters := counters - {key};
        }
      }
    }

    /** Whole seconds to live, rounded; -2 for a missing key and -1 for one without expiry. */
    method Ttl(key: string, now: real) returns (seconds: int)
      ensures seconds == TtlOf(Lookup(counters, key), now)
    {
      if !Live(Lookup(counters, key), now) {
        return -2;
      }
      if counters[key].expiresAt.None? {
        return -1;
      }
      seconds := (counters[key].expiresAt.value - now + 0.5).Floor;
    }
  }

  function TtlOf(c: Option<Counter>, now: real): int {
    if !Live(c, now) then -2
    else if c.value.expiresAt.None? then -1
    else (c.value.expiresAt.value - now + 0.5).Floor
  }

  function Counted(c: Option<Counter>, span: int, now: real): Option<Counter> {
    if Live(c, now) then Some(c.value.(count := c.value.count + 1))
    else if span >= 1 then Some(Counter(1, Some(now + span as real)))
    else None
  }

  /** The count a call sees: INCR answers before EXPIRE can delete the key. */
  function CountSeen(c: Option<Counter>, now: real): int {
    if Live(c, now) then c.value.count + 1 else 1
  }

  class RedisRateLimiter {
    const redis: RedisServer

    constructor (redis: RedisServer)
      ensures this.redis == redis
    {
      this.redis := redis;
    }

    /** The counters of the limiter are positive: each starts at 1 and only grows. */
    method Allow(key: string, limit: int, windowSeconds: int, now: real) returns (d: Decision)
      requires Live(Lookup(redis.counters, key), now) ==> redis.counters[key].count >= 1
      modifies redis
      ensures var c := Lookup(old(redis.counters), key);
        && Lookup(redis.counters, key) == Counted(c, windowSeconds, now)
        && d.allowed == (CountSeen(c, now) <= limit)
        && d.key == key && d.limit == limit
        && d.remaining == (if CountSeen(c, now) <= limit then Max(0, limit - CountSeen(c, now)) else 0)
        && d.resetAfterSeconds == (var ttl := TtlOf(Counted(c, windowSeconds, now), now);
                                   if ttl < 0 then windowSeconds else ttl)
      ensures forall k :: k != key ==> Lookup(redis.counters, k) == Lookup(old(redis.counters), k)
    {
      var count := redis.Incr(key, now);
      if count == 1 {
        redis.Expire(key, windowSeconds, now);
      }
      var ttl := redis.Ttl(key, now);
      var resetAfterSeconds := if ttl < 0 then windowSeconds else ttl;
      if count > limit {
        return Decision(false, key, limit, 0, resetAfterSeconds);
      }
      d := Decision(true, key, limit, Max(0, limit - count), resetAfterSeconds);
    }
  }

  // ---------------------------------------------------------------- both forms agree

  /** What a caller learns from either form: `allowed` and `remaining`. */
  datatype Answer = Answer(allowed: bool, remaining: int)

  function MemoryAnswers(calls: seq<Call>, limits: string -> int, spans: string -> int): seq<Answer> {
    if calls == [] then []
    else
      var c := calls[|calls| - 1];
      var w := Lookup(Windows(calls[..|calls| - 1], limits, spans), c.key);
      MemoryAnswers(calls[..|calls| - 1], limits, spans)
      + [Answer(Admits(w, limits(c.key), spans(c.key), c.now), Remaining(w, limits(c.key), spans(c.key), c.now))]
  }

  function Counters(calls: seq<Call>, spans: string -> int): map<string, Counter> {
    if calls == [] then map[]
    else
      var c := calls[|calls| - 1];
      var m := Counters(calls[..|calls| - 1], spans);
      var counted := Counted(Lookup(m, c.key), spans(c.key), c.now);
      if counted.Some? then m[c.key := counted.value] else m - {c.key}
  }

  function RedisAnswers(calls: seq<Call>, limits: string -> int, spans: string -> int): seq<Answer> {
    if calls == [] then []
    else
      var c := calls[|calls| - 1];
      var seen := CountSeen(Lookup(Counters(calls[..|calls| - 1], spans), c.key), c.now);
      var limit := limits(c.key);
      RedisAnswers(calls[..|calls| - 1], limits, spans)
      + [Answer(seen <= limit, if seen <= limit then Max(0, limit - seen) else 0)]
  }

  /** The simulation: with a positive limit both forms hold a running window with the same
      start and the memory count is the Redis count capped by the limit, or neither does. */
  ghost predicate Simulates(w: Option<Window>, c: Option<Counter>, limit: int, span: int, now: real) {
    && (limit < 1 ==> w.None?)
    && (c.Some? ==> c.value.count >= 1 && c.value.expiresAt.Some?)
    && (limit >= 1 ==>
        if Live(c, now)
        then w.Some? && w.value.start + span as real == c.value.expiresAt.value
             && w.value.count == Min(c.value.count, limit)
        else w.None? || now - w.value.start >= span as real)
  }

  lemma {:induction false} FormsStayInStep(
    calls: seq<Call>, limits: string -> int, spans: string -> int, key: string, now: real)
    requires InOrder(calls) && forall k :: spans(k) >= 1
    requires forall i :: 0 <= i < |calls| ==> calls[i].now <= now
    ensures Simulates(Lookup(Windows(calls, limits, spans), key), Lookup(Counters(calls, spans), key),
                      limits(key), spans(key), now)
  {
    if calls == [] {
    } else {
      var c := calls[|calls| - 1];
      var prefix := calls[..|calls| - 1];
      FormsStayInStep(prefix, limits, spans, key, c.now);
      FormsStayInStep(prefix, limits, spans, key, now);
    }
  }

  /** On every sequence of calls the two forms give the same answers, although the Redis
      form also counts denied calls. */
  lemma {:induction false} MemoryAndRedisAgree(calls: seq<Call>, limits: string -> int, spans: string -> int)
    requires InOrder(calls) && forall k :: spans(k) >= 1
    ensures MemoryAnswers(calls, limits, spans) == RedisAnswers(calls, limits, spans)
  {
    if calls == [] {
    } else {
      var c := calls[|calls| - 1];
      MemoryAndRedisAgree(calls[..|calls| - 1], limits, spans);
      FormsStayInStep(calls[..|calls| - 1], limits, spans, c.key, c.now);
    }
  }

  // ---------------------------------------------------------------- what a caller can rely on

  /** A call is admitted exactly when no window is running or fewer than `limit` calls have been
      admitted since it was opened. */
  lemma AdmitsExactly(calls: seq<real>, limit: int, span: int, now: real)
    requires Ordered(calls + [now]) && span >= 1
    ensures var starts := Starts(calls, limit, span);
      Admits(After(calls, limit, span), limit, span, now)
      <==> limit >= 1
           && (starts == [] || now - starts[|starts| - 1] >= span as real
               || AdmittedIn(calls, limit, span, starts[|starts| - 1], now + 1.0) < limit)
  {
    forall i | 0 <= i < |calls| ensures calls[i] < now + 1.0 {
      assert (calls + [now])[i] <= (calls + [now])[|calls|];
    }
    forall i, j | 0 <= i < j < |calls| ensures calls[i] <= calls[j] {
      assert (calls + [now])[i] <= (calls + [now])[j];
    }
    WindowsAreSpaced(calls, limit, span);
    if After(calls, limit, span).Some? {
      WindowCountsItsAdmissions(calls, limit, span, now + 1.0);
    }
  }

  /** `remaining` is the number of further calls that would be admitted at once; it is 0 for a
      denied call. */
  lemma RemainingIsUsable(calls: seq<real>, limit: int, span: int, now: real, n: nat)
    requires span >= 1
    ensures var w := After(calls, limit, span);
      if Admits(w, limit, span, now) then
        n <= Remaining(w, limit, span, now) ==>
          (Admits(After(Burst(calls + [now], n, now), limit, span), limit, span, now)
           <==> n < Remaining(w, limit, span, now))
      else Remaining(w, limit, span, now) == 0
  {
    var w := After(calls, limit, span);
    if Admits(w, limit, span, now) && n <= Remaining(w, limit, span, now) {
      var v := Entered(w, span, now);
      OneMoreCall(calls, limit, span, now, now, now);
      BurstIsAdmitted(calls + [now], limit, span, Window(v.start, v.count + 1), n, now, now, now);
    }
  }

  /** `reset_after_seconds` tells the end of the window, to the second: before it the same window
      runs on, and a second after it a new one is opened. */
  lemma ResetTellsWindowEnd(w: Option<Window>, limit: int, span: int, now: real, later: real)
    requires limit >= 1 && span >= 1 && (w.Some? ==> w.value.start <= now)
    ensures var n, reset := Next(w, limit, span, now), ResetAfter(w, limit, span, now) as real;
      && n.Some?
      && (now <= later < now + reset ==> Entered(n, span, later) == n.value)
      && (later >= now + reset + 1.0 ==> Entered(n, span, later) == Window(later, 0))
  {
    var n := Next(w, limit, span, now);
    var left := span as real - (now - n.value.start);
    assert 0.0 < left && left.Floor as real <= left < left.Floor as real + 1.0;
  }

  /** So a denied caller that comes back earlier is denied again. */
  lemma EarlyRetryIsDenied(w: Option<Window>, limit: int, span: int, now: real, later: real)
    requires limit >= 1 && span >= 1 && w.Some? && w.value.start <= now
    requires !Admits(w, limit, span, now)
    requires now <= later < now + ResetAfter(w, limit, span, now) as real
    ensures !Admits(Next(w, limit, span, now), limit, span, later)
  {
    ResetTellsWindowEnd(w, limit, span, now, later);
  }

  /** The Redis form tells the end of its window rounded to the nearest second. */
  lemma RedisResetIsRounded(c: Option<Counter>, span: int, now: real)
    requires span >= 1 && (Live(c, now) ==> c.value.expiresAt.Some?)
    ensures var n := Counted(c, span, now);
      && n.Some? && n.value.expiresAt.Some?
      && var left := n.value.expiresAt.value - now;
         left - 0.5 < TtlOf(n, now) as real <= left + 0.5
    ensures !Live(c, now) ==> Counted(c, span, now).value.expiresAt == Some(now + span as real)
  {
    var left := Counted(c, span, now).value.expiresAt.value - now;
    assert (left + 0.5).Floor as real <= left + 0.5 < (left + 0.5).Floor as real + 1.0;
  }
}
