/** Which callbacks of a run reach the handler, and what then happens to the whole state. */
module CallbackRuns {
  import opened Common
  import opened TransactionRepository
  import opened Audit
  import opened Callbacks
  import opened Lifecycle
  import CallbackRoutes
  import Replay

  /** The callbacks that arrived, as checks of their replay keys. */
  function Checks(s: CallbackRoutes.Settings, es: seq<Event>): seq<Replay.Check> {
    if es == [] then []
    else
      var e := es[|es| - 1];
      Checks(s, es[..|es| - 1])
      + if e.CallbackEvent?
        then [Replay.Check(Replay.ReplayKey(s.hash, e.payload), s.windowSeconds, e.arrivedAt)] else []
  }

  lemma OneMoreCheck(s: CallbackRoutes.Settings, es: seq<Event>, n: nat)
    requires n < |es|
    ensures Checks(s, es[..n + 1])
         == Checks(s, es[..n])
            + if es[n].CallbackEvent?
              then [Replay.Check(Replay.ReplayKey(s.hash, es[n].payload), s.windowSeconds, es[n].arrivedAt)] else []
  {
    assert es[..n + 1][..n] == es[..n];
  }

  /** The replay table of a run is the table of the callbacks that arrived, if they are checked at all. */
  lemma SeenAfterStep(s: Configuration, w: World, e: Event)
    ensures Step(s, w, e).seen
         == if e.CallbackEvent? && s.routes.protected
            then Replay.AfterCheck(w.seen, Replay.ReplayKey(s.routes.hash, e.payload), s.routes.windowSeconds,
                                   e.arrivedAt)
            else w.seen
  {}

  lemma SeenInRun(s: Configuration, es: seq<Event>, ws: seq<World>, n: nat)
    requires IsRun(s, es, ws) && n < |es| && s.routes.protected
    requires ws[n].seen == Replay.TableAfter(Checks(s.routes, es[..n]))
    ensures ws[n + 1].seen == Replay.TableAfter(Checks(s.routes, es[..n + 1]))
  {
    SeenAfterStep(s, ws[n], es[n]);
    OneMoreCheck(s.routes, es, n);
    var before, after := Checks(s.routes, es[..n]), Checks(s.routes, es[..n + 1]);
    if es[n].CallbackEvent? {
      assert after[..|after| - 1] == before;
    } else {
      assert after == before;
    }
  }

  lemma {:induction false} SeenIsTable(s: Configuration, es: seq<Event>, ws: seq<World>, n: nat)
    requires IsRun(s, es, ws) && n <= |es| && s.routes.protected
    ensures ws[n].seen == Replay.TableAfter(Checks(s.routes, es[..n]))
    decreases n
  {
    if n == 0 {
    } else {
      SeenIsTable(s, es, ws, n - 1);
      SeenInRun(s, es, ws, n - 1);
    }
  }

  /** A callback reaches the handler: it is counted, and what the payload calls for is logged
      and done to the transactions. */
  ghost predicate Handled(w: World, v: World, e: Event)
    requires e.CallbackEvent?
  {
    && v.books.counts == w.books.counts.(callbacksReceived := w.books.counts.callbacksReceived + 1)
    && v.books.events == w.books.events + [LoggedFor(w.books.rows, e.payload)]
    && v.books.rows == RowsAfter(w.books.rows, e.payload, e.settledAt)
    && v.books.approvals == w.books.approvals && v.books.calls == w.books.calls && v.executions == w.executions
  }

  /** A callback is rejected as a duplicate: that is logged, and nothing else happens. */
  ghost predicate Duplicate(s: Configuration, w: World, v: World, e: Event)
    requires e.CallbackEvent?
  {
    && v.books == w.books.(events := w.books.events
                                     + [CallbackDuplicate(Replay.ReplayKey(s.routes.hash, e.payload))])
    && v.executions == w.executions && v.applied == w.applied
  }

  lemma PassingIsHandled(s: Configuration, w: World, e: Event)
    requires e.CallbackEvent?
    ensures var v := Step(s, w, e);
      if CallbackRoutes.Passes(s.routes, w.seen, e.payload, e.arrivedAt) then Handled(w, v, e)
      else Duplicate(s, w, v, e)
  {
    assert w.applied + [] == w.applied;
  }

  /** In every run under replay protection, a callback is handled if and only if every earlier
      accepted callback with its key has expired; otherwise it is a logged duplicate. */
  lemma HandledExactly(s: Configuration, es: seq<Event>, ws: seq<World>, n: nat)
    requires IsRun(s, es, ws) && n < |es| && es[n].CallbackEvent? && s.routes.protected
    requires Replay.InOrder(Checks(s.routes, es[..n + 1]))
    ensures |Checks(s.routes, es[..n + 1])| == |Checks(s.routes, es[..n])| + 1
    ensures if Replay.Accepted(Checks(s.routes, es[..n + 1]), |Checks(s.routes, es[..n])|)
            then Handled(ws[n], ws[n + 1], es[n]) else Duplicate(s, ws[n], ws[n + 1], es[n])
  {
    var before, after := Checks(s.routes, es[..n]), Checks(s.routes, es[..n + 1]);
    OneMoreCheck(s.routes, es, n);
    SeenIsTable(s, es, ws, n);
    assert after[..|before|] == before;
    Replay.TableRefinesHistory(after, |before|);
    PassingIsHandled(s, ws[n], es[n]);
  }

  /** Without replay protection every callback is handled. */
  lemma UnprotectedAreHandled(s: Configuration, w: World, e: Event)
    requires e.CallbackEvent? && !s.routes.protected
    ensures Handled(w, Step(s, w, e), e) && Step(s, w, e).seen == w.seen
  {
    PassingIsHandled(s, w, e);
  }
}
