/** The callback route (app/callbacks/routes.py): the replay check, then the handler. */
module CallbackRoutes {
  import opened Common
  import opened TransactionRepository
  import opened Json
  import opened Audit
  import opened Callbacks
  import Replay

  datatype Settings = Settings(protected: bool, windowSeconds: int, hash: string -> string)

  /** Whether a payload reaches the handler. */
  predicate Passes(s: Settings, seen: Replay.Table, payload: Dict, clock: real) {
    s.protected ==> Replay.Accepts(seen, Replay.ReplayKey(s.hash, payload), clock)
  }

  function SeenAfter(s: Settings, seen: Replay.Table, payload: Dict, clock: real): Replay.Table {
    if s.protected then Replay.AfterCheck(seen, Replay.ReplayKey(s.hash, payload), s.windowSeconds, clock) else seen
  }

  datatype RouteResponse = Processed(result: Processing) | DuplicateRejected

  class CallbackRoute {
    const settings: Settings
    const replay: Replay.InMemoryReplayProtection
    const handler: StkCallbackHandler

    constructor (settings: Settings, replay: Replay.InMemoryReplayProtection, handler: StkCallbackHandler)
      ensures this.settings == settings && this.replay == replay && this.handler == handler
    {
      this.settings, this.replay, this.handler := settings, replay, handler;
    }

    method HandleStkCallback(payload: Dict, now: Time, clock: real) returns (r: RouteResponse)
      modifies replay, handler.repository, handler.auditLog, handler.metrics
      ensures replay.seen == SeenAfter(settings, old(replay.seen), payload, clock)
      ensures var rows := old(handler.repository.transactions);
        if Passes(settings, old(replay.seen), payload, clock) then
          && r == Processed(AnswerTo(rows, payload))
          && handler.repository.transactions == RowsAfter(rows, payload, now)
          && handler.auditLog.events == old(handler.auditLog.events) + [LoggedFor(rows, payload)]
          && handler.metrics.counts == Counted(old(handler.metrics.counts), CallbackReceived)
        else
          && r == DuplicateRejected
          && handler.repository.transactions == rows
          && handler.auditLog.events
             == old(handler.auditLog.events) + [CallbackDuplicate(Replay.ReplayKey(settings.hash, payload))]
          && handler.metrics.counts == old(handler.metrics.counts)
    {
      var duplicate := RejectDuplicateIfNeeded(payload, clock);
      if duplicate {
        return DuplicateRejected;
      }
      var result := handler.Process(payload, now);
      r := Processed(result);
    }

    method RejectDuplicateIfNeeded(payload: Dict, clock: real) returns (rejected: bool)
      modifies replay, handler.auditLog
      ensures replay.seen == SeenAfter(settings, old(replay.seen), payload, clock)
      ensures rejected == !Passes(settings, old(replay.seen), payload, clock)
      ensures handler.auditLog.events == old(handler.auditLog.events)
        + if rejected then [CallbackDuplicate(Replay.ReplayKey(settings.hash, payload))] else []
    {
      if !settings.protected {
        return false;
      }
      var key := Replay.ReplayKey(settings.hash, payload);
      var allowed := replay.CheckAndStore(key, settings.windowSeconds, clock);
      if allowed {
        return false;
      }
      handler.auditLog.LogEvent(CallbackDuplicate(key));
      return true;
    }
  }
}
