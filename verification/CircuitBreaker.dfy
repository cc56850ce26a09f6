/** The circuit breaker over the Daraja provider (app/daraja/client.py). */
module CircuitBreaker {
  import opened Common

  datatype Mode = Closed | Open | HalfOpen

  /** The breaker's settings and its three mutable fields. */
  datatype Breaker = Breaker(
    enabled: bool, threshold: int, recovery: real,
    mode: Mode, failures: int, openedAt: Option<real>)

  function NewBreaker(enabled: bool, failureThreshold: int, recovery: real): Breaker {
    Breaker(enabled, Max(1, failureThreshold), recovery, Closed, 0, None)
  }

  /** Reading the state moves an open breaker whose recovery time is over to half-open. */
  function Observed(b: Breaker, now: real): Breaker {
    if b.enabled && b.mode == Open && b.openedAt.Some? && now - b.openedAt.value >= b.recovery
    then b.(mode := HalfOpen) else b
  }

  predicate Rejects(b: Breaker, now: real) {
    b.enabled && Observed(b, now).mode == Open
  }

  function Succeeded(b: Breaker): Breaker {
    if b.enabled then b.(mode := Closed, failures := 0, openedAt := None) else b
  }

  function Failed(b: Breaker, now: real): Breaker {
    if !b.enabled then b
    else if b.failures + 1 >= b.threshold
    then b.(failures := b.failures + 1, mode := Open, openedAt := Some(now))
    else b.(failures := b.failures + 1)
  }

  datatype Shown = Disabled | Enabled(mode: Mode)

  class DarajaCircuitBreaker {
    const enabled: bool
    const failureThreshold: int
    const recoverySeconds: real
    var state: Mode
    var failureCount: int
    var openedAt: Option<real>

    ghost function Value(): Breaker
      reads this
    {
      Breaker(enabled, failureThreshold, recoverySeconds, state, failureCount, openedAt)
    }

    constructor (enabled: bool, failureThreshold: int, recoverySeconds: real)
      ensures Value() == NewBreaker(enabled, failureThreshold, recoverySeconds)
    {
      this.enabled := enabled;
      this.failureThreshold := Max(1, failureThreshold);
      this.recoverySeconds := recoverySeconds;
      state, failureCount, openedAt := Closed, 0, None;
    }

    method State(now: real) returns (shown: Shown)
      modifies this
      ensures Value() == Observed(old(Value()), now)
      ensures shown == if enabled then Enabled(state) else Disabled
    {
      if !enabled {
        return Disabled;
      }
      if state == Open && openedAt.Some? {
        if now - openedAt.value >= recoverySeconds {
          state := HalfOpen;
        }
      }
      return Enabled(state);
    }

    method BeforeCall(now: real) returns (rejected: bool)
      modifies this
      ensures Value() == Observed(old(Value()), now)
      ensures rejected == Rejects(old(Value()), now)
    {
      if !enabled {
        return false;
      }
      var shown := State(now);
      return shown == Enabled(Open);
    }

    method RecordSuccess()
      modifies this
      ensures Value() == Succeeded(old(Value()))
    {
      if !enabled {
        return;
      }
      state, failureCount, openedAt := Closed, 0, None;
    }

    method RecordFailure(now: real)
      modifies this
      ensures Value() == Failed(old(Value()), now)
    {
      if !enabled {
        return;
      }
      failureCount := failureCount + 1;
      if failureCount >= failureThreshold {
        state := Open;
        openedAt := Some(now);
      }
    }
  }

  // ---------------------------------------------------------------- refinement of the history

  datatype Event = Observe(at: real) | Success(at: real) | Failure(at: real)

  function Applied(b: Breaker, e: Event): Breaker {
    match e
    case Observe(at) => Observed(b, at)
    case Success(_) => Succeeded(b)
    case Failure(at) => Failed(b, at)
  }

  /** The breaker after a history of events. */
  function Replayed(b: Breaker, history: seq<Event>): Breaker {
    if history == [] then b
    else Applied(Replayed(b, history[..|history| - 1]), history[|history| - 1])
  }

  function FailuresSinceSuccess(history: seq<Event>): nat {
    if history == [] then 0
    else
      var before := FailuresSinceSuccess(history[..|history| - 1]);
      match history[|history| - 1]
      case Observe(_) => before
      case Success(_) => 0
      case Failure(_) => before + 1
  }

  function LastFailure(history: seq<Event>): Option<real> {
    if history == [] then None
    else match history[|history| - 1]
      case Failure(at) => Some(at)
      case _ => LastFailure(history[..|history| - 1])
  }

  ghost predicate InOrder(history: seq<Event>, now: real) {
    && (forall i, j :: 0 <= i < j < |history| ==> history[i].at <= history[j].at)
    && (forall i :: 0 <= i < |history| ==> history[i].at <= now)
  }

  /** What the fields say about the history. A half-open breaker has outlived its recovery time. */
  lemma {:induction false} FieldsTellHistory(
    failureThreshold: int, recovery: real, history: seq<Event>, now: real)
    requires InOrder(history, now)
    ensures var b := Replayed(NewBreaker(true, failureThreshold, recovery), history);
      && b.enabled && b.threshold == Max(1, failureThreshold) && b.recovery == recovery
      && b.failures == FailuresSinceSuccess(history)
      && (b.mode == Closed <==> b.failures < b.threshold)
      && (b.mode == Closed ==> b.openedAt.None?)
      && (b.mode != Closed ==> b.openedAt.Some? && b.openedAt == LastFailure(history))
      && (b.mode == HalfOpen ==> now - b.openedAt.value >= recovery)
  {
    if history == [] {
    } else {
      FieldsTellHistory(failureThreshold, recovery, history[..|history| - 1], history[|history| - 1].at);
    }
  }

  /** An enabled breaker rejects a call at `now` exactly when at least `threshold` failures
      have happened since the last success and the last failure is less than `recovery`
      seconds old. Reading the state in between changes nothing. */
  lemma RejectsByHistory(failureThreshold: int, recovery: real, history: seq<Event>, now: real)
    requires InOrder(history, now)
    ensures Rejects(Replayed(NewBreaker(true, failureThreshold, recovery), history), now)
       <==> FailuresSinceSuccess(history) >= Max(1, failureThreshold)
            && LastFailure(history).Some? && now - LastFailure(history).value < recovery
  {
    FieldsTellHistory(failureThreshold, recovery, history, now);
  }

  /** A disabled breaker never rejects and never changes. */
  lemma {:induction false} DisabledNeverRejects(
    failureThreshold: int, recovery: real, history: seq<Event>, now: real)
    ensures var b := NewBreaker(false, failureThreshold, recovery);
      Replayed(b, history) == b && !Rejects(Replayed(b, history), now)
  {
    if history == [] {
    } else {
      DisabledNeverRejects(failureThreshold, recovery, history[..|history| - 1], now);
    }
  }
}
