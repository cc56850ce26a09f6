/** What the caller of a status query learns, and when it is turned away, told on the answers of
    the provider (app/daraja/client.py). */
module StatusReplies {
  import opened Common
  import opened CircuitBreaker
  import opened DarajaClient

  // ---------------------------------------------------------------- the reply

  predicate Fine(o: Outcome) {
    o.Response? && 200 <= o.status < 300
  }

  predicate TokenGiven(o: Outcome) {
    Fine(o) && o.body.Object? && o.body.token
  }

  /** The HTTP statuses behind a category; every other failing status is an unknown error. */
  function StatusesOf(c: Category): set<int> {
    match c
    case ValidationError => {400}
    case AuthError => {401, 403}
    case TimeoutCategory => {408}
    case RateLimited => {429}
    case ProviderUnavailable => {500, 502, 503, 504}
    case UnknownError => {}
  }

  /** What the caller learns of a request that got no 2xx answer. A failing answer whose JSON is
      not an object cannot be described and raises. */
  predicate TellsFailure(o: Outcome, r: Reply) {
    match o
    case TimedOut => r == QueryFailed(TimeoutCategory)
    case ConnectFailed => r == QueryFailed(ProviderUnavailable)
    case TransportFailed => r == QueryFailed(ProviderUnavailable)
    case Response(status, body) =>
      if body == NotAnObject then r == Raised
      else r.QueryFailed? && (if r.category == UnknownError
                              then status !in {400, 401, 403, 408, 429, 500, 502, 503, 504}
                              else status in StatusesOf(r.category))
  }

  /** What the caller learns from the two outcomes that the retry loop hands on: the one for the
      token, and the one for the query. */
  predicate Tells(token: Outcome, query: Outcome, r: Reply) {
    if !Fine(token) then TellsFailure(token, r)
    else if token.body == NotAnObject then r == Raised
    else if !TokenGiven(token) then r == QueryFailed(UnknownError)
    else if !Fine(query) then TellsFailure(query, r)
    else match query.body
      case NotJson => r == QueryFailed(UnknownError)
      case NotAnObject => r == Raised
      case Object(_, code) => if code == "0" then r == QueryAccepted else r == QueryFailed(UnknownError)
  }

  /** A timeout, a failed connection or a 502, 503 or 504: what the retry loop tries again. */
  predicate TriedAgain(o: Outcome) {
    match o
    case Response(status, _) => 502 <= status <= 504
    case TimedOut => true
    case ConnectFailed => true
    case TransportFailed => false
  }

  /** The loop hands on the first outcome that is not tried again, or the last of
      max(0, max_retries) + 1 tries. */
  lemma HandedOnExactly(s: Settings, script: nat -> Outcome, from: nat, k: nat)
    ensures k == Decisive(script, from, Attempts(s.maxRetries))
       <==> && (forall i: nat :: from <= i < from + k ==> TriedAgain(script(i)))
            && (if TriedAgain(script(from + k)) then k == (if s.maxRetries < 0 then 0 else s.maxRetries)
                else k <= (if s.maxRetries < 0 then 0 else s.maxRetries))
  {
    var attempts := Attempts(s.maxRetries);
    forall o: Outcome ensures Retryable(o) <==> TriedAgain(o) {}
    DecisiveDecides(script, from, attempts);
    assert Retryable(script(from + k)) <==> TriedAgain(script(from + k));
    forall i: nat | from <= i < from + k ensures Retryable(script(i)) <==> TriedAgain(script(i)) {}
    if Decides(script, from, attempts, k) {
      DecisiveIsUnique(script, from, attempts, k);
    }
  }

  lemma StatusIsCategorised(status: int)
    ensures var c := CategoryForStatus(status);
      if c == UnknownError then status !in {400, 401, 403, 408, 429, 500, 502, 503, 504} else status in StatusesOf(c)
  {}

  /** An admitted query tells what the two deciding outcomes say; without credentials it sends
      nothing and fails. */
  lemma QueryTells(s: Settings, script: nat -> Outcome, from: nat, k: nat, l: nat)
    requires Decides(script, from, Attempts(s.maxRetries), k)
    requires Decides(script, from + k + 1, Attempts(s.maxRetries), l)
    ensures var (used, signal) := Query(s, script, from);
      if !s.credentialsPresent then used == 0 && ReplyTo(signal) == QueryFailed(UnknownError)
      else
        && used == k + 1 + (if TokenGiven(script(from + k)) then l + 1 else 0)
        && Tells(script(from + k), script(from + k + 1 + l), ReplyTo(signal))
  {
    DecisiveIsUnique(script, from, Attempts(s.maxRetries), k);
    DecisiveIsUnique(script, from + k + 1, Attempts(s.maxRetries), l);
    if script(from + k).Response? {
      StatusIsCategorised(script(from + k).status);
    }
    if script(from + k + 1 + l).Response? {
      StatusIsCategorised(script(from + k + 1 + l).status);
    }
  }

  /** The query is accepted exactly when a usable token came back and the answer to the query is
      2xx with response code "0". */
  lemma AcceptedExactly(s: Settings, script: nat -> Outcome, from: nat, k: nat, l: nat)
    requires Decides(script, from, Attempts(s.maxRetries), k)
    requires Decides(script, from + k + 1, Attempts(s.maxRetries), l)
    ensures ReplyTo(Query(s, script, from).1) == QueryAccepted
       <==> && s.credentialsPresent && TokenGiven(script(from + k))
            && var o := script(from + k + 1 + l); Fine(o) && o.body.Object? && o.body.responseCode == "0"
  {
    QueryTells(s, script, from, k, l);
  }

  // ---------------------------------------------------------------- the breaker over queries

  /** A token and a 2xx answer in JSON: what counts as a success for the breaker. */
  predicate Succeeds(s: Settings, script: nat -> Outcome, from: nat) {
    && s.credentialsPresent
    && var k := Decisive(script, from, Attempts(s.maxRetries));
       && TokenGiven(script(from + k))
       && var o := script(from + k + 1 + Decisive(script, from + k + 1, Attempts(s.maxRetries)));
          Fine(o) && o.body != NotJson
  }

  lemma SucceedsExactly(s: Settings, script: nat -> Outcome, from: nat)
    ensures RecordsSuccess(Query(s, script, from).1) <==> Succeeds(s, script, from)
    ensures RecordsFailure(Query(s, script, from).1)
       <==> !Succeeds(s, script, from) && !BadToken(s, script, from)
  {
    UnheardExactly(s, script, from);
  }

  /** What the calls of a run mean for the breaker: each one looks at the state, and one that is
      admitted succeeds, fails, or ends unheard. */
  function QueryHistory(v0: Service, s: Settings, script: nat -> Outcome, calls: seq<Times>): seq<Event> {
    if calls == [] || !s.statusSettingsPresent then []
    else
      var n := |calls| - 1;
      var v := Run(v0, s, script, calls[..n]);
      QueryHistory(v0, s, script, calls[..n]) + [Observe(calls[n].startedAt)]
      + if Rejects(v.breaker, calls[n].startedAt) || BadToken(s, script, v.sent) then []
        else if Succeeds(s, script, v.sent) then [Success(calls[n].finishedAt)]
        else [Failure(calls[n].finishedAt)]
  }

  lemma ReplayedAppend(b: Breaker, history: seq<Event>, e: Event)
    ensures Replayed(b, history + [e]) == Applied(Replayed(b, history), e)
  {
    assert (history + [e])[..|history|] == history;
  }

  /** The breaker of a run is the breaker after that history. */
  lemma {:induction false} RunReplays(v0: Service, s: Settings, script: nat -> Outcome, calls: seq<Times>)
    ensures Run(v0, s, script, calls).breaker == Replayed(v0.breaker, QueryHistory(v0, s, script, calls))
  {
    if calls == [] {
    } else {
      var n := |calls| - 1;
      RunReplays(v0, s, script, calls[..n]);
      if s.statusSettingsPresent {
        var v, before := Run(v0, s, script, calls[..n]), QueryHistory(v0, s, script, calls[..n]);
        SucceedsExactly(s, script, v.sent);
        ReplayedAppend(v0.breaker, before, Observe(calls[n].startedAt));
        ReplayedAppend(v0.breaker, before + [Observe(calls[n].startedAt)], Success(calls[n].finishedAt));
        ReplayedAppend(v0.breaker, before + [Observe(calls[n].startedAt)], Failure(calls[n].finishedAt));
        assert before + [Observe(calls[n].startedAt)] + [] == before + [Observe(calls[n].startedAt)];
      }
    }
  }

  /** After any calls, a query is turned away exactly when at least threshold queries have failed
      since the last one that succeeded, and the last failure is less than the recovery time old. */
  lemma TurnedAwayExactly(failureThreshold: int, recovery: real, s: Settings, script: nat -> Outcome,
                          calls: seq<Times>, now: real)
    requires InOrder(QueryHistory(FreshService(failureThreshold, recovery), s, script, calls), now)
    ensures var history := QueryHistory(FreshService(failureThreshold, recovery), s, script, calls);
      Rejects(Run(FreshService(failureThreshold, recovery), s, script, calls).breaker, now)
      <==> FailuresSinceSuccess(history) >= Max(1, failureThreshold)
           && LastFailure(history).Some? && now - LastFailure(history).value < recovery
  {
    RunReplays(FreshService(failureThreshold, recovery), s, script, calls);
    RejectsByHistory(failureThreshold, recovery,
                     QueryHistory(FreshService(failureThreshold, recovery), s, script, calls), now);
  }

  /** With a disabled breaker every query is let through. */
  lemma DisabledTurnsNobodyAway(failureThreshold: int, recovery: real, s: Settings, script: nat -> Outcome,
                                calls: seq<Times>, now: real)
    ensures !Rejects(Run(Service(NewBreaker(false, failureThreshold, recovery), 0, 0, 0), s, script, calls).breaker, now)
  {
    var v0 := Service(NewBreaker(false, failureThreshold, recovery), 0, 0, 0);
    RunReplays(v0, s, script, calls);
    DisabledNeverRejects(failureThreshold, recovery, QueryHistory(v0, s, script, calls), now);
  }
}
