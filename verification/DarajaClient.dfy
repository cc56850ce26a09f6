/** Status queries of the Daraja client (app/daraja/client.py): the retry loop under the
    circuit breaker. Each HTTP request is answered by a script of outcomes. */
module DarajaClient {
  import opened Common
  import opened CircuitBreaker

  /** A response body, as far as the client looks at it: `token` is a usable access token. */
  datatype Body = NotJson | NotAnObject | Object(token: bool, responseCode: string)

  /** One HTTP request: a response, or an exception of the HTTP library. */
  datatype Outcome =
    | Response(status: int, body: Body)
    | TimedOut
    | ConnectFailed
    | TransportFailed

  datatype Settings = Settings(
    maxRetries: int, backoffSeconds: real, credentialsPresent: bool, statusSettingsPresent: bool)

  const RETRY_STATUSES: set<int> := {502, 503, 504}

  predicate Retryable(o: Outcome) {
    match o
    case Response(status, _) => status in RETRY_STATUSES
    case TimedOut => true
    case ConnectFailed => true
    case TransportFailed => false
  }

  function Attempts(maxRetries: int): (n: int)
    ensures n >= 1
  {
    Max(0, maxRetries) + 1
  }

  /** The request whose outcome the retry loop hands on: the first one that is not
      retryable, or else the last one. */
  ghost predicate Decides(script: nat -> Outcome, from: nat, attempts: int, k: nat) {
    && k < attempts
    && (forall i: nat :: from <= i < from + k ==> Retryable(script(i)))
    && (k == attempts - 1 || !Retryable(script(from + k)))
  }

  function Decisive(script: nat -> Outcome, from: nat, attempts: int): (k: nat)
    requires attempts >= 1
    ensures k < attempts
    decreases attempts
  {
    if attempts == 1 || !Retryable(script(from)) then 0
    else Decisive(script, from + 1, attempts - 1) + 1
  }

  lemma {:induction false} DecisiveDecides(script: nat -> Outcome, from: nat, attempts: int)
    requires attempts >= 1
    ensures Decides(script, from, attempts, Decisive(script, from, attempts))
    decreases attempts
  {
    if attempts == 1 || !Retryable(script(from)) {
    } else {
      DecisiveDecides(script, from + 1, attempts - 1);
    }
  }

  lemma DecisiveIsUnique(script: nat -> Outcome, from: nat, attempts: int, k: nat)
    requires attempts >= 1 && Decides(script, from, attempts, k)
    ensures k == Decisive(script, from, attempts)
  {
    DecisiveDecides(script, from, attempts);
  }

  // ---------------------------------------------------------------- one status query

  /** What leaves the guarded part of a status query: the answer or the exception. */
  datatype Signal =
    | Answered(responseCode: string)
    | AnsweredWithoutObject
    | StatusError(status: int, describable: bool)
    | TimeoutError
    | TransportError
    | ValueError
    | AttributeError

  predicate RecordsSuccess(s: Signal) {
    s.Answered? || s.AnsweredWithoutObject?
  }

  /** An AttributeError is caught by no handler and leaves the breaker untouched. */
  predicate RecordsFailure(s: Signal) {
    s.StatusError? || s.TimeoutError? || s.TransportError? || s.ValueError?
  }

  /** An outcome that is an exception or a status that `raise_for_status` refuses. */
  function RaisedBy(o: Outcome): Option<Signal> {
    match o
    case TimedOut => Some(TimeoutError)
    case ConnectFailed => Some(TransportError)
    case TransportFailed => Some(TransportError)
    case Response(status, body) =>
      if 200 <= status < 300 then None else Some(StatusError(status, body != NotAnObject))
  }

  /** The token step: None when it yields a token. */
  function TokenSignal(o: Outcome): Option<Signal> {
    if RaisedBy(o).Some? then RaisedBy(o)
    else match o.body
      case NotJson => Some(ValueError)
      case NotAnObject => Some(AttributeError)
      case Object(token, _) => if token then None else Some(ValueError)
  }

  function StatusSignal(o: Outcome): Signal {
    if RaisedBy(o).Some? then RaisedBy(o).value
    else match o.body
      case NotJson => ValueError
      case NotAnObject => AnsweredWithoutObject
      case Object(_, code) => Answered(code)
  }

  /** The most requests one query sends: a round of attempts for the token and one for the query. */
  function PerQuery(s: Settings): nat {
    2 * Attempts(s.maxRetries)
  }

  /** The requests an admitted query sends and the signal it ends with. */
  function Query(s: Settings, script: nat -> Outcome, from: nat): (r: (nat, Signal))
    ensures r.0 <= PerQuery(s)
  {
    var attempts := Attempts(s.maxRetries);
    if !s.credentialsPresent then (0, ValueError)
    else
      var t := Decisive(script, from, attempts) + 1;
      var token := TokenSignal(script(from + t - 1));
      if token.Some? then (t, token.value)
      else
        var q := Decisive(script, from + t, attempts) + 1;
        (t + q, StatusSignal(script(from + t + q - 1)))
  }

  datatype Category =
    | ValidationError | AuthError | TimeoutCategory | RateLimited | ProviderUnavailable | UnknownError

  function CategoryForStatus(status: int): Category {
    if status == 400 then ValidationError
    else if status == 401 || status == 403 then AuthError
    else if status == 408 then TimeoutCategory
    else if status == 429 then RateLimited
    else if status in {500, 502, 503, 504} then ProviderUnavailable
    else UnknownError
  }

  datatype Reply =
    | QueryAccepted
    | QueryFailed(category: Category)
    | RejectedByBreaker
    | Raised

  function ReplyTo(s: Signal): Reply {
    match s
    case Answered(code) => if code == "0" then QueryAccepted else QueryFailed(UnknownError)
    case AnsweredWithoutObject => Raised
    case StatusError(status, describable) => if describable then QueryFailed(CategoryForStatus(status)) else Raised
    case TimeoutError => QueryFailed(TimeoutCategory)
    case TransportError => QueryFailed(ProviderUnavailable)
    case ValueError => QueryFailed(UnknownError)
    case AttributeError => Raised
  }

  function Recorded(b: Breaker, s: Signal, now: real): Breaker {
    if RecordsSuccess(s) then Succeeded(b)
    else if RecordsFailure(s) then Failed(b, now)
    else b
  }

  class RealDarajaClient {
    const breaker: DarajaCircuitBreaker
    const settings: Settings
    var sent: nat
    var sleeps: nat

    constructor (breaker: DarajaCircuitBreaker, settings: Settings)
      ensures this.breaker == breaker && this.settings == settings && sent == 0 && sleeps == 0
    {
      this.breaker, this.settings := breaker, settings;
      sent, sleeps := 0, 0;
    }

    method SleepBetweenRetries()
      modifies this`sleeps
      ensures sleeps == old(sleeps) + if settings.backoffSeconds > 0.0 then 1 else 0
    {
      if settings.backoffSeconds > 0.0 {
        sleeps := sleeps + 1;
      }
    }

    /** Returns or raises the deciding outcome; sleeps at most once before each retry. */
    method RequestWithRetries(script: nat -> Outcome) returns (outcome: Outcome)
      modifies this`sent, this`sleeps
      ensures var k := Decisive(script, old(sent), Attempts(settings.maxRetries));
        && outcome == script(old(sent) + k)
        && sent == old(sent) + k + 1 <= old(sent) + Attempts(settings.maxRetries)
        && sleeps == old(sleeps) + (if settings.backoffSeconds > 0.0 then k else 0)
    {
      var attempts := Attempts(settings.maxRetries);
      var attempt := 0;
      outcome := TimedOut;
      while attempt < attempts
        invariant 0 <= attempt < attempts
        invariant sent == old(sent) + attempt
        invariant sleeps == old(sleeps) + (if settings.backoffSeconds > 0.0 then attempt else 0)
        invariant forall i: nat :: old(sent) <= i < sent ==> Retryable(script(i))
      {
        outcome := script(sent);
        sent := sent + 1;
        if outcome == TimedOut || outcome == ConnectFailed {
          if attempt < attempts - 1 {
            SleepBetweenRetries();
            attempt := attempt + 1;
            continue;
          }
          DecisiveIsUnique(script, old(sent), attempts, attempt);
          return;
        }
        if outcome.Response? && outcome.status in RETRY_STATUSES && attempt < attempts - 1 {
          SleepBetweenRetries();
          attempt := attempt + 1;
          continue;
        }
        DecisiveIsUnique(script, old(sent), attempts, attempt);
        return;
      }
      // The raises that follow the source's loop are never reached.
      assert false;
    }

    method GetOAuthToken(script: nat -> Outcome) returns (failure: Option<Signal>)
      modifies this`sent, this`sleeps
      ensures !settings.credentialsPresent ==> failure == Some(ValueError) && sent == old(sent)
      ensures settings.credentialsPresent ==>
        var k := Decisive(script, old(sent), Attempts(settings.maxRetries));
        failure == TokenSignal(script(old(sent) + k)) && sent == old(sent) + k + 1
    {
      if !settings.credentialsPresent {
        return Some(ValueError);
      }
      var outcome := RequestWithRetries(script);
      failure := TokenSignal(outcome);
    }

    /** The requests of one query that the breaker has let through. */
    method TokenThenQuery(script: nat -> Outcome) returns (signal: Signal)
      modifies this`sent, this`sleeps
      ensures var (used, end) := Query(settings, script, old(sent)); signal == end && sent == old(sent) + used
    {
      var failure := GetOAuthToken(script);
      if failure.Some? {
        return failure.value;
      }
      var outcome := RequestWithRetries(script);
      signal := StatusSignal(outcome);
    }

    method CheckTransactionStatus(script: nat -> Outcome, startedAt: real, finishedAt: real) returns (reply: Reply)
      modifies this, breaker
      ensures var r := Checked(Service(old(breaker.Value()), old(sent), 0, 0), settings, script,
                               Times(startedAt, finishedAt));
        && breaker.Value() == r.breaker && sent == r.sent
      ensures !settings.statusSettingsPresent ==> reply == Raised
      ensures settings.statusSettingsPresent ==>
        reply == if Rejects(old(breaker.Value()), startedAt) then RejectedByBreaker
                 else ReplyTo(Query(settings, script, old(sent)).1)
    {
      if !settings.statusSettingsPresent {
        return Raised;
      }
      var rejected := breaker.BeforeCall(startedAt);
      if rejected {
        return RejectedByBreaker;
      }
      var signal := TokenThenQuery(script);
      if RecordsSuccess(signal) {
        breaker.RecordSuccess();
      } else if RecordsFailure(signal) {
        breaker.RecordFailure(finishedAt);
      }
      reply := ReplyTo(signal);
    }
  }

  // ---------------------------------------------------------------- runs of status queries

  datatype Times = Times(startedAt: real, finishedAt: real)

  /** The breaker, the requests sent so far, the queries admitted so far, and how many of
      those ended in an exception that the breaker never hears of. */
  datatype Service = Service(breaker: Breaker, sent: nat, admitted: nat, unheard: nat)

  function Checked(v: Service, s: Settings, script: nat -> Outcome, call: Times): Service {
    var b := Observed(v.breaker, call.startedAt);
    if !s.statusSettingsPresent then v
    else if Rejects(v.breaker, call.startedAt) then v.(breaker := b)
    else
      var (used, signal) := Query(s, script, v.sent);
      Service(Recorded(b, signal, call.finishedAt), v.sent + used, v.admitted + 1,
              v.unheard + if RecordsSuccess(signal) || RecordsFailure(signal) then 0 else 1)
  }

  function Run(v: Service, s: Settings, script: nat -> Outcome, calls: seq<Times>): Service {
    if calls == [] then v
    else Checked(Run(v, s, script, calls[..|calls| - 1]), s, script, calls[|calls| - 1])
  }

  /** Whether call `i` of a run gets past the breaker. */
  predicate Admitted(v0: Service, s: Settings, script: nat -> Outcome, calls: seq<Times>, i: nat)
    requires i < |calls|
  {
    s.statusSettingsPresent && !Rejects(Run(v0, s, script, calls[..i]).breaker, calls[i].startedAt)
  }

  /** Every call of the run that gets through fails, and every call starts before
      `recovery` seconds have passed since the breaker opened. */
  ghost predicate Outage(v: Service, s: Settings, script: nat -> Outcome, calls: seq<Times>) {
    forall i :: 0 <= i < |calls| ==>
      var before := Run(v, s, script, calls[..i]);
      && (Admitted(v, s, script, calls, i) ==> !RecordsSuccess(Query(s, script, before.sent).1))
      && (before.breaker.openedAt.Some? ==>
          calls[i].startedAt - before.breaker.openedAt.value < before.breaker.recovery)
  }

  /** The shape of every state of an outage: closed below the threshold, then open. */
  ghost predicate Failing(v: Service, threshold: int, recovery: real, perQuery: nat) {
    var b := v.breaker;
    && b.enabled && b.threshold == threshold && b.recovery == recovery
    && 0 <= b.failures <= threshold
    && b.mode == (if b.failures < threshold then Closed else Open)
    && (b.mode == Open <==> b.openedAt.Some?)
    && v.admitted == b.failures + v.unheard
    && v.sent <= v.admitted * perQuery
  }

  lemma FailingStep(
    v: Service, s: Settings, script: nat -> Outcome, call: Times, threshold: int, recovery: real)
    requires Failing(v, threshold, recovery, PerQuery(s))
    requires s.statusSettingsPresent && !Rejects(v.breaker, call.startedAt) ==>
      !RecordsSuccess(Query(s, script, v.sent).1)
    requires v.breaker.openedAt.Some? ==> call.startedAt - v.breaker.openedAt.value < recovery
    ensures Failing(Checked(v, s, script, call), threshold, recovery, PerQuery(s))
  {
    var after := Checked(v, s, script, call);
    var (used, signal) := Query(s, script, v.sent);
    Product(v.admitted, after.admitted, v.sent, after.sent, PerQuery(s));
  }

  lemma {:induction false} OutageKeepsFailing(
    v0: Service, s: Settings, script: nat -> Outcome, calls: seq<Times>, threshold: int, recovery: real)
    requires Failing(v0, threshold, recovery, PerQuery(s))
    requires Outage(v0, s, script, calls)
    ensures Failing(Run(v0, s, script, calls), threshold, recovery, PerQuery(s))
  {
    if calls == [] {
    } else {
      var n := |calls| - 1;
      forall i | 0 <= i < n
        ensures calls[..n][..i] == calls[..i]
        ensures Admitted(v0, s, script, calls[..n], i) <==> Admitted(v0, s, script, calls, i)
      {}
      OutageKeepsFailing(v0, s, script, calls[..n], threshold, recovery);
      FailingStep(Run(v0, s, script, calls[..n]), s, script, calls[n], threshold, recovery);
    }
  }

  lemma FreshIsFailing(failureThreshold: int, recovery: real, perQuery: nat)
    ensures Failing(Service(NewBreaker(true, failureThreshold, recovery), 0, 0, 0),
                    Max(1, failureThreshold), recovery, perQuery)
  {
    assert 0 * perQuery == 0;
  }

  // ---------------------------------------------------------------- the outage bound

  /** A 2xx answer with JSON that is not an object. */
  predicate NotAnObjectAnswer(o: Outcome) {
    o.Response? && 200 <= o.status < 300 && o.body == NotAnObject
  }

  /** Whether the token step of a query that starts at request `from` gets such an answer. */
  predicate BadToken(s: Settings, script: nat -> Outcome, from: nat) {
    s.credentialsPresent && NotAnObjectAnswer(script(from + Decisive(script, from, Attempts(s.maxRetries))))
  }

  /** The breaker never hears of a query exactly when its token answer is not an object. */
  lemma UnheardExactly(s: Settings, script: nat -> Outcome, from: nat)
    ensures var signal := Query(s, script, from).1;
      !RecordsSuccess(signal) && !RecordsFailure(signal) <==> BadToken(s, script, from)
  {}

  /** Call `i` of a run is rejected, or its token step gets no such answer. */
  predicate TokenOk(v0: Service, s: Settings, script: nat -> Outcome, calls: seq<Times>, i: nat)
    requires i < |calls|
  {
    Admitted(v0, s, script, calls, i) ==> !BadToken(s, script, Run(v0, s, script, calls[..i]).sent)
  }

  ghost predicate TokensOk(v0: Service, s: Settings, script: nat -> Outcome, calls: seq<Times>) {
    forall i :: 0 <= i < |calls| ==> TokenOk(v0, s, script, calls, i)
  }

  lemma TokensOkStep(v0: Service, s: Settings, script: nat -> Outcome, calls: seq<Times>, n: nat)
    requires |calls| == n + 1
    ensures TokensOk(v0, s, script, calls) <==> TokensOk(v0, s, script, calls[..n]) && TokenOk(v0, s, script, calls, n)
  {
    forall i | 0 <= i < n
      ensures TokenOk(v0, s, script, calls[..n], i) <==> TokenOk(v0, s, script, calls, i)
    {
      assert calls[..n][..i] == calls[..i] && calls[..n][i] == calls[i];
    }
  }

  lemma LastUnheard(v0: Service, s: Settings, script: nat -> Outcome, calls: seq<Times>, n: nat)
    requires |calls| == n + 1
    ensures Run(v0, s, script, calls).unheard
         == Run(v0, s, script, calls[..n]).unheard + if TokenOk(v0, s, script, calls, n) then 0 else 1
  {
    UnheardExactly(s, script, Run(v0, s, script, calls[..n]).sent);
  }

  lemma {:induction false} UnheardCountsBadTokens(v0: Service, s: Settings, script: nat -> Outcome, calls: seq<Times>)
    requires v0.unheard == 0
    ensures Run(v0, s, script, calls).unheard == 0 <==> TokensOk(v0, s, script, calls)
  {
    if calls == [] {
    } else {
      var n := |calls| - 1;
      UnheardCountsBadTokens(v0, s, script, calls[..n]);
      TokensOkStep(v0, s, script, calls, n);
      LastUnheard(v0, s, script, calls, n);
    }
  }

  function FreshService(failureThreshold: int, recovery: real): Service {
    Service(NewBreaker(true, failureThreshold, recovery), 0, 0, 0)
  }

  /** At most `threshold` queries were admitted, apart from the ones the breaker never hears
      of, and each sent at most `perQuery` requests. */
  ghost predicate Bounded(v: Service, threshold: int, perQuery: nat) {
    v.admitted <= threshold + v.unheard && v.sent <= (threshold + v.unheard) * perQuery
  }

  lemma FailingIsBounded(v: Service, threshold: int, recovery: real, perQuery: nat)
    requires Failing(v, threshold, recovery, perQuery)
    ensures Bounded(v, threshold, perQuery)
  {
    Scale(v.admitted, threshold + v.unheard, perQuery);
  }

  lemma OutageShape(failureThreshold: int, recovery: real, s: Settings, script: nat -> Outcome, calls: seq<Times>)
    requires Outage(FreshService(failureThreshold, recovery), s, script, calls)
    ensures var v := Run(FreshService(failureThreshold, recovery), s, script, calls);
      && Failing(v, Max(1, failureThreshold), recovery, PerQuery(s))
      && Bounded(v, Max(1, failureThreshold), PerQuery(s))
  {
    var v0 := FreshService(failureThreshold, recovery);
    var threshold := Max(1, failureThreshold);
    var perQuery := PerQuery(s);
    FreshIsFailing(failureThreshold, recovery, perQuery);
    OutageKeepsFailing(v0, s, script, calls, threshold, recovery);
    FailingIsBounded(Run(v0, s, script, calls), threshold, recovery, perQuery);
  }

  /** `threshold` queries of two rounds of attempts. */
  function OutageLimit(failureThreshold: int, s: Settings): int {
    Max(1, failureThreshold) * PerQuery(s)
  }

  lemma OutageLimitSpelledOut(failureThreshold: int, s: Settings)
    ensures OutageLimit(failureThreshold, s)
         == (if failureThreshold < 1 then 1 else failureThreshold)
            * (2 * (if s.maxRetries < 0 then 1 else s.maxRetries + 1))
  {}

  lemma NoneUnheard(v: Service, threshold: int, perQuery: nat)
    requires Bounded(v, threshold, perQuery) && v.unheard == 0
    ensures v.sent <= threshold * perQuery
  {
    assert threshold + v.unheard == threshold;
  }

  /** The requests of an outage are bounded by `threshold` queries of two rounds of attempts,
      if the token answers are objects. */
  lemma OutageBound(failureThreshold: int, recovery: real, s: Settings, script: nat -> Outcome, calls: seq<Times>)
    requires Outage(FreshService(failureThreshold, recovery), s, script, calls)
    requires TokensOk(FreshService(failureThreshold, recovery), s, script, calls)
    ensures Run(FreshService(failureThreshold, recovery), s, script, calls).sent
         <= OutageLimit(failureThreshold, s)
  {
    OutageShape(failureThreshold, recovery, s, script, calls);
    UnheardCountsBadTokens(FreshService(failureThreshold, recovery), s, script, calls);
    NoneUnheard(Run(FreshService(failureThreshold, recovery), s, script, calls), Max(1, failureThreshold), PerQuery(s));
  }

  /** Once an outage has opened the breaker, exactly `threshold` queries were admitted if and
      only if no admitted one got a token answer that is not an object. */
  lemma OpenedAfterThreshold(
    failureThreshold: int, recovery: real, s: Settings, script: nat -> Outcome, calls: seq<Times>)
    requires Outage(FreshService(failureThreshold, recovery), s, script, calls)
    requires Run(FreshService(failureThreshold, recovery), s, script, calls).breaker.mode == Open
    ensures Run(FreshService(failureThreshold, recovery), s, script, calls).admitted == Max(1, failureThreshold)
       <==> TokensOk(FreshService(failureThreshold, recovery), s, script, calls)
  {
    OutageShape(failureThreshold, recovery, s, script, calls);
    UnheardCountsBadTokens(FreshService(failureThreshold, recovery), s, script, calls);
  }

  /** Every answer of the script is one that the provider may give. */
  ghost predicate Gives(provider: Outcome -> bool, script: nat -> Outcome) {
    forall i: nat :: provider(script(i))
  }

  /** No outage against this provider sends more than `threshold` queries of two rounds. */
  ghost predicate AlwaysBounded(failureThreshold: int, recovery: real, s: Settings, provider: Outcome -> bool) {
    forall script: nat -> Outcome, calls: seq<Times> ::
      Gives(provider, script) && Outage(FreshService(failureThreshold, recovery), s, script, calls) ==>
        Run(FreshService(failureThreshold, recovery), s, script, calls).sent
        <= OutageLimit(failureThreshold, s)
  }

  lemma BadAnswersExceedTheLimit(failureThreshold: int, recovery: real, s: Settings, o: Outcome)
    returns (script: nat -> Outcome, calls: seq<Times>)
    requires s.statusSettingsPresent && s.credentialsPresent && NotAnObjectAnswer(o)
    ensures forall i: nat :: script(i) == o
    ensures Outage(FreshService(failureThreshold, recovery), s, script, calls)
    ensures Run(FreshService(failureThreshold, recovery), s, script, calls).sent > OutageLimit(failureThreshold, s)
  {
    script := (i: nat) => o;
    calls := seq(OutageLimit(failureThreshold, s) + 1, i => Times(0.0, 0.0));
    UnheardExceptionsAreUnbounded(failureThreshold, recovery, s, script, calls);
  }

  lemma GoodAnswersAreBounded(failureThreshold: int, recovery: real, s: Settings, provider: Outcome -> bool,
                              script: nat -> Outcome, calls: seq<Times>)
    requires s.statusSettingsPresent && s.credentialsPresent ==> forall o :: provider(o) ==> !NotAnObjectAnswer(o)
    requires Gives(provider, script) && Outage(FreshService(failureThreshold, recovery), s, script, calls)
    ensures Run(FreshService(failureThreshold, recovery), s, script, calls).sent <= OutageLimit(failureThreshold, s)
  {
    OutageBound(failureThreshold, recovery, s, script, calls);
  }

  /** The exact condition: the outage bound holds against a provider, for every script of its
      answers and every sequence of calls, if and only if it never answers 2xx with JSON that is
      not an object (or the client lacks the settings to ask it). */
  lemma OutageBoundExactly(failureThreshold: int, recovery: real, s: Settings, provider: Outcome -> bool)
    ensures AlwaysBounded(failureThreshold, recovery, s, provider)
       <==> (s.statusSettingsPresent && s.credentialsPresent ==>
               forall o :: provider(o) ==> !NotAnObjectAnswer(o))
  {
    if s.statusSettingsPresent && s.credentialsPresent && exists o :: provider(o) && NotAnObjectAnswer(o) {
      var o :| provider(o) && NotAnObjectAnswer(o);
      var script, calls := BadAnswersExceedTheLimit(failureThreshold, recovery, s, o);
      assert Gives(provider, script);
    } else {
      forall script: nat -> Outcome, calls: seq<Times>
        | Gives(provider, script) && Outage(FreshService(failureThreshold, recovery), s, script, calls)
        ensures Run(FreshService(failureThreshold, recovery), s, script, calls).sent
             <= OutageLimit(failureThreshold, s)
      {
        GoodAnswersAreBounded(failureThreshold, recovery, s, provider, script, calls);
      }
    }
  }

  lemma Product(a: nat, a': nat, sent: nat, sent': nat, c: nat)
    requires sent <= a * c
    requires (a' == a && sent' == sent) || (a' == a + 1 && sent' <= sent + c)
    ensures sent' <= a' * c
  {
    if a' == a + 1 {
      assert a' * c == a * c + c;
    }
  }

  lemma Scale(a: nat, b: nat, c: nat)
    requires a <= b
    ensures a * c <= b * c
  {
    assert b * c == a * c + (b - a) * c;
  }

  /** A token endpoint that keeps answering 2xx with JSON that is not an object, say a list, lets
      every query through, for ever, without the breaker counting one failure. */
  lemma {:induction false} UnheardExceptionsAreUnbounded(
    failureThreshold: int, recovery: real, s: Settings, script: nat -> Outcome, calls: seq<Times>)
    requires s.credentialsPresent && s.statusSettingsPresent
    requires forall i: nat :: NotAnObjectAnswer(script(i))
    ensures var v0 := FreshService(failureThreshold, recovery);
      && Outage(v0, s, script, calls)
      && Run(v0, s, script, calls) == Service(v0.breaker, |calls|, |calls|, |calls|)
  {
    var v0 := FreshService(failureThreshold, recovery);
    forall i | 0 <= i <= |calls|
      ensures Run(v0, s, script, calls[..i]) == Service(v0.breaker, i, i, i)
    {
      ListsOnly(v0, s, script, calls[..i]);
    }
    assert calls[..|calls|] == calls;
    forall i | 0 <= i < |calls| ensures !RecordsSuccess(Query(s, script, i).1) {
      assert Decisive(script, i, Attempts(s.maxRetries)) == 0;
      UnheardExactly(s, script, i);
    }
  }

  lemma {:induction false} ListsOnly(v0: Service, s: Settings, script: nat -> Outcome, calls: seq<Times>)
    requires s.credentialsPresent && s.statusSettingsPresent
    requires v0.sent == v0.admitted == v0.unheard == 0
    requires v0.breaker.mode == Closed
    requires forall i: nat :: NotAnObjectAnswer(script(i))
    ensures Run(v0, s, script, calls) == Service(v0.breaker, |calls|, |calls|, |calls|)
  {
    if calls == [] {
    } else {
      ListsOnly(v0, s, script, calls[..|calls| - 1]);
      assert Decisive(script, |calls| - 1, Attempts(s.maxRetries)) == 0;
    }
  }
}
