# Verified model of the M-Pesa payment server

The project models the payment lifecycle of the server as one stateful system, together with
the time-driven guards around it, and proves what holds in every run.

- **Payments.** A push within the limit is executed at once, a larger one becomes an approval
  request, anything else is blocked. Approved requests run once; an idempotency key pays once.
- **Approvals.** Distinct reviewers, thresholds by amount, expiry, rejection.
- **Callbacks.** A stored transaction moves once, from pending to completed or failed, and only
  on a callback that agrees with its amount and phone.
- **Reports.** Receipts, the daily summary and reconciliation read the resulting state.
- **Guards.** The fixed-window rate limiter in both its forms, the pruned replay table, and the
  circuit breaker over the retry loop.

## How it is built

Each source class is a class with the same fields, and each of its methods is proved equal to a
function of the old state. The results about whole runs are lemmas about those functions:
`Lifecycle` puts them together as one state machine (`Step`, `IsRun`), and `LifecycleTheorems`
holds the main results; `AppContainer` wires the classes over shared objects and proves each of
their calls to be a step of that machine. What one call does and answers is told a second time,
without those functions, on stored rows, provider calls and payload entries: by `PaymentEffects`,
`ReviewEffects`, `CallbackEffects` and `StatusReplies`. The guards have history-based specifications that never
mention the table, window or field they refine.

The inputs the code takes from outside are parameters. Each reading of the clock is an argument: a
call that reads it several times takes the sequence of its readings (`Clock`), and nothing is
asked of them unless a lemma says so. The provider and the HTTP layer are answers chosen freely by
the caller. Ids from `uuid4` are arguments that must be new. SHA-256 is any function on texts; the
lemmas that need texts not to collide say so.

| file | models |
|---|---|
| `Lifecycle.dfy`, `LifecycleTheorems.dfy`, `Histories.dfy` | runs of the whole system, their invariant, and the main results |
| `AppContainer.dfy` | the wiring of the services, whose calls are the steps of a run |
| `PaymentEffects.dfy`, `ReviewEffects.dfy`, `CallbackEffects.dfy`, `CallbackRuns.dfy` | what a call does and answers, on rows, calls, approvals and payload entries |
| `Payments.dfy`, `Policy.dfy`, `IdempotencyKey.dfy` | payment service, safety policy, derived keys |
| `Approvals.dfy` | approval repository and service |
| `Callbacks.dfy`, `CallbackRoutes.dfy`, `Json.dfy` | callback handler, its route, decoded JSON |
| `Suppression.dfy` | what rejecting a duplicate callback can lose |
| `Replay.dfy`, `JsonText.dfy` | replay table, replay key and its canonical JSON text |
| `RateLimiter.dfy` | in-memory and Redis rate limiter |
| `CircuitBreaker.dfy`, `DarajaClient.dfy`, `StatusReplies.dfy` | circuit breaker, retry loop, status queries and what their callers learn |
| `TransactionRepository.dfy`, `PostgresRepository.dfy`, `TransactionStates.dfy` | the two repositories and the state machine |
| `StoredLedger.dfy` | payment execution over the constrained table |
| `Receipts.dfy`, `Analytics.dfy`, `Reconciliation.dfy` | the reports |
| `Audit.dfy`, `Common.dfy`, `Decimal.dfy` | audit log and counters, shared types, decimal texts |

## What does not hold

Six expectations about the code are false as one would first state them. Each has a lemma that
shows it failing, and beside it the condition under which it holds, as an equivalence.

- *A denied call means that exactly `limit` calls were admitted in the last window.* There can be
  more, from the end of the previous window (`DenialAfterMoreThanLimit`). It is exactly `limit` if
  and only if the last admission before the current window is at least a window old
  (`DenialMeansLimitReached`).
- *The circuit breaker bounds the requests of an outage.* A token endpoint that answers 2xx with
  JSON that is not an object raises an `AttributeError` that no handler catches, so the breaker
  never counts it (`UnheardExceptionsAreUnbounded`). The bound holds against a provider if and only
  if it never gives that answer (`OutageBoundExactly`).
- *A suppressed duplicate callback loses nothing.* Keys are stored before processing, so for every
  transaction that awaits its callback a refused one, say with a wrong amount, shuts out the
  correct one (`EveryAwaitedCallbackCanBeLost`, `MisleadingShutsOut`). A key can lose a callback if
  and only if its result code is readable and the first transaction with its checkout id is
  pending (`SuppressionLosesExactly`); in every run, that is over once a callback with the key was
  applied (`DuplicatesAreHarmless`).
- *A receipt looked up by reference belongs to the transaction found.* With two transactions under
  one checkout id it can be the other one's (`SharedCheckoutMisleads`), and with an empty checkout
  id there is none (`EmptyCheckoutBlocks`). It is right if and only if the transaction found has a
  non-empty checkout id that no earlier one has (`RightReceiptExactly`).
- *The text hashed for a derived key belongs to one request.* A bar in the reference or in the
  description, or an amount between bars in the phone, can be read two ways (`BarsCollide`). The
  text belongs to one request only if and only if there is none of these (`UnsharedExactly`).
- *Every accepted provider call is stored.* Over the table, a value too wide for its column raises
  after the provider has accepted, and every retry pays again (`WideReferencePaysEveryTime`). Calls
  and transactions are equal in number if and only if every accepted execution fits the columns
  and clashes with no row (`StoredLedgerIsExactly`).

## Model

| member | source | states |
|---|---|---|
| LifecycleTheorems.OverLimitPaymentsAreReviewed | app/services/payment_service.py:175-309 | in every run, each stored transaction above the limit was created by an execution of an approval whose payload is exactly its phone, amount, reference, description and key, with exactly max(1, required) distinct reviewers (the high-risk number at or above the threshold), the last review checked before expiry |
| LifecycleTheorems.ReviewsAreCounted | app/approvals/service.py:141-187 | in every run `review_count` is the number of distinct reviewers; a pending approval still lacks one, an approved one has exactly the required number |
| LifecycleTheorems.NeverPendingAgain | app/approvals/service.py:215-268 | an approval that is no longer pending never becomes pending again and gains no reviewer, although rejection may overwrite its status; payload and expiry never change |
| LifecycleTheorems.ApprovalsExecuteOnce | app/services/payment_service.py:217-261 | of two executions of one approval id in a run, with anything in between, at most the first one reaches payment |
| LifecycleTheorems.LedgerIsExact | app/services/payment_service.py:334-381 | in every run accepted provider calls, stored transactions, `stk_push_initiated` events and the success counter agree one by one and in order; idempotency keys are pairwise distinct |
| LifecycleTheorems.UsedKeyPaysOnce | app/services/payment_service.py:320-332 | once a transaction holds a key, every later execution with that key, whatever its other arguments, changes nothing, calls no provider, and answers with that same transaction |
| LifecycleTheorems.DerivedKeysKeepRequestsApart | app/services/payment_service.py:160-165 | two pushes with derived keys and bar-free phone and reference resolve to one key exactly when they are the same request, unless the hash collides on their texts |
| LifecycleTheorems.StatusChangesOnce | app/callbacks/handlers.py:83-130 | between any two states of a run a transaction keeps id, fields and creation time; its status is unchanged or has moved once from pending to completed or failed, after which nothing about it changes |
| LifecycleTheorems.CompletedMeansConfirmed | app/callbacks/handlers.py:79-130 | a completed transaction has result code 0, a receipt number, and an applied callback whose amount and phone digits equal the stored ones |
| LifecycleTheorems.DuplicatesAreHarmless | app/callbacks/routes.py:159-218 | once a callback was applied, any payload with the same replay key, including the fallback shapes, would leave every transaction as it is (unless the hash collides on the two) |
| LifecycleTheorems.UnappliedKeysSuppress | app/callbacks/routes.py:168-173 | a callback that was refused still stores its key, so a later one with the same key is rejected although it would have settled the transaction |
| Suppression.WrongAndRightShareFingerprint | app/callbacks/replay.py:116-130 | for every awaited transaction and every receipt text, a success callback with a wrong amount is refused, one with the stored amount settles, and both have one fingerprint |
| Suppression.EveryAwaitedCallbackCanBeLost | app/callbacks/handlers.py:73-130 | so for every awaited transaction there are two payloads with one fingerprint of which the second settles and the first does not |
| Suppression.MisleadingShutsOut | app/callbacks/routes.py:168-173 | the first of two such payloads changes no transaction, and within the window the second is rejected although it would change one |
| Suppression.LosableExactly | app/callbacks/handlers.py:62-130 | for every checkout id, result code text and receipt text, some payload with that fingerprint settles a transaction exactly when the code is readable and the first transaction with the id is pending |
| Suppression.SuppressionLosesExactly | app/callbacks/routes.py:159-218 | suppressing the key of a payload can lose a callback exactly under that condition, whatever the shapes of the payloads (with an injective hash) |
| LifecycleTheorems.RevenueIsConfirmed | app/analytics/service.py:29-51 | in every run the day's revenue is the sum of the amounts confirmed by applied success callbacks for that day's transactions, each at most once, and completed + failed + pending is the day's total |
| LifecycleTheorems.StepRevenue | app/callbacks/handlers.py:83-130 | a step changes a day's revenue by exactly the positive amount of the transaction it completes, and by nothing otherwise |
| LifecycleTheorems.RevenueNeverFalls | app/analytics/service.py:50-50 | a day's revenue never decreases along a run |
| LifecycleTheorems.ReceiptsAreForCompleted | app/receipts/generator.py:38-69 | in every run a receipt is issued exactly for completed transactions, the missing-receipt-number block is unreachable, and the receipt carries the amount and phone the provider was asked for |
| LifecycleTheorems.RunsRespectConstraints | app/storage/models.py:20-55 | if the provider's ids are distinct, the transactions of a run satisfy every uniqueness and status constraint of the table |
| Histories.ExecutionsAreEvents | app/services/payment_service.py:233-261 | every recorded execution is an event of the run that executed that approval, checked at the recorded time |
| Histories.AppliedAreEvents | app/callbacks/routes.py:82-105 | every recorded callback is an event of the run that passed the replay check and settled a then pending transaction with those facts |
| Histories.RowsAreEvents | app/services/payment_service.py:357-369 | every stored transaction was stored by an event of the run whose provider call was accepted, with that event's id and at its time, which decides the day of its revenue |
| Histories.ReviewersActed | app/approvals/service.py:141-187 | every reviewer of an approval approved or executed it in an event of the run whose expiry check came before the request expired |
| Histories.OverLimitPaymentsHaveEvents | app/services/payment_service.py:175-309 | behind every over-limit transaction of a run stand an execution event of its approval and, for each of its reviewers, an event of that operator before expiry |
| Histories.CreatedApprovalsAddUp | app/approvals/service.py:47-83 | in every run the pending, approved, rejected and expired approvals add up to the approval requests logged as created |
| Container.AppContainer.Handle | app/bootstrap/container.py:82-148 | any call on the wired services takes the shared objects through exactly one step of the lifecycle and keeps its invariant |
| PaymentEffects.ApprovedPaymentIsPaid | app/services/payment_service.py:233-393 | the last review of a pending approval with time left at both checks, under an unused key and an accepting provider, makes exactly one provider call with the payload's phone, amount, reference and description, stores exactly one row with the new id, and is on record as having created it |
| PaymentEffects.ReadyPaymentIsMade | app/services/payment_service.py:217-277 | whatever the provider does: the approval is approved with that last reviewer, and its payload is then paid, fails, or is answered from the row under its key; the answer carries that payment |
| PaymentEffects.ReadyPaymentIsRecorded | app/services/payment_service.py:261-277 | such an execution goes on record with its check time and the transaction it created, if any |
| PaymentEffects.ExecutesExactly | app/services/payment_service.py:198-261 | an execution reaches payment if and only if the approval is pending, has time left at both checks, and this review is new and the last one needed |
| PaymentEffects.UnreadyPaysNothing | app/services/payment_service.py:198-259 | otherwise no row, provider call, counter or execution is added, and the answer is not allowed |
| PaymentEffects.UnreadyExecutionIsReview | app/services/payment_service.py:198-259 | such an execution is the expiry sweep if the approval is overdue at the first check, and otherwise exactly the review by that operator |
| PaymentEffects.AllowedExecutionIsStored | app/services/payment_service.py:261-277 | in every state, an approved execution is answered as allowed exactly when its payment names a row stored afterwards |
| PaymentEffects.AllowedPushIsStored | app/services/payment_service.py:167-173 | a push is answered as allowed exactly when the answer names a row stored afterwards |
| PaymentEffects.ExecutionCarries | app/services/payment_service.py:311-393 | an execution repeats the first row under a taken key; else calls the provider once, and on acceptance stores one row with its fields, logs and counts it and answers with the ids and response code the provider gave, on an exception counts one failure and answers not allowed |
| PaymentEffects.LaterAnswersAgree | app/services/payment_service.py:320-393 | every later execution of a paid key changes nothing and answers with the transaction, checkout, merchant id and key of the first answer |
| PaymentEffects.RepeatedPushesAgree | app/services/payment_service.py:167-173 | in every run, two pushes with one key within the limit, of which the provider accepted the first, are answered with the same transaction, and the second changes nothing |
| PaymentEffects.PushWithinLimitIsExecuted | app/safety/policy.py:82-94 | with a phone and 0 < amount <= limit a push is carried out for exactly its fields and its key: the given one if it is not empty, else the hash of the four fields |
| PaymentEffects.PushAboveLimitAsks | app/services/payment_service.py:88-135 | above the limit it adds exactly one pending approval with exactly that payload, reviewers by amount and expiry by the configured minutes, and pays nothing |
| PaymentEffects.OtherPushesAreBlocked | app/safety/policy.py:61-80 | without phone or amount, or with amount <= 0, nothing changes and the answer is blocked |
| PaymentEffects.ExecutableExactly | app/services/payment_service.py:279-309 | a payload can be executed exactly when its five entries hold a request |
| ReviewEffects.TimelyReviewIsRecorded | app/approvals/service.py:141-213 | a timely review by a new operator is added, counted, stamped and logged; the approval is approved if it was the last one needed and stays pending otherwise; nothing else changes |
| ReviewEffects.LateReviewExpires | app/approvals/service.py:92-100 | a review of an overdue approval expires it |
| ReviewEffects.OtherReviewsChangeNothing | app/approvals/service.py:102-139 | a review of an unknown or settled approval, or by a known operator, changes nothing and says why |
| ReviewEffects.RejectionRejects | app/approvals/service.py:228-268 | a rejection of a stored approval that is not overdue makes it rejected, whatever its status, stamps and logs it, and changes nothing else |
| ReviewEffects.LateRejectionExpires | app/approvals/service.py:218-226 | a rejection of an overdue approval expires it |
| ReviewEffects.RejectedIsNeverPaid | app/approvals/service.py:215-268 | in every run, after a rejection the approval is rejected or expired and no later execution of it reaches payment, whatever comes in between |
| ReviewEffects.SettledNeverExecutes | app/services/payment_service.py:217-231 | in every run, an approval that is not pending is never executed |
| ReviewEffects.SweptApproval | app/approvals/service.py:285-325 | a sweep stamps an approval as expired exactly if its own reading finds it overdue |
| ReviewEffects.SweepLogsExactly | app/approvals/service.py:300-325 | it logs an expiry for an approval exactly when it has expired it |
| CallbackRuns.HandledExactly | app/callbacks/routes.py:159-218 | in every run under replay protection a callback is handled if and only if every earlier accepted one with its key has expired, and is a logged duplicate that changes nothing else otherwise |
| CallbackRuns.UnprotectedAreHandled | app/callbacks/routes.py:165-166 | without protection every callback is handled |
| StoredLedger.StoredPaymentService.ExecuteStkPush | app/services/payment_service.py:311-393 | state and outcome of an execution over the table: a storage error escapes after the provider call, leaving no row, event or count |
| StoredLedger.StoredFirstTry | app/services/payment_service.py:334-393 | with an unused key the provider is called once; an accepted row that can be stored is stored, logged and counted, and the answer names it; one that cannot lets the error escape and leaves nothing |
| StoredLedger.StoredRepeat | app/services/payment_service.py:320-332 | with a taken key nothing changes and the row under it is answered |
| StoredLedger.InsertedExactly | app/storage/models.py:20-55 | a pending row is stored exactly when each value fits its column and no unique column would hold a value twice |
| StoredLedger.GapIsLostCalls | app/services/payment_service.py:334-381 | in every run over the table, stored transactions, initiated events and the success counter agree, and accepted provider calls exceed them by exactly the lost executions |
| StoredLedger.StoredLedgerIsExactly | app/storage/models.py:20-55 | accepted calls and stored transactions are equal in number if and only if every accepted execution with an unused key fits the columns and clashes with no row |
| StoredLedger.StoredRunIsMemoryRun | app/services/payment_service.py:311-393 | then the run over the table is the run over memory, with the ledger corresponding one by one |
| StoredLedger.WideReferencePaysEveryTime | app/services/payment_service.py:357-369 | a request with an account reference over 128 characters is accepted by the provider on every try, each ending in a storage error and leaving nothing stored |
| Lifecycle.StepKeeps | app/services/payment_service.py:68-393 | every service call and every callback keeps the invariant of the system and only extends the earlier state |
| Lifecycle.RunExtends | app/storage/repositories.py:172-198 | every state of a run extends every earlier one: approvals evolve, transactions keep place and identity, histories grow |
| Payments.PaymentService.InitiateStkPush | app/services/payment_service.py:68-173 | the new state and answer of a push: executed within the limit, an approval request above it, nothing when blocked; each reading of the clock is its own argument |
| Payments.PaymentService.ExecuteApprovedPayment | app/services/payment_service.py:175-277 | the new state and answer of an approved execution, with separate clock readings for the first check, the sweep or the review, and the stored transaction |
| Payments.PaymentService.ExecuteApprovedStkPush | app/services/payment_service.py:279-309 | an executable payload is executed, any other is blocked without effect |
| Payments.PaymentService.ExecuteStkPush | app/services/payment_service.py:311-393 | the new state and answer of an execution: a used key changes nothing, a raised provider call only counts a failure, an accepted one stores, logs and counts once |
| IdempotencyKey.RawKeyIsInjective | app/services/payment_service.py:403-403 | the hashed text determines phone, amount, reference and description when phone and reference contain no bar, for every amount and description |
| IdempotencyKey.UnsharedExactly | app/services/payment_service.py:403-403 | over all requests: a text belongs to one request only if and only if its reference and description have no bar and no segment of its phone after the first reads as an amount |
| IdempotencyKey.UnsharedAmongPlainPhones | app/services/payment_service.py:403-403 | among bar-free phones: if and only if its reference and description have no bar |
| IdempotencyKey.ReferenceBarMoves | app/services/payment_service.py:403-403 | a bar in the reference can be moved into the description without changing the text, for all arguments |
| IdempotencyKey.BarsCollide | app/services/payment_service.py:403-403 | two pairs of different requests with one text: a barred phone whose second segment is an amount, and a barred reference |
| Approvals.ApprovalService.CreateApprovalRequest | app/approvals/service.py:47-83 | the stored request: pending, without reviews, its required reviewers by amount, its expiry from the first reading of the clock and its creation time from the second |
| Approvals.ApprovalService.ApproveRequest | app/approvals/service.py:85-213 | store, answer and log of a review: expired, not found, not pending, repeated, partial or completing; check and stamp are two readings of the clock |
| Approvals.ApprovalService.RejectRequest | app/approvals/service.py:215-268 | store, answer and log of a rejection, which overwrites any status but an overdue pending one; check and stamp are two readings |
| Approvals.ApprovalService.ExpireStaleApprovals | app/approvals/service.py:285-294 | the store, the log and the returned count after walking a snapshot while updating, with a reading of the clock for each check and each stamp |
| Approvals.ApprovalService.ListPendingRequests | app/approvals/service.py:275-283 | the store after the sweep, and the listing, which reads the clock again for each candidate |
| Approvals.SweepIsPointwise | app/approvals/service.py:285-325 | a sweep decides about each pending approval by its own reading and leaves all others, the ids and the order as they were |
| Approvals.SweepIsBracketed | app/approvals/service.py:285-325 | with a clock that does not go back it expires whatever is overdue when it starts and nothing that has time left when it ends |
| Approvals.ExpireStaleIsPointwise | app/approvals/service.py:285-325 | at one time it turns exactly the overdue pending approvals to expired |
| Approvals.ExpiryCountIsExact | app/approvals/service.py:288-294 | the returned number is the number of approvals that the sweep turned from pending to expired, whatever the readings |
| Approvals.ListingIsExact | app/approvals/service.py:278-283 | the listing holds, each once, exactly the approvals left pending by the sweep that have time left at their own reading; with a clock that does not go back, all that have time left at the end |
| Approvals.ListingAtOneTime | app/approvals/service.py:278-283 | at one time it is exactly the pending approvals with time left |
| Approvals.ApproveKeeps | app/approvals/service.py:85-213 | a review keeps the bookkeeping of every approval and lets approvals only evolve |
| Approvals.RejectKeeps | app/approvals/service.py:215-268 | so does a rejection |
| Approvals.InMemoryApprovalRepository.UpdateStatus | app/approvals/repository.py:86-107 | status and the matching timestamp change in place, or nothing when the id is unknown |
| Callbacks.StkCallbackHandler.Process | app/callbacks/handlers.py:50-162 | result, audit event, counter and transactions after one payload, for each of the seven outcomes; the repository never refuses what the handler has checked |
| CallbackEffects.SettlesExactly | app/callbacks/handlers.py:59-130 | for every payload: transactions change if and only if checkout id, code and description are readable, the first row with the id is pending, amount and phone digits agree as far as given, and code 0 comes with amount, receipt number and phone |
| CallbackEffects.KnownCallbackSettles | app/callbacks/handlers.py:79-162 | then that row becomes completed for code 0 and failed for any other, with code, description, receipt number and time, and result and log entry repeat the callback |
| CallbackEffects.KnownCallbackRefused | app/callbacks/handlers.py:79-128 | otherwise the first clause that fails decides the result (invalid, transition, amount, phone) and the log entry, and nothing changes |
| CallbackEffects.UnknownCallbackOutcome | app/callbacks/handlers.py:73-77 | a readable callback for no known transaction is answered as such |
| CallbackEffects.UnreadableCallbackOutcome | app/callbacks/handlers.py:59-71 | a payload without a readable callback is invalid, with its checkout id if it has one |
| CallbackEffects.MetadataIsData | app/callbacks/handlers.py:173-190 | the metadata hold under a name exactly the value of the last item that names it |
| CallbackEffects.DigitsOnlyJoins | app/callbacks/handlers.py:319-320 | the digits of a phone number are those of its parts, in order |
| CallbackEffects.ShapesShareFingerprint | app/callbacks/replay.py:135-146 | the three shapes of one callback have one replay fingerprint |
| CallbackEffects.FingerprintShowsEntries | app/callbacks/replay.py:116-125 | it shows the checkout id, the result code and the receipt number of the data |
| Callbacks.SettlesOnlyMatchingPending | app/callbacks/handlers.py:73-130 | a callback changes at most the first transaction with its checkout id, only if it is pending and agrees in amount and phone digits, and a success carries amount, phone and receipt |
| Callbacks.TerminalIgnoresCallbacks | app/callbacks/handlers.py:84-93 | once that transaction is terminal no callback for the id changes anything |
| Json.ExtractMetadata | app/callbacks/handlers.py:173-190 | the loop yields the dictionary of the usable items |
| Json.LastItemWins | app/callbacks/handlers.py:182-190 | a name has the value of the last item that names it, and is unknown if none does |
| CallbackRoutes.CallbackRoute.HandleStkCallback | app/callbacks/routes.py:82-105 | the replay check comes first; a rejected duplicate touches no transaction, an accepted payload is processed |
| Replay.InMemoryReplayProtection.CheckAndStore | app/callbacks/replay.py:52-70 | the decision and the table after it |
| Replay.InMemoryReplayProtection.PruneExpired | app/callbacks/replay.py:72-75 | exactly the expired keys are removed |
| Replay.TableRefinesHistory | app/callbacks/replay.py:55-70 | a key is accepted exactly when every earlier acceptance of it has expired, and pruning never changes a decision |
| Replay.AcceptancesAreApart | app/callbacks/replay.py:55-70 | two acceptances of a key are at least the first one's window apart |
| Replay.TableIsExactAfterAcceptance | app/callbacks/replay.py:64-65 | after an acceptance the table holds exactly the accepted keys that are alive |
| Replay.RedisDecidesAlike | app/callbacks/replay.py:92-113 | SET NX EX gives the same decision on every history |
| Replay.CanonicalIsInjective | app/callbacks/replay.py:121-130 | the canonical JSON text determines checkout id, result code and receipt number |
| Replay.KeyIdentifiesFingerprint | app/callbacks/replay.py:116-132 | unless the hash collides on their texts, payloads share a key exactly when those three texts agree |
| JsonText.QuotedIsInjective | app/callbacks/replay.py:126-130 | an escaped JSON string ends at its closing quote and determines its content |
| RateLimiter.InMemoryRateLimiter.Allow | app/rate_limit/limiter.py:54-91 | the whole decision and the stored window of the key; other keys are untouched |
| RateLimiter.AnyKeyUnderTwiceTheLimit | app/rate_limit/limiter.py:57-84 | whatever calls on whatever keys are mixed, a half-open interval of window length holds at most twice the limit, less one, of admitted calls on a key |
| RateLimiter.UnderTwiceTheLimit | app/rate_limit/limiter.py:57-84 | the same bound for the calls on one key |
| RateLimiter.BoundIsAttained | app/rate_limit/limiter.py:57-84 | for every limit and window some ordered calls attain that bound |
| RateLimiter.WindowsAreSpaced | app/rate_limit/limiter.py:61-63 | windows are opened at least a window length apart |
| RateLimiter.DenialMeansLimitReached | app/rate_limit/limiter.py:65-81 | a denial means the current window has admitted exactly the limit; at least that many calls are recent, and exactly that many if and only if the last admission before the window is not |
| RateLimiter.DenialAfterMoreThanLimit | app/rate_limit/limiter.py:61-81 | with two calls in ten seconds a denial can follow three recent admissions |
| RateLimiter.RetryAfterResetIsAdmitted | app/rate_limit/limiter.py:75-81 | without other calls, waiting `reset_after_seconds` plus one second gets a denied caller in |
| RateLimiter.EarlyRetryIsDenied | app/rate_limit/limiter.py:65-81 | a denied caller that comes back before `reset_after_seconds` is denied again |
| RateLimiter.ResetTellsWindowEnd | app/rate_limit/limiter.py:57-91 | before `reset_after_seconds` the same window runs on, and a second after it a new one is opened |
| RateLimiter.RemainingIsUsable | app/rate_limit/limiter.py:83-91 | `remaining` is the number of further calls that would be admitted at once, and 0 for a denied call |
| RateLimiter.AdmitsExactly | app/rate_limit/limiter.py:57-84 | a call is admitted exactly when no window is running or fewer than the limit have been admitted since it was opened |
| RateLimiter.KeysAreIndependent | app/rate_limit/limiter.py:58-84 | the window of a key depends on the calls on that key only |
| RateLimiter.RedisRateLimiter.Allow | app/rate_limit/limiter.py:108-155 | the decision and the counter after INCR, EXPIRE and TTL |
| RateLimiter.RedisResetIsRounded | app/rate_limit/limiter.py:111-130 | the Redis form tells the end of its window rounded to the nearest second |
| RateLimiter.FormsStayInStep | app/rate_limit/limiter.py:54-155 | both forms hold a running window with the same start, the memory count being the Redis count capped by the limit, or neither does |
| RateLimiter.MemoryAndRedisAgree | app/rate_limit/limiter.py:54-155 | both forms answer every call sequence with the same `allowed` and `remaining` |
| CircuitBreaker.DarajaCircuitBreaker.State | app/daraja/client.py:95-104 | reading the state may move an open breaker to half-open |
| CircuitBreaker.DarajaCircuitBreaker.BeforeCall | app/daraja/client.py:106-112 | when a call is rejected, and the state after asking |
| CircuitBreaker.DarajaCircuitBreaker.RecordFailure | app/daraja/client.py:123-131 | a failure counts and opens the breaker from the threshold on |
| CircuitBreaker.RejectsByHistory | app/daraja/client.py:76-131 | an enabled breaker rejects exactly when at least threshold failures have happened since the last success and the last one is less than the recovery time old, however often the state was read |
| CircuitBreaker.DisabledNeverRejects | app/daraja/client.py:109-127 | a disabled breaker never changes and never rejects |
| DarajaClient.RealDarajaClient.RequestWithRetries | app/daraja/client.py:572-610 | the loop hands on the first outcome that is not retryable or else the last one, sleeps once before each retry, and never reaches the raises after it |
| DarajaClient.DecisiveIsUnique | app/daraja/client.py:580-601 | there is exactly one such request, so the loop's result is determined |
| StatusReplies.HandedOnExactly | app/daraja/client.py:572-610 | the loop hands on the first outcome that is no timeout, failed connection or 502 to 504, or else the last of max(0, max_retries) + 1 tries |
| DarajaClient.RealDarajaClient.CheckTransactionStatus | app/daraja/client.py:316-438 | requests sent, breaker and reply of a status query for every outcome of its requests |
| StatusReplies.QueryTells | app/daraja/client.py:316-438 | requests sent and reply of an admitted query, from the two outcomes that the retry loop hands on: failures by kind and HTTP status, unusable tokens, answers by response code |
| StatusReplies.AcceptedExactly | app/daraja/client.py:411-438 | the query is accepted exactly when a usable token came back and the answer is 2xx with response code "0" |
| StatusReplies.TurnedAwayExactly | app/daraja/client.py:316-413 | after any queries the next one is turned away exactly when at least threshold queries have failed since the last that succeeded and the last failure is less than the recovery time old |
| StatusReplies.DisabledTurnsNobodyAway | app/daraja/client.py:106-131 | with a disabled breaker every query is let through |
| DarajaClient.UnheardExactly | app/daraja/client.py:439-459 | a query ends in an exception that the breaker never hears of exactly when its token answer is 2xx with JSON that is not an object |
| DarajaClient.OutageBound | app/daraja/client.py:316-413 | while admitted queries fail and recovery is not over, at most threshold queries of 2 * (max(0, max_retries) + 1) requests are sent, if no admitted one gets such an answer |
| DarajaClient.OutageLimitSpelledOut | app/daraja/client.py:76-131 | the limit of that bound is max(1, threshold) * 2 * (max(0, max_retries) + 1) |
| DarajaClient.OutageBoundExactly | app/daraja/client.py:316-459 | against a provider the bound holds, for all its scripts of answers and all calls, if and only if it never gives such an answer (or the client lacks settings to ask) |
| DarajaClient.OpenedAfterThreshold | app/daraja/client.py:76-131 | once an outage has opened the breaker, exactly threshold queries were admitted if and only if no admitted one got such an answer |
| DarajaClient.UnheardExceptionsAreUnbounded | app/daraja/client.py:455-456 | if every answer is of that kind, every query is admitted, for ever, and the breaker stays closed |
| TransactionRepository.InMemoryTransactionRepository.SavePendingTransaction | app/storage/repositories.py:109-141 | the new pending row goes to the end of the dictionary, or takes the place of its id |
| TransactionRepository.InMemoryTransactionRepository.UpdateTransactionStatus | app/storage/repositories.py:172-198 | not found, refused or updated, and the rows after it |
| TransactionRepository.UpdateInPlace | app/storage/repositories.py:183-198 | with distinct ids the first row with the checkout id is replaced where it stands |
| PostgresRepository.PostgresTransactionRepository.SavePendingTransaction | app/storage/repositories.py:239-288 | an insert that fits and clashes with no row is stored, any other leaves the table and reports its error |
| PostgresRepository.PostgresTransactionRepository.UpdateTransactionStatus | app/storage/repositories.py:328-361 | the selected row is replaced, or nothing changes; the constraints stay satisfied |
| PostgresRepository.RepositoriesAgree | app/storage/repositories.py:103-361 | after the same calls, with new ids and values that fit, both repositories hold the same rows and no constraint has fired |
| PostgresRepository.QueriesAgree | app/storage/repositories.py:399-415 | queries by checkout id give the same row, and the start-to-end-of-day range selects exactly the rows of that UTC date |
| PostgresRepository.KeySelectionIsFirstMatch | app/storage/repositories.py:313-326 | a query by idempotency key selects the row that the in-memory lookup finds first |
| TransactionStates.OnlyPendingMoves | app/transactions/state_machine.py:36-41 | exactly pending may move, to any terminal status, and nothing moves twice |
| Receipts.ReceiptService.GenerateReceipt | app/services/receipt_service.py:40-84 | the answer, and one event and one count exactly when a receipt is issued |
| Receipts.ReceiptService.GenerateReceiptByReference | app/services/receipt_service.py:86-115 | the same for a lookup by any of the three ids |
| Receipts.ReceiptRepeatsRow | app/receipts/generator.py:38-69 | a receipt is issued exactly for a completed row with a receipt number and repeats its ids, amount, phone and status |
| Receipts.CheckoutLookup | app/services/receipt_service.py:43-59 | by checkout id the first row with it is answered, and none without an id or a match |
| Receipts.ReceiptIsLogged | app/services/receipt_service.py:69-77 | exactly one event with the ids of the row is logged for a receipt, and none otherwise |
| Receipts.NothingFoundExactly | app/services/receipt_service.py:96-113 | a lookup answers not-found exactly when the reference is none of the three ids of any transaction |
| Receipts.RightReceiptExactly | app/services/receipt_service.py:96-115 | when the transaction found has a receipt, the answer is that receipt if and only if its checkout id is non-empty and no earlier transaction has it |
| Receipts.ReferenceFindsItsTransaction | app/services/receipt_service.py:96-115 | with unique, non-empty checkout ids every answer is that of the transaction found, which the reference names |
| Receipts.SharedCheckoutMisleads | app/services/receipt_service.py:115-115 | with a shared checkout id the receipt is the earlier transaction's |
| Receipts.EmptyCheckoutBlocks | app/services/receipt_service.py:115-115 | a transaction stored without a checkout id is found by its provider reference, but the answer is that a checkout id is required |
| Analytics.SummaryRevenue | app/analytics/service.py:33-50 | the reported revenue is the sum over all rows of what each completed row of the day adds |
| Analytics.SummaryCounts | app/analytics/service.py:34-49 | the total and each count of the summary are the numbers of the day's transactions, in all and by status |
| Reconciliation.ReconciliationService.RunReconciliation | app/reconciliation/service.py:58-76 | checked rows, findings in order and totals of a pass |
| Reconciliation.ReconciliationService.BuildSummary | app/reconciliation/service.py:184-217 | each counter counts its own kind of finding |
| Reconciliation.FindingsExactly | app/reconciliation/service.py:65-183 | the findings of a pass are exactly the warranted ones about its checked rows: which kind, by local status, provider status and age, with the row's ids |
| Reconciliation.RowFindingsExactly | app/reconciliation/service.py:78-183 | about one row, each kind at most once |
| Reconciliation.ReferenceIsAsked | app/reconciliation/service.py:139-139 | the provider is asked about its own id if there is a non-empty one, else about the checkout id |
| Reconciliation.TotalsCountKinds | app/reconciliation/service.py:190-217 | each counter is the number of findings of its kind |
| Reconciliation.TotalsSumUp | app/reconciliation/service.py:190-217 | the six counters sum to the number of findings |
| Reconciliation.FindingCountIsExact | app/reconciliation/service.py:65-164 | the number of findings is pending + stale pending + settled rows whose provider status is unknown or differs, and at most twice the checked rows |
| Reconciliation.NoFindingMeansAgreement | app/reconciliation/service.py:65-164 | there is no finding exactly when every checked row is settled and agrees with the provider |
| Decimal.DecimalRoundTrip | app/services/payment_service.py:403-403 | the decimal text of an amount reads back as the amount |

## Left out

- `initiate_stk_push` of the Daraja client (app/daraja/client.py:209-314): its breaker calls are those of the status query without a retry loop around the push; its token step also lets a `ValueError` escape unrecorded.
- Interleavings inside one service call: the services take no locks; the model takes each call as one step.
- TransactionRepository.InMemoryTransactionRepository.SavePendingTransaction: the repository reads the clock twice for a new row, for its creation and its update time; the model uses one reading for both, since nothing reads the update time.
- The checks for a missing phone or amount after the policy (app/services/payment_service.py:88, 149): the policy has already blocked such a push, so the branches are unreachable.
- An approval service without an audit logger (app/approvals/service.py:328): the model always has one.
- Reason texts, log lines, correlation ids and response descriptions; audit events keep their kind, ids and amounts.
- Redis outages and rounding: commands always succeed, a key is gone exactly when it expires, and the commands of one call see one time. EX windows below one second, which Redis refuses, are outside `RedisDecidesAlike` and the limiter's agreement.
- Storage outages: the lifecycle runs over the in-memory repository. Executions over the table, with its refusals, are modelled in `StoredLedger`; reads from it always succeed.
- Callback values beyond null, booleans, integers, texts, lists and objects: floats are not modelled, and `int()` of a text reads an optional sign and ASCII digits only, without surrounding blanks, underscores or other digit characters.
- Phone normalisation keeps ASCII digits only; `isdigit` also accepts other Unicode digits.
- Lone surrogates in texts, which a character here cannot hold, are outside the JSON text lemma.
- Payload entries of an approval other than the five the code reads; a boolean amount counts as an integer.
- `list_recent_transactions`, `get_failed_transactions` and the transaction status service: reads that add no hard property.
- Operator authentication, tool policy, callback secret and source verification, configuration checks, HTTP and MCP plumbing, the console and the frontend.
