# A verified model of the ORBI gateway

This project models the gateway's durable request queue, the token budgets it charges, and the
services around them, and proves what they guarantee over whole runs and under every interleaving
of their transactions. `dafny verify dfyconfig.toml` checks it.

## What is modelled

**The queue and its ledger.** `Protocol` is the queue as a state machine over four tables (projects,
API keys, requests, usage records). A step is one whole transaction: a submission, a replay, a claim,
a committed result, a reported error, a recovery pass, a key revocation, or the passing of time.
`Invariants` holds what every reachable state satisfies and shows that each step keeps it; `Runs`,
`Accounting`, `Idempotency` and `ClaimOrder` draw the consequences for whole runs, and `Promises` and
`Delivery` say what clients, workers and operators can rely on in the rows' own numbers. Most of the
invariants equate a counter with a sum over all requests (`Sums`).

**The same operations as they run.** `Database` is the tables as one mutable object. `BudgetService`,
`QueueService`, `Recovery` and `ChatService` are the services as classes that update it in the order
the source does: the recovery pass is three bulk updates followed by a loop over the returned rows.
Every method that changes something is proved to be one step of the protocol, and `Gateway` wires
them into endpoints that need no assumption beyond a valid database and a clock that does not run
backwards.

**Row locks.** `Interleaving` cuts each transaction into the moves between which others can come:
taking one row lock after another, writing, committing or aborting. Values are computed from what
was read when the lock was taken. `Isolation` shows that a transaction is undisturbed by whatever
happens to rows it does not hold, and `Concurrency` that the committed tables of any execution are a
run of the protocol. `Drain` is what an interleaved recovery pass achieves. A deadlock victim is an
abort.

**Smaller cores.** `WorkerIdentity` (enrollment, rotation and revocation as interleaved
transactions) and `WorkerAccess` (identity and queue together), `KeyLimits` (the daily request
limit), `CircuitBreaker`, `RateLimit`, `Substitution` and `Redaction` (the log redactor),
`Credentials` (printing and parsing of keys and tokens) and `Reservation` (the size of a
reservation).

Dates are real civil dates computed from a microsecond clock (`Calendar`). Random values, password
hashing, JWT verification and the minute window's verdict enter as parameters, fresh identifiers as
preconditions.

## What the proofs say about the code

- The `max(0, ...)` in the reconciliation never changes a value, not even in the middle of a recovery
  pass, and the ledger is exact across day and month changes, given a clock that does not run
  backwards.
- The token limits are not hard: `Accounting.LimitCanBePassed` gives a run that passes one, because a
  worker's report is not compared with the reservation. The excess is never more than what workers
  reported beyond their reservations, and `Accounting.LimitsHoldExactly` says exactly which runs stay
  within the limits.
- The documentation (`docs/phase-1-decisions.md`, third decision) names the unique constraint as what
  enforces idempotency. In the code it is never met: the API-key row lock, held from authentication
  to commit, already makes the look-up and the insert one unit, so the `idempotency_conflict` reply
  is unreachable.
- A result is accepted from the worker that holds the request, whether or not its lease has run out:
  only a recovery pass takes the request away. The accepted result is therefore tied to the last
  claim of the row, not to an attempt.
- Revoking a worker stops its next call, not the ones that have already authenticated: each of those can
  still commit one claim, result or error (`WorkerAccess`), although the endpoint's comment
  (`apps/gateway/src/orbi_gateway/routes/admin.py:152`) says that it suspends further claims.
- A circuit-breaker key can expire in the middle of a call. `CircuitBreaker.TornRead` leaves a half-open
  circuit without its count and opening time, and `CircuitBreaker.FailureCanBeLost` loses the failure
  that opens a circuit; the history theorems say exactly when this happens.
- A rate-limit call stopped between its two commands leaves a counter without an expiry, although the
  class comment (`apps/gateway/src/orbi_gateway/services/rate_limit.py:9`) promises none; an increment
  that arrives two minutes late restarts a counter. Both have their exact conditions.
- A request whose queue time is exactly over can be neither claimed nor expired in that microsecond;
  both comparisons are strict.
- A recovery pass can requeue a row and expire it at once. It then counts as retried, and its
  reservation is returned once.

## Model

| member | source | states |
|---|---|---|
| Calendar.TodayNeverGoesBack | apps/gateway/src/orbi_gateway/services/budget.py:45-46 | a later instant never has an earlier UTC date, the fact on which every period reset relies |
| Calendar.MonthsKeepOrder | apps/gateway/src/orbi_gateway/services/budget.py:46-52 | dates in order stay in order when cut to their months, so a month once left is never entered again |
| Calendar.TodayNumber | apps/gateway/src/orbi_gateway/services/budget.py:45-46 | the UTC date of an instant is the proleptic Gregorian date as many days after 1970-01-01 as whole days have passed, every fourth year leap but three in four hundred |
| BudgetRules.EnforceBudget | apps/gateway/src/orbi_gateway/services/budget.py:25-32 | passes exactly the positive amounts that fit both remaining limits, and blames the month only when the day would have had room |
| BudgetService.Budgets.Reserve | apps/gateway/src/orbi_gateway/services/budget.py:38-64 | rolls the project over, charges it exactly when both limits allow, and a refusal carries the failing check and leaves only the rollover behind |
| BudgetService.Budgets.Reconcile | apps/gateway/src/orbi_gateway/services/budget.py:66-84 | moves each counter by actual minus reserved, only while its period is the one charged, and touches no other project |
| BudgetService.Budgets.Release | apps/gateway/src/orbi_gateway/services/budget.py:86-103 | gives the whole reservation back to the periods still current |
| Protocol.RecoveredIsThreeUpdates | apps/gateway/src/orbi_gateway/services/queue.py:168-222 | the three guarded updates in sequence take each row where one four-way transition takes it; a requeued row past its queue time ends expired |
| Invariants.RollOverKeepsBalance | apps/gateway/src/orbi_gateway/services/budget.py:45-52 | resetting a counter is exact, because no request can have been charged to the period that opens |
| Invariants.ClampNeverFires | apps/gateway/src/orbi_gateway/services/budget.py:80-84 | in every state that satisfies the invariants, settling any open request leaves both counters at least its actual tokens, so the clamp changes nothing |
| Invariants.SettleKeepsLedger | apps/gateway/src/orbi_gateway/services/budget.py:66-84 | replacing a row and moving its project's counters keeps every project's counters equal to the sum of its rows, and within the limits plus overruns |
| Invariants.GiveBackKeepsBalance | apps/gateway/src/orbi_gateway/services/queue.py:223-230 | what a recovery pass gives back to a project is never more than it had counted, and leaves the counters equal to the sum of the rows |
| Invariants.CommitKeepsInv | apps/gateway/src/orbi_gateway/services/queue.py:61-119 | accepting a result keeps the ledger, the usage table, the key totals and all other invariants together |
| Invariants.RecoverKeepsInv | apps/gateway/src/orbi_gateway/services/queue.py:165-231 | so does a recovery pass over any set of rows, at any time up to the clock |
| Invariants.StepKeepsInv | apps/gateway/src/orbi_gateway/services/queue.py:19-231 | every step of the protocol keeps every invariant |
| Runs.ReachableInv | apps/gateway/src/orbi_gateway/services/queue.py:19-231 | every state of every run satisfies every invariant |
| Runs.RunEvolves | apps/gateway/src/orbi_gateway/services/queue.py:43-45 | between any two states of a run a request keeps its terms, is unchanged once terminal, and every change has used up some of 2 x (retries left) + rank |
| Runs.ClaimsCounted | apps/gateway/src/orbi_gateway/services/queue.py:43-45 | a request was claimed exactly once for each retry it used, plus once if it is neither queued nor expired; never more than max_retries + 1 times |
| Runs.StatusChangesBounded | apps/gateway/src/orbi_gateway/services/queue.py:147-155 | a request changes status at most 2 x max_retries + 2 times in any run |
| Runs.EffectiveStepsBounded | apps/gateway/src/orbi_gateway/services/queue.py:147-214 | in any run the steps that change a row number at most 2 x max_retries + 2 for each submission, so finitely many submissions allow finitely many of them |
| Runs.CommitsCounted | apps/gateway/src/orbi_gateway/services/queue.py:61-88 | exactly one result was ever accepted for a completed request, none for any other |
| Runs.CommittedOnce | apps/gateway/src/orbi_gateway/models/entities.py:151-157 | a request is completed exactly when it has a result, exactly when one usage record names it, and that record repeats its tokens and its worker |
| Runs.ResultIsFinal | apps/gateway/src/orbi_gateway/services/queue.py:61-88 | once there is a result, the row, the record, and its being the only record stay as they are for ever |
| Runs.HeldSinceClaim | apps/gateway/src/orbi_gateway/services/queue.py:40-46 | a request in a worker's hands was claimed by that worker and not touched since |
| Runs.ResultFromHolder | apps/gateway/src/orbi_gateway/services/queue.py:61-68 | every accepted result comes from the worker whose claim is the last thing that happened to the row |
| Accounting.CountersAreExact | apps/gateway/src/orbi_gateway/services/budget.py:45-84 | in every reachable state both counters equal the sum over the period's requests of the reservation while open, actual tokens once completed, nothing once failed or expired |
| Accounting.OvershootIsOverrun | apps/gateway/src/orbi_gateway/services/budget.py:53-63 | period usage never exceeds its limit by more than what the period's completed requests reported beyond their reservations |
| Accounting.LimitsAreHard | apps/gateway/src/orbi_gateway/services/budget.py:25-32 | if no result accepted for a project reported more than was reserved, neither limit is ever exceeded in the run |
| Accounting.CommitWithinLimit | apps/gateway/src/orbi_gateway/services/budget.py:80-84 | an accepted result leaves its project within both limits if and only if the report, in place of the reservation, fits each period not yet over |
| Accounting.StepWithin | apps/gateway/src/orbi_gateway/services/budget.py:25-84 | no other step takes a project over a limit: a project within its limits stays so if and only if the step is not a result for it that does not fit |
| Accounting.LimitsHoldExactly | apps/gateway/src/orbi_gateway/services/budget.py:25-84 | over every run, a project is within both limits in all states up to a point if and only if every result accepted for it before then fitted its open periods |
| Accounting.LimitCanBePassed | apps/gateway/src/orbi_gateway/services/queue.py:89-97 | a concrete run of three steps after which a project has used a hundred tokens under a limit of ten |
| Accounting.DayWithinMonth | apps/gateway/src/orbi_gateway/services/budget.py:45-63 | in every reachable state a project's daily usage is at most its monthly usage |
| Accounting.DrainedMatchesUsage | apps/gateway/src/orbi_gateway/services/queue.py:106-118 | once all of a project's requests are terminal, its counters equal the tokens summed over that period's usage records |
| Accounting.PassEnds | apps/gateway/src/orbi_gateway/services/queue.py:165-231 | one recovery pass at or after a request's queue expiry plus the lease length ends it, whatever its history |
| Accounting.PassDrains | apps/gateway/src/orbi_gateway/services/queue.py:165-231 | such a pass drains a project whose requests are all that old and leaves its counters equal to its usage records |
| Drain.PassEndsOverdue | apps/gateway/src/orbi_gateway/services/queue.py:165-231 | an interleaved pass, whose updates visit their own snapshots row by row, has ended by its commit every request that was overdue by the lease length when it began, unless another transaction committed a change to it meanwhile |
| Drain.PassEndsUnlocked | apps/gateway/src/orbi_gateway/services/queue.py:165-231 | in particular it ends every overdue request that no other transaction locks |
| Drain.PassLeavesUsage | apps/gateway/src/orbi_gateway/services/queue.py:165-231 | if those were all the open requests of a project, its counters equal its usage records once the pass has committed |
| Idempotency.OneRequest | apps/gateway/src/orbi_gateway/models/entities.py:119-120 | over all states of a run, one API key and idempotency key name at most one request |
| Idempotency.OneReservation | apps/gateway/src/orbi_gateway/routes/chat.py:36-67 | exactly one reservation was ever made for the pair if a request for it exists, none otherwise |
| Idempotency.SameResult | apps/gateway/src/orbi_gateway/routes/chat.py:45-48 | every reply that carries a result for the pair, whenever and however it is read, carries the same result |
| Idempotency.RevokedKeyAddsNothing | apps/gateway/src/orbi_gateway/routes/admin.py:130-143 | after a key's revocation no request is ever added for it |
| Promises.RequestAsOrdered | apps/gateway/src/orbi_gateway/routes/chat.py:60-83 | in every reachable state a request is what one submission ordered, for ever: that order's model, payload, capabilities and tokens, priority 5, three retries, five minutes from its insertion in the queue |
| Promises.AdmittedKeyIsGood | apps/gateway/src/orbi_gateway/dependencies.py:38-59 | whoever is admitted holds a key of an active project that is not revoked, not expired at the clock reading, and used on that UTC day less often than its limit |
| Promises.ClaimTakesOldest | apps/gateway/src/orbi_gateway/services/queue.py:23-40 | a claim takes a queued request whose time is not over and that the worker serves; no other such request that was not locked has a smaller priority number, or the same and an earlier creation |
| Promises.LeaseHonoured | apps/gateway/src/orbi_gateway/services/queue.py:43-45 | over any run a claimed request stays assigned to its worker, with a lease end of the claim's reading plus the lease length, until that worker reports on it or a recovery pass reads a clock beyond the lease |
| Promises.LeaseEnds | apps/gateway/src/orbi_gateway/services/queue.py:168-205 | such a later pass over the row takes it from the worker: failed if three retries are used, otherwise charged one and expired or queued |
| Promises.PassInNumbers | apps/gateway/src/orbi_gateway/services/queue.py:168-222 | what a pass does to each row by its lease end, queue time and retries; every other row stays as it was |
| Promises.QueueTimeHonoured | apps/gateway/src/orbi_gateway/services/queue.py:206-214 | over any run a queued request waits unchanged until it is claimed or a pass reads a clock beyond its queue time |
| Promises.ResultAsReported | apps/gateway/src/orbi_gateway/services/queue.py:61-88 | over any run, whatever result, token counts, completion time and worker a request carries are those of one result step for it |
| Promises.RecordAsReported | apps/gateway/src/orbi_gateway/services/queue.py:106-118 | every usage record carries the request, worker, provider, token counts and latency of the result step that made it |
| Promises.ReplyAsReported | apps/gateway/src/orbi_gateway/routes/chat.py:45-48 | what a client is told about a completed request is the result a worker reported for it; about any other, its status |
| Promises.ErrorsCount | apps/gateway/src/orbi_gateway/services/queue.py:147-163 | an error that the worker calls retryable, with fewer than three retries used, queues the request again; any other fails it for good, in every later state |
| Promises.RevocationStamped | apps/gateway/src/orbi_gateway/routes/admin.py:142-143 | a revocation is stamped with the clock reading of the first request for it |
| Delivery.DeliveredAsReported | apps/gateway/src/orbi_gateway/routes/chat.py:96-105 | whatever committed states its polls read, the client that waits receives only a result a worker reported for its request, exactly as reported |
| Delivery.FailureIsFinal | apps/gateway/src/orbi_gateway/routes/chat.py:106-109 | it is told of a failure only if its request has ended for good without a result |
| Delivery.NeverDisappears | apps/gateway/src/orbi_gateway/routes/chat.py:102-103 | no wait ever ends with a request that disappeared |
| Delivery.TimedOutOnItsWay | apps/gateway/src/orbi_gateway/routes/chat.py:99-116 | a wait that times out had found its request on its way, without a result, at every poll |
| Delivery.EndedIsNoticed | apps/gateway/src/orbi_gateway/routes/chat.py:104-109 | no wait times out if one of its polls found the request completed with a result, failed, cancelled or expired |
| KeyLimits.DailyLimitHolds | apps/gateway/src/orbi_gateway/dependencies.py:53-62 | over any run, the committed submissions and authenticated calls of a key with a clock reading on one UTC day number at most its daily request limit |
| KeyLimits.RowTallies | apps/gateway/src/orbi_gateway/dependencies.py:53-62 | the number admitted on a day is the row's count while the row is on that day, zero before it, and within the limit once it is over |
| ClaimOrder.FirstExists | apps/gateway/src/orbi_gateway/services/queue.py:36 | any non-empty set of requests has one that none of them precedes: no other has a smaller priority number, or the same and an earlier creation |
| ClaimOrder.ServedInOrder | apps/gateway/src/orbi_gateway/services/queue.py:23-46 | claims repeated at one instant until none is left serve exactly the queued, unexpired requests the worker can serve, each once, by priority number and by creation within it |
| QueueService.Queue.ClaimNext | apps/gateway/src/orbi_gateway/services/queue.py:19-46 | returns nothing exactly when no queued, unexpired, unlocked request fits the worker, and otherwise makes the protocol's claim of one such that no other has a smaller priority number, or the same and an earlier creation |
| QueueService.Queue.CommitResult | apps/gateway/src/orbi_gateway/services/queue.py:48-119 | accepts exactly when the request is assigned to the worker, has no result and is in its hands, as one protocol step on all four tables; otherwise changes nothing (what is stored: Promises.ResultAsReported, Promises.RecordAsReported) |
| QueueService.Queue.RecordError | apps/gateway/src/orbi_gateway/services/queue.py:121-163 | accepts under the same condition, as the protocol's error step; otherwise changes nothing (what the step does: Promises.ErrorsCount) |
| Recovery.ReturnedOnce | apps/gateway/src/orbi_gateway/services/queue.py:183-222 | the rows returned by the second and third updates are exactly those the pass ends, and none is returned twice |
| Recovery.OrderDoesNotMatter | apps/gateway/src/orbi_gateway/services/queue.py:223-230 | releasing rows one after another, clamp included, gives each project the sum of its rows whatever their order |
| Recovery.ReleasesNeverClamped | apps/gateway/src/orbi_gateway/services/queue.py:223-230 | before each release of a pass, in any order, the project still counts at least what the row had reserved in every period that matches, so no release meets the clamp |
| Recovery.PassIsRecover | apps/gateway/src/orbi_gateway/services/queue.py:165-231 | updates and releases together are the protocol's single recovery step |
| Recovery.LeaseRecovery.UpdateRows | apps/gateway/src/orbi_gateway/services/queue.py:168-222 | after the three bulk updates every row is where the single transition takes it (in numbers: Promises.PassInNumbers), the first returned set is the rows charged a retry, and the other two are disjoint and cover the ended rows |
| Recovery.LeaseRecovery.ReleaseRows | apps/gateway/src/orbi_gateway/services/queue.py:223-230 | the loop releases each listed row once, in order |
| Recovery.LeaseRecovery.RecoverExpiredLeases | apps/gateway/src/orbi_gateway/services/queue.py:165-231 | the whole pass is the protocol's recovery step over all requests and returns how many rows it charged one retry |
| Reservation.ReservedTokens | apps/gateway/src/orbi_gateway/routes/chat.py:60-61 | the accumulated size is the UTF-8 byte sum of the messages plus the completion ceiling |
| Reservation.ReservationFits | apps/gateway/src/orbi_gateway/schemas/api.py:12-19 | every schema-valid request reserves between 2 and 102,404,096 tokens, within a 32-bit column |
| Reservation.RangeIsTight | apps/gateway/src/orbi_gateway/schemas/api.py:12-19 | both ends of that range are reached |
| Reservation.DecodeEncode | apps/gateway/src/orbi_gateway/routes/chat.py:60 | the bytes counted are UTF-8 (section 3 of RFC 3629): they decode to the code points of the text |
| ChatService.Chat.RequireApiKey | apps/gateway/src/orbi_gateway/dependencies.py:38-64 | admits exactly the active keys of active projects with room in their day, counts the request on today's date, and names the first failing check otherwise |
| ChatService.Chat.PlaceOrder | apps/gateway/src/orbi_gateway/routes/chat.py:36-94 | replays the existing request, refuses for a missing model or a named budget limit, never for a non-positive size, or inserts the request with its reservation |
| ChatService.Chat.Complete | apps/gateway/src/orbi_gateway/routes/chat.py:29-94 | one call is one transaction: a refusal is given exactly when one applies, is the first that applies, and leaves no trace; a replay only counts the request; an acceptance is one submission step |
| ChatService.Chat.AwaitResult | apps/gateway/src/orbi_gateway/routes/chat.py:96-116 | the first poll that finds the row gone, completed with a result, or failed, cancelled or expired decides the answer, and the wait times out exactly when none does |
| ChatService.RefusalInNumbers | apps/gateway/src/orbi_gateway/routes/chat.py:29-67 | for each refusal, the exact condition on the key row, the call, the requests already there and the project row under which a call receives it |
| ChatService.ReplayInNumbers | apps/gateway/src/orbi_gateway/routes/chat.py:36-48 | a replay answers with the request of the same key and idempotency key, its result once completed and its status until then, and counts one more call of the key on that UTC day |
| ChatService.AcceptanceInNumbers | apps/gateway/src/orbi_gateway/routes/chat.py:50-84 | an acceptance inserts the model, payload, capabilities and size the call and its alias ask for, and charges that size to the UTC day and month of the key's project, beginning a new period where the stored one is over |
| Gateway.Endpoints.CreateChatCompletion | apps/gateway/src/orbi_gateway/routes/chat.py:29-94 | on any valid database the call keeps it valid and is a replay, a submission, or the first refusal that applies |
| Gateway.Endpoints.PullRequest | apps/gateway/src/orbi_gateway/routes/internal/workers.py:98-120 | hands out a request exactly when the worker is online and one fits it, and then one with no smaller priority number and no earlier creation before it, keeping the database valid |
| Gateway.Endpoints.SubmitResult | apps/gateway/src/orbi_gateway/routes/internal/workers.py:123-145 | keeps the database valid and accepts exactly from the worker that holds the request, as one result step |
| Gateway.Endpoints.SubmitError | apps/gateway/src/orbi_gateway/routes/internal/workers.py:165-186 | keeps the database valid and accepts exactly from the worker that holds the request, as one error step |
| Gateway.Endpoints.RecoverLeases | apps/gateway/src/orbi_gateway/main.py:34-42 | one turn of the maintenance loop keeps the database valid, is one recovery step, and reports how many rows were charged a retry |
| Gateway.Endpoints.RevokeApiKey | apps/gateway/src/orbi_gateway/routes/admin.py:130-143 | revokes a known key once and keeps the first revocation time |
| Isolation.TxnAgrees | apps/gateway/src/orbi_gateway/database.py:17-27 | everything an open transaction relies on survives any change to rows it does not hold |
| Isolation.PublishAgrees | apps/gateway/src/orbi_gateway/database.py:17-27 | a commit changes nothing that another transaction holds |
| Isolation.CommitIsStep | apps/gateway/src/orbi_gateway/database.py:17-27 | publishing a finished transaction's writes, computed from earlier reads, is one enabled protocol step on the tables as they are at the commit |
| Concurrency.MoveKeepsSystem | apps/gateway/src/orbi_gateway/database.py:17-27 | every move of every transaction keeps the committed invariants, lock exclusivity and each open transaction's work consistent |
| Concurrency.MoveRefines | apps/gateway/src/orbi_gateway/database.py:17-27 | a move changes the committed tables by one protocol step or not at all |
| Concurrency.ExecutionRefines | apps/gateway/src/orbi_gateway/services/budget.py:35-64 | the committed tables of any execution pass, in order, through exactly the states of a protocol run |
| Concurrency.NoDoubleClaim | apps/gateway/src/orbi_gateway/services/queue.py:25-46 | no two open transactions ever work on the same request |
| Concurrency.NoDoubleReservation | apps/gateway/src/orbi_gateway/services/budget.py:41-64 | two open reservations, inserted or not, are on different projects and keys, and each still fits the committed counters |
| Concurrency.InsertNeverConflicts | apps/gateway/src/orbi_gateway/routes/chat.py:84-90 | when a submission is about to insert, neither a committed nor a pending row has its key pair, so the conflict reply is unreachable |
| WorkerIdentity.MoveKeepsSystem | apps/gateway/src/orbi_gateway/routes/internal/workers.py:45-76 | registrations, renewals and revocations, interleaved at their locks, keep the registry consistent and move every worker row only forward |
| WorkerIdentity.OneWorkerPerToken | apps/gateway/src/orbi_gateway/routes/internal/workers.py:45-76 | an enrollment token never makes two workers |
| WorkerIdentity.EnrolledInTime | apps/gateway/src/orbi_gateway/routes/internal/workers.py:45-62 | in every reachable state a worker goes back to a registration that found its token unused and unexpired |
| WorkerIdentity.OneIdentityPerJti | apps/gateway/src/orbi_gateway/dependencies.py:96-100 | at any time a worker is authenticated by at most one JTI and a JTI authenticates at most one worker |
| WorkerIdentity.RevocationIsFinal | apps/gateway/src/orbi_gateway/routes/admin.py:153-160 | after a committed revocation no JTI authenticates the worker, even one a concurrent renewal stores later |
| WorkerIdentity.RotationIsFinal | apps/gateway/src/orbi_gateway/routes/internal/workers.py:148-162 | a JTI that has stopped authenticating a worker never does again |
| WorkerIdentity.Identities.RegisterWorker | apps/gateway/src/orbi_gateway/routes/internal/workers.py:45-76 | accepts exactly an unused, unexpired token with the right secret, which is then used up and whose worker authenticates |
| WorkerIdentity.Identities.RequireWorker | apps/gateway/src/orbi_gateway/dependencies.py:96-102 | accepts exactly the current JTI of a worker that is not revoked |
| WorkerIdentity.Identities.RenewToken | apps/gateway/src/orbi_gateway/routes/internal/workers.py:148-162 | the new JTI authenticates and the presented one no longer does |
| WorkerIdentity.Identities.RevokeWorker | apps/gateway/src/orbi_gateway/routes/admin.py:146-160 | no JTI authenticates the worker afterwards, and the first revocation time is kept |
| WorkerAccess.ActKeepsWorld | apps/gateway/src/orbi_gateway/dependencies.py:79-102 | registry and queue, joined by the calls that have authenticated and not ended, keep all their invariants, and every open worker transaction belongs to such a call of its worker |
| WorkerAccess.CommitsAfterRevocation | apps/gateway/src/orbi_gateway/routes/admin.py:146-160 | from a committed revocation on, the claims, results and errors a worker still commits, together with its calls still open, number at most the calls open at the revocation |
| WorkerAccess.LateCommitWasOpen | apps/gateway/src/orbi_gateway/routes/admin.py:146-160 | each of them belongs to a call that was already open when the revocation committed |
| WorkerAccess.NoLoginAfterRevocation | apps/gateway/src/orbi_gateway/dependencies.py:96-100 | no call of the worker authenticates after the revocation, with any JTI |
| WorkerAccess.OpenCallStillPulls | apps/gateway/src/orbi_gateway/routes/internal/workers.py:98-120 | a call still open can claim a request whatever the registry says by then |
| WorkerAccess.OpenCallStillCommits | apps/gateway/src/orbi_gateway/routes/internal/workers.py:98-120 | and its claim commits, handing the request to the worker |
| CircuitBreaker.Breaker.Get | apps/gateway/src/orbi_gateway/services/circuit_breaker.py:37-54 | reports the fields it read, half open once the cooldown is over; the write and the expiry that follow act on whatever the key has become by then |
| CircuitBreaker.Breaker.RecordFailure | apps/gateway/src/orbi_gateway/services/circuit_breaker.py:56-68 | reports and writes one more failure, opening the circuit at the threshold, each command acting on whatever the key has become by then |
| CircuitBreaker.Breaker.RecordSuccess | apps/gateway/src/orbi_gateway/services/circuit_breaker.py:70-73 | forgets everything about the worker |
| CircuitBreaker.HistoryOk | apps/gateway/src/orbi_gateway/services/circuit_breaker.py:37-73 | the stored circuit is in order after every call of a time-ordered history (closed: 1 to threshold - 1 failures, no opening time; otherwise at least the threshold, an opening time, no expiry within three cooldowns of it) if and only if no half-opening read in it finds the key expired when it writes |
| CircuitBreaker.CallKeepsOk | apps/gateway/src/orbi_gateway/services/circuit_breaker.py:37-73 | a single call keeps a circuit in order if and only if it is not such a read; a failure that finds the key gone writes every field anew |
| CircuitBreaker.HistoryShape | apps/gateway/src/orbi_gateway/services/circuit_breaker.py:37-73 | whatever the timing, the only other thing a history can leave is a half-open circuit without an opening time and below the threshold |
| CircuitBreaker.TornRead | apps/gateway/src/orbi_gateway/services/circuit_breaker.py:46-53 | a concrete history that leaves one: read before the expiry, half-opened after it, and one more failure does not reopen it |
| CircuitBreaker.FailureStored | apps/gateway/src/orbi_gateway/services/circuit_breaker.py:62-67 | a failure is stored as reported unless the key expires between its write and its new expiry, and is lost with the key exactly then |
| CircuitBreaker.FailureCanBeLost | apps/gateway/src/orbi_gateway/services/circuit_breaker.py:66-67 | a concrete history in which that happens to the failure that opens the circuit |
| CircuitBreaker.OpenUntilCooled | apps/gateway/src/orbi_gateway/services/circuit_breaker.py:46-53 | after any history, an open circuit reads as open if and only if its cooldown is not over; expiry cannot end it earlier |
| CircuitBreaker.StaysOpen | apps/gateway/src/orbi_gateway/services/circuit_breaker.py:56-68 | without a success, calls within the cooldown leave the circuit open after each of them, and its opening no earlier, if and only if no failure among them is lost to an expiry |
| CircuitBreaker.HalfOpenReopens | apps/gateway/src/orbi_gateway/services/circuit_breaker.py:59-61 | a stored failure that finds the circuit half open opens it from that moment if and only if the circuit was in order or had one failure to go |
| CircuitBreaker.CountsFailures | apps/gateway/src/orbi_gateway/services/circuit_breaker.py:56-73 | while no command meets an expiry, after every call the stored count is the number of failures since the last success, the circuit is in order, and it is closed exactly below the threshold |
| CircuitBreaker.FrequentCallsNeverExpire | apps/gateway/src/orbi_gateway/services/circuit_breaker.py:67 | calls that always end within three cooldowns of the last failure never meet an expiry |
| RateLimit.WindowIsMinute | apps/gateway/src/orbi_gateway/services/rate_limit.py:15-17 | two instants share a counter name exactly when they lie in the same UTC minute |
| RateLimit.RateLimiter.AllowMinute | apps/gateway/src/orbi_gateway/services/rate_limit.py:14-21 | in any state the call moves its own counter and no other as stated; where the counts are exact they stay so, and the call is allowed if and only if fewer calls than the limit came before it in its minute, precisely when its increment does not restart a counter already in use; arriving within two minutes of the start of its minute is enough |
| RateLimit.RateLimiter.Increment | apps/gateway/src/orbi_gateway/services/rate_limit.py:18 | in any state the counter moves as stated; where the counts are exact, the count returned is one more than the calls of that key and minute so far if and only if there were none or the counter is still alive, also between another call's two commands; it is alive for any arrival within two minutes of the start of the minute |
| RateLimit.CountedExactly | apps/gateway/src/orbi_gateway/services/rate_limit.py:18-20 | over any sequence of calls on one counter, every call is told its own number if and only if no call but the first makes the counter |
| RateLimit.CountedInTime | apps/gateway/src/orbi_gateway/services/rate_limit.py:18-20 | in terms of the arrivals alone: every call is told its own number if and only if the first was stopped or none arrives when the two minutes the first one set are over |
| RateLimit.AllowedInTime | apps/gateway/src/orbi_gateway/services/rate_limit.py:14-21 | over any sequence of calls that each reach the store within the minute of their clock reading, exactly min(calls, limit) calls of a key are allowed in each minute: the expiry never resets a counter inside its window |
| RateLimit.LateCallRestarts | apps/gateway/src/orbi_gateway/services/rate_limit.py:18-20 | two calls of one minute, the second arriving two minutes later, are both told they are the first |
| RateLimit.ImmortalExactly | apps/gateway/src/orbi_gateway/services/rate_limit.py:9-20 | a counter is left without an expiry if and only if a call that made it was stopped between its two commands, whatever calls follow |
| RateLimit.StoppedCallLeavesCounter | apps/gateway/src/orbi_gateway/services/rate_limit.py:18-20 | one stopped call leaves a counter that no later call gives an expiry |
| RateLimit.AllowedPerMinute | apps/gateway/src/orbi_gateway/services/rate_limit.py:14-21 | in each minute exactly min(calls, limit) calls are allowed |
| RateLimit.AllowedPerSixtySeconds | apps/gateway/src/orbi_gateway/services/rate_limit.py:14-21 | at most twice the limit is allowed in any sixty seconds |
| RateLimit.BoundIsReached | apps/gateway/src/orbi_gateway/services/rate_limit.py:14-21 | any a and b up to the limit can both be allowed around one minute boundary within sixty seconds, so twice the limit is reached |
| Redaction.EngineMatch | apps/gateway/src/orbi_gateway/logging.py:10 | the match a backtracking engine prefers is prefix plus longest run; the pattern's optional tail never changes it |
| Redaction.RedactIsClean | apps/gateway/src/orbi_gateway/logging.py:19-20 | no position of a redacted text begins a match, not even one spanning kept text and replacement |
| Redaction.RedactReplacesTokens | apps/gateway/src/orbi_gateway/logging.py:19-20 | a text is the redaction of another if and only if it is that text with the tokens of its left-to-right reading replaced and every other character kept |
| Redaction.MatchIsToken | apps/gateway/src/orbi_gateway/logging.py:10 | cut out, a match is a token by itself, and the character after it could not have made it longer |
| Redaction.Redaction | apps/gateway/src/orbi_gateway/logging.py:13-27 | for every nested event: no reachable text keeps a match, shape, keys and all other text are kept, and redacting twice is redacting once |
| Redaction.NoTokenLeft | apps/gateway/src/orbi_gateway/logging.py:13-27 | in any text every occurrence of a token lies inside one replaced piece, so no part of it is kept, and no copy of it stands anywhere in the output |
| Substitution.ReadsSub | apps/gateway/src/orbi_gateway/logging.py:20 | for any matcher, every reading of a text into matches and single characters renders to the same substitution |
| Substitution.PiecesOfText | apps/gateway/src/orbi_gateway/logging.py:20 | such a reading is made of the text itself: joined again, its pieces are the input |
| Credentials.DecodeEncode | apps/gateway/src/orbi_gateway/services/api_keys.py:42-43 | unpadded base64url (section 5 of RFC 4648) loses nothing for any byte string, so different random bytes print differently |
| Credentials.EncodeVectors | apps/gateway/src/orbi_gateway/services/api_keys.py:42-43 | the encoding meets the test vectors of section 10 of RFC 4648, without padding |
| Credentials.Alphabet | apps/gateway/src/orbi_gateway/services/api_keys.py:42-43 | the 64 digits are capitals, small letters, figures, hyphen and underscore in this order |
| Credentials.ParsePrint | apps/gateway/src/orbi_gateway/services/api_keys.py:11-59 | a string parses to a key if and only if the key is well formed and the string is `orbi_`, its environment, `_v1_`, its ID, `_` and its secret |
| Credentials.PrintInjective | apps/gateway/src/orbi_gateway/services/api_keys.py:44 | two well-formed keys that print alike are the same key, although the separator is a letter of the alphabet |
| Credentials.GeneratedParses | apps/gateway/src/orbi_gateway/services/api_keys.py:38-59 | a generated key parses back to its environment, ID and secret and to the random bytes behind them, and the displayed prefix is `orbi_`, the environment, `_v1_` and the ID |
| Credentials.CutPrint | apps/gateway/src/orbi_gateway/routes/internal/workers.py:36-44 | the endpoint's own parser cuts a token ID exactly from a 69-character string made of `orbi_node_v1_`, that ID of 12 characters, `_` and the rest |
| Credentials.ParsersAgree | apps/gateway/src/orbi_gateway/services/worker_tokens.py:39-52 | the enrollment service returns an ID exactly when the endpoint's copy cuts that ID and the secret verifies |
| Credentials.GeneratedTokenParses | apps/gateway/src/orbi_gateway/services/worker_tokens.py:30-37 | both parsers read a generated token's ID back, and the secret offered for verification is the generated one |
| Credentials.KeysNeverLogged | apps/gateway/src/orbi_gateway/logging.py:10-27 | a well-formed API key alone is redacted to the replacement, and within any text each occurrence, secret included, is replaced as a whole |
| Credentials.TokensNeverLogged | apps/gateway/src/orbi_gateway/logging.py:10-27 | the same for generated enrollment tokens |
| Credentials.TokensHaveForm | apps/gateway/src/orbi_gateway/logging.py:10 | a token is exactly `orbi_`, one of live, test, node and admin, `_v1_`, and one or more letters, figures, hyphens or underscores |
| Credentials.FormsRedacted | apps/gateway/src/orbi_gateway/logging.py:10-27 | whatever follows `orbi_live_v1_`, `orbi_test_v1_`, `orbi_node_v1_` or `orbi_admin_v1_` in token characters is redacted, alone and within any text |

## Left out

- HTTP routing, pydantic validation, dependency injection and error rendering; schema bounds are preconditions.
- SQLAlchemy, asyncpg and Redis clients and the database migration. The tables are maps in one object, not row objects that sessions share.
- Argon2, JWT signing and verification, and random generation: verdicts are parameters and fresh identifiers are preconditions.
- PostgreSQL JSON containment: capability matching is containment of flat maps.
- Integer columns are unbounded, except that the reservation is shown to fit its 32-bit column.
- Clocks that run backwards: the ledger needs clock readings that do not decrease, since a day change in either direction resets a counter.
- The schedule of polls and of the maintenance loop; a poll reads the committed row.
- The steps that change a worker's reported status (heartbeats, stale-worker marking); a claim takes the worker's status as it was read.
- Projects and API keys created after the start of a run; the start allows any number of them, with any stored dates.
- Statuses without a step that sets them (STARTING, RUNNING, STREAMING, CANCELLED); the guards and the polling still recognise them.
- `SecurityMiddleware`, health, models and usage routes, scope checks, `recorded_at`, `last_used_at` and the cost of usage records, and error message texts: nothing else depends on them.
- Deadlock freedom: lock order differs between submissions and results, so only aborts are modelled.
- `SKIP LOCKED` snapshots: a claim selects and locks in one move, and it may skip any request that another transaction holds.
- Circuit-breaker calls on one worker that overlap, or that stop between two commands: the commands of a call are separate in time, but calls follow one another and run to their end.
- Accounting.LimitsAreHard: only a sufficient condition; Accounting.LimitsHoldExactly is the exact one.
- Gateway.Endpoints.RecoverLeases: leaves out the marking of stale workers as offline, which shares the loop's transaction and changes only the reported status of workers.
