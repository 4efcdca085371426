# Verification of the backend's stateful protocols

A Dafny model of the parts of the backend whose correctness depends on more than one function: the
payment-webhook handler, the session tokens, the background jobs with outbound webhooks and mail, the
throttles, the permission and admin endpoints, and the money and entitlement computations.

`dafny verify dfyconfig.toml` checks everything. The source paths below are relative to the repository's root.

Each module gives the source's objects as classes whose methods change their fields in place, and ties every
method to a function of the old state. Runs are sequences of steps over those functions; the main results are
statements about all runs, or about all interleavings.

| file | what it models |
|---|---|
| `PaymentWebhook.dfy` | any number of interleaved handlers of payment events, crashes and redeliveries included, over the event table with its unique constraint |
| `PaymentRuns.dfy` | the commits of a run and what each writes; one handler served among others |
| `PaymentCache.dfy` | the idempotency store as a cache of that table |
| `PaymentHandler.dfy` | both idempotency stores, the database session, and the handler as a program that runs among others |
| `TokenStores.dfy` | the token store over Redis: keys and per-user sets with a time to live |
| `Sessions.dfy` | login, refresh with rotation and replay detection, logout, password reset and change, over three token stores |
| `Refreshes.dfy` | refresh requests that overlap: each reads, and later writes |
| `Revocations.dfy` | what a revocation does to refreshes in flight, and they to it |
| `Retry.dfy` | retrying with growing pauses, the circuit breaker, the SMTP transport that drives it |
| `JobManager.dfy` | the job manager: queue, list of jobs from before the loop, counters, idle event, dead letters |
| `WebhookDelivery.dfy` | dispatch and delivery of outbound webhooks on top of the job manager |
| `RateLimit.dfy` | the sliding-window limiter in memory and in Redis |
| `Lockout.dfy` | account lockout |
| `AdminRoles.dfy` | the two role endpoints and the last-admin guard |
| `AdminOverlaps.dfy` | role requests that overlap: each checks, and later writes |
| `Rbac.dfy` | permission queries, the grant ceiling, the two role endpoints of the RBAC router |
| `Money.dfy` | proration and product prices in binary64 |
| `Entitlements.dfy` | the two feature queries and the mapping of features to plans |
| `Options.dfy` | the optional value; sizes of finite sets; new primary keys |

## Assumptions

- Database: a unique insert waits while another open transaction holds the same key and conflicts with a
  committed row only; a commit is atomic; an exception rolls back (`backend/database/session.py:21-32`). That no
  key occurs twice in the event table is proved from this.
- Redis: a key or a set is gone from the instant its time to live is up; `sadd` with the `expire` after it is one
  step; the four commands of the limiter's pipeline are one step. Configured lifetimes are positive and constant
  within a run; what a shrinking lifetime does is `TokenStores.ShrinkingTtlEscapesRevokeAll`.
- Sessions: each use case is one step and token ids are fresh; in `Refreshes` and `Revocations` a refresh is two
  steps, its reads and its writes. A token is refused on and after its `exp` (section 4.1.4 of RFC 7519).
- Jobs: one event loop, one worker, no cancellation in mid-job; database writes of a delivery succeed, and its row
  is committed before its job reads it.
- Requests of the RBAC router, sign-ins to one account, plan changes and feature mappings are one step each. So are
  role requests in the runs of `AdminRoles`; in `AdminOverlaps` they are two, with checks and loads in the first. The
  ORM writes the attributes that differ from what it loaded, and accounts are neither created nor deleted meanwhile.
- Throttles: the limiter's results assume a clock that does not run backwards (the lockout's do not), the
  breaker's that sends do not overlap.
- A signature check, a password check, the outcome of a post, a mail or a job, and the current time are parameters.

## Where the code differs from what one would expect

- `docs/DOCUMENTATION.md:206` has `ensure_admins_remain` block removing the last admin. The code refuses any change of
  the roles of a user whose only role row is the admin role (`backend/domain/rbac/service.py:154-170`), so the last
  bearer can lose the role if they have another one (`Rbac.LastAdminCanBeRemoved`). Some run of the endpoints loses
  it exactly if somebody may manage roles and no bearer has it as their only role (`Rbac.CanLoseLastAdminIff`).
- The bulk role endpoint predicts the number of admins exactly only for batches that give no user a role twice
  (`AdminRoles.PredictionExactIff`), and a batch that repeats users can remove the last admin. It cannot, on any
  table, exactly if each user whose last role in it is not the admin role is given other roles more often than all
  the other such users together are given the admin role (`AdminRoles.SafeBatchIff`).
- The guards of both role endpoints count on the table as they find it. Requests that overlap can each pass and leave
  no admin between them (`AdminOverlaps.OverlappingDemotions`), as soon as there are two accounts
  (`AdminOverlaps.CanLoseAllAdminsIff`).
- Overlapping refreshes with one token can each be handed a pair: all those that read the token before its first
  rotation is written (`Refreshes.PairIffReadInTime`).
- A revocation of a user's sessions does not stop a refresh that has read and not yet written: the pair it writes
  works. Without such a request in flight the revocation holds (`Revocations.RevocationHoldsIff`).
- A job enqueued outside the loop once the queue exists is never run, and the manager is never idle again
  (`JobManager.OffLoopJobIsStranded`).
- Access tokens with a lifetime above a day outlive the marker that revokes them
  (`Sessions.RevocationOutlivesTokensIff`). The default is exactly a day (`backend/core/config.py:108`).
- Requests at one timestamp are one member of the Redis limiter's sorted set, so that it bounds the distinct times of
  admissions and not their number (`RateLimit.RedisAtMostLimitPerWindow`, `RateLimit.EqualTimesSlipThroughRedis`).
- A permission held through two roles, or a feature through two plans, makes the query raise
  (`Rbac.HasPermissionMeans`, `Entitlements.FeatureAnswers`).
- The float proration is exact up to a numerator of 30·2^49 + 28 and a cent too high right after
  (`Money.FirstWrongProration`); `Money.MischargedIff` says for every numerator whether it is charged exactly, and how far
  off it can be.
- The store's text keys are injective for the two supported providers, not in general
  (`PaymentWebhook.CacheKeysCanCollide`).

## Model

| member | source | states |
|---|---|---|
| PaymentWebhook.AtMostOneProcessed | backend/app/api/v1/billing/router.py:431-489 | over every interleaving of any handlers, with crashes and redeliveries, two deliveries of one event are never both answered `processed: True` |
| PaymentWebhook.EffectExactlyOnce | backend/app/api/v1/billing/router.py:443-487 | in every reachable state each committed `checkout.session.completed` event has exactly one subscription of the handler's making, and no other event has any |
| PaymentWebhook.AnsweredEventIsCommitted | backend/app/api/v1/billing/router.py:431-455 | an event answered as duplicate or processed is committed, and stays so in every continuation |
| PaymentWebhook.IdsStayDistinct | backend/app/api/v1/billing/router.py:458-464 | every run keeps subscription ids apart |
| PaymentWebhook.StepKeepsInv | backend/domain/billing/webhook_models.py:11-14 | every step of every handler keeps: no duplicate event key, subscriptions matching checkout events, no two handlers holding or having won one event, a remembered event is a committed event |
| PaymentWebhook.FindLatest | backend/app/api/v1/billing/router.py:470-476 | the matching subscription with none younger, or none exactly if none matches |
| PaymentWebhook.CacheKeyInjective | backend/app/api/v1/billing/router.py:414-431 | `provider:event_id` tells events of the two supported providers apart |
| PaymentWebhook.CacheKeysCanCollide | backend/app/api/v1/billing/router.py:431 | for arbitrary providers it does not |
| PaymentRuns.EachEventCommittedOnce | backend/app/api/v1/billing/router.py:443-487 | over every interleaving, for events of every type, an event in the table was committed by exactly one commit of the run, any other by none |
| PaymentRuns.AnswerTellsWhoCommitted | backend/app/api/v1/billing/router.py:431-489 | in every run a handler that answers says `processed` iff its own commit took effect, and `duplicate` otherwise, its event then being committed by another |
| PaymentRuns.CommittedEffect | backend/app/api/v1/billing/router.py:457-487 | whatever commits between a handler's choice and its own commit: a checkout adds one active row; a failed payment marks past due exactly the row that was its target at the choice, the one it names or else the user's youngest for the plan, unless it was past due already; any other event changes no subscription |
| PaymentRuns.EachCommitHasItsChoice | backend/app/api/v1/billing/router.py:457-487 | every effective commit of every run has such a choice before it, made with the row inserted |
| PaymentRuns.ServedExactlyOnce | backend/app/api/v1/billing/router.py:431-489 | a handler served among others, with anything they do between its calls, leaves its event committed once with its one effect; if it answers `processed`, no other delivery of the event ever does |
| PaymentRuns.OnlyGenuineRequestsAct | backend/app/api/v1/billing/router.py:411-429 | over every run a request is refused iff one of those fields fails, for good; behind every event row is a request that passed with that provider, id and type, and behind every subscription of the handler's making one to complete a checkout for that user |
| PaymentCache.CacheIsTransparent | backend/app/api/v1/billing/router.py:431-455 | every run, whatever the store loses and whenever, ends with the tables and answers of a run without a store |
| PaymentCache.UncachedRunIsARun | backend/resilience/idempotency.py:9-40 | and every run without a store is one of the real protocol that loses everything at once |
| PaymentCache.DeliveryAnswersFromTable | backend/app/api/v1/billing/router.py:431-489 | an undisturbed delivery is answered, and changes the tables, by the event table alone, and leaves its event committed |
| PaymentCache.LossChangesNoAnswer | backend/resilience/idempotency.py:9-40 | losing entries, or a process that never had them, changes neither answer nor tables |
| PaymentCache.ArrivalIsServed | backend/app/api/v1/billing/router.py:399-489 | a delivery from its arrival on, undisturbed: refused without effect, or processed unless its event is in the table, which it then is |
| PaymentCache.RedeliveryAfterCrash | backend/database/session.py:21-32 | after a crash between flush and commit the redelivery of the event is processed, with its effect |
| PaymentHandler.StripeWebhook | backend/app/api/v1/billing/router.py:399-489 | refused iff the provider is neither stripe nor paypal, else the event id is empty, else the signature is missing or not vouched for, each with its reason, and then nothing is touched; any other request, with the actions of others between any two of its calls and while its insert waits, ends in the tables, store, other handlers and answer of that run of the concurrent machine, its event remembered |
| PaymentHandler.Apply | backend/app/api/v1/billing/router.py:457-485 | the handler's branches buffer the effect of the event on the tables as they find them |
| PaymentHandler.Session.LatestSubscription | backend/app/api/v1/billing/router.py:470-476 | walking the table from its end finds the youngest match |
| PaymentHandler.RedisIdempotencyStore.Get | backend/resilience/idempotency.py:27-31 | the payload if its time is not up |
| PaymentHandler.RedisIdempotencyStore.Set | backend/resilience/idempotency.py:33-34 | the key gets the payload, visible for the time to live |
| PaymentHandler.ExpiryIsLoss | backend/resilience/idempotency.py:33-34 | the passing of time is a loss of entries, a step the machine allows anywhere |
| TokenStores.TokenStore.AddRefreshToken | backend/core/security/token_store.py:101-105 | sets the key and adds the token to the user's set, whose time to live restarts |
| TokenStores.TokenStore.RotateRefreshToken | backend/core/security/token_store.py:107-110 | the old token becomes a used marker for at most 60 s, the new one is added |
| TokenStores.TokenStore.ConsumePasswordResetToken | backend/core/security/token_store.py:117-122 | answers the owner and deletes while the token's time is not up; refuses unknown, expired and used tokens |
| TokenStores.TokenStore.RevokeAllForUser | backend/core/security/token_store.py:134-145 | the loop deletes exactly the live members of the user's set |
| TokenStores.TokenStore.RevokeAllAccessTokensForUser | backend/core/security/token_store.py:170-177 | the loop marks exactly the live members of the user's access set, for a day |
| TokenStores.TokenStore.RevokeAccess | backend/core/security/token_store.py:127-128 | marks one token, for 86400 s if no time, or zero, is given |
| TokenStores.RevokeAllRemoves | backend/core/security/token_store.py:134-145 | with a covering index no live key of the user is left, and no key outside the index is touched |
| TokenStores.AddRefreshCoversIff | backend/core/security/token_store.py:39-52 | issuing a token keeps the index covering iff the restarted time to live is no earlier than any live key of the user |
| TokenStores.ShrinkingTtlEscapesRevokeAll | backend/core/security/token_store.py:39-52 | a token survives revoke-all when the lifetime was lowered after it was issued |
| Sessions.AuthUseCases.Login | backend/application/auth/use_cases.py:42-62 | the writes and the answer of a login whose password check passed |
| Sessions.AuthUseCases.RefreshToken | backend/application/auth/use_cases.py:70-123 | the writes and the answer of a refresh: unknown, replayed, orphaned and live tokens; a pair iff the key is live, unused and its owner there |
| Sessions.AuthUseCases.ConfirmPasswordReset | backend/application/auth/use_cases.py:237-266 | the writes and the answer of a reset confirmation; `Ok` iff the key is there, its time not up, unused, and its owner there |
| Sessions.ExecuteKeepsInv | backend/core/security/token_store.py:39-52 | every use case keeps: each live refresh token is in its user's index, which expires no earlier; each unexpired access token is tracked until its `exp` |
| Sessions.PairWorks | backend/application/auth/use_cases.py:42-62 | the access token of a handed-out pair is let in, and its refresh token is live and the same user's |
| Sessions.StageNeverReturns | backend/application/auth/use_cases.py:70-123 | over every run a refresh token only moves on: unissued, live, spent, gone |
| Sessions.RefreshAnswers | backend/application/auth/use_cases.py:70-123 | a refresh hands out a pair iff the token is live and its user exists; the old token is then spent, the new one live; any other answer, and when nothing changes |
| Sessions.RedeemedAtMostOnce | backend/application/auth/use_cases.py:70-123 | in every run each refresh token yields a pair at most once (section 10.4 of RFC 6749), although the marker is short-lived |
| Sessions.MarkerLivesAtMostAMinute | backend/core/security/token_store.py:107-110 | 60 s after its redemption at the latest a token is unknown, and presenting it changes nothing |
| Sessions.ReplayNoticedIff | backend/application/auth/use_cases.py:78-96 | a replay is noticed iff less than min(60 s, lifetime) has passed since the redemption and neither a revocation of the user's sessions nor a logout with that token has come between; then it revokes all of them |
| Sessions.RevokeStepRemoves | backend/application/auth/use_cases.py:78-96 | a replay, reset or password change kills every refresh token of the user and leaves those of others |
| Sessions.RevokedRefreshTokensStayDead | backend/application/auth/use_cases.py:255-264 | and none issued before is accepted again in any continuation |
| Sessions.RevokedAccessTokensStayDead | backend/core/security/dependencies.py:55-72 | after a replay or reset no access token issued to the user before is let in again, if tokens live at most a day |
| Sessions.RevocationOutlivesTokensIff | backend/core/security/token_store.py:127-128 | that holds for a configuration iff its access tokens live at most the 24 h of the marker |
| Sessions.ResetTokenUsedOnce | backend/core/security/token_store.py:117-122 | over every run a reset token resets a password at most once |
| Sessions.ResetWorksIff | backend/application/auth/use_cases.py:195-266 | over every run a reset token asked for at time a resets the password at time b iff b < a + its lifetime, nobody has tried to confirm with it, and the account exists; past its lifetime it is refused and nothing changes |
| Sessions.ResetRequestsLookAlike | backend/application/auth/use_cases.py:199-229 | a request for a reset is answered alike for any account, and draws a token only for one that exists |
| Sessions.UnknownResetTokens | backend/core/security/token_store.py:117-120 | a token no such request has drawn is refused in every reachable state |
| Sessions.SignInAndOut | backend/app/api/v1/auth/router.py:144-160 | login gives a pair of that user iff the account exists; logout needs an access token that is let in, and ends it and the refresh token |
| Sessions.RefreshTokenLivesIff | backend/core/security/token_store.py:101-110 | over every run a refresh token handed out at a yields a pair at b iff b < a + its lifetime, the user exists, and it has not been redeemed, revoked or logged out |
| Sessions.AccessTokenLivesIff | backend/core/security/dependencies.py:55-72 | and an access token, living at most a day, is let in iff b < a + its lifetime, the user exists, and it has not been logged out or revoked |
| Refreshes.AloneIsRefresh | backend/application/auth/use_cases.py:71-117 | a refresh whose reads and writes nothing comes between is the use case of the rows above |
| Refreshes.PairIffReadInTime | backend/application/auth/use_cases.py:71-117 | whatever overlaps, a request is handed a pair iff it read the token live and its user there, and all such reads come before the first rotation of the token is written |
| Refreshes.BothRedeemIff | backend/application/auth/use_cases.py:71-117 | two requests with one token are both handed a pair iff it could be redeemed at both reads, which takes that each reads before the other writes |
| Refreshes.InterleavedRefreshesBothRedeem | backend/application/auth/use_cases.py:71-117 | two that both read before either writes get two pairs, with two live refresh tokens |
| Revocations.RevokedTokensStayDead | backend/application/auth/use_cases.py:78-96 | after a replay, reset or password change no refresh token issued to the user before is redeemed again, whatever refreshes overlap; after the first two no access token issued before is let in again, if tokens live at most a day |
| Revocations.PairsAfterRevocation | backend/application/auth/use_cases.py:71-117 | a pair handed to the user after a revocation comes from a login, from a refresh that had read before the revocation and writes after it, or in exchange for a token issued since |
| Revocations.LateWriteEscapes | backend/application/auth/use_cases.py:98-117 | what such a late refresh writes works: its refresh token can be redeemed, its access token is let in |
| Revocations.RevocationHoldsIff | backend/application/auth/use_cases.py:255-264 | until the user logs in again no token of theirs works, in any overlapping continuation, iff no refresh that read one of them has yet to write when the revocation comes |
| Retry.RetryAsync | backend/resilience/retry.py:47-72 | one to `retries + 1` calls, ending at the first success; one pause between calls, none after the last |
| Retry.PauseIsGeometric | backend/resilience/retry.py:68-69 | the k-th pause is `delay * backoff ** k` |
| Retry.CircuitBreaker.IsOpen | backend/resilience/retry.py:24-31 | open within the timeout of the opening failure, else starting over |
| Retry.CircuitBreaker.RecordFailure | backend/resilience/retry.py:41-44 | counts, and opens at the threshold |
| Retry.SMTPEmailTransport.Send | backend/infrastructure/email/transport.py:34-64 | a refused send reaches no server; otherwise success and failure are recorded |
| Retry.FailuresPerTimeout | backend/resilience/retry.py:17-44 | over every run of sends, failures without a success between them inside one timeout are at most the threshold |
| Retry.RefusalsLeaveNoTrace | backend/infrastructure/email/transport.py:34-62 | a send is refused iff it comes within the timeout of the failure that opened the breaker, and changes nothing |
| JobManager.BackgroundJobManager.EnqueueJob | backend/common/background_jobs.py:170-186 | the new state of queue, list, counter and idle event, in and off the loop |
| JobManager.BackgroundJobManager.EnsureQueue | backend/common/background_jobs.py:120-126 | the first meeting with the loop moves the early jobs, in order, behind the queue |
| JobManager.BackgroundJobManager.RunNext | backend/common/background_jobs.py:193-237 | one turn of the worker: one to three tries, success iff one succeeds, the rest of the bookkeeping |
| JobManager.BackgroundJobManager.FinishJob | backend/common/background_jobs.py:214-237 | dead letters, counter and idle event after a job; a failure is appended, and at fifty the oldest dropped |
| JobManager.ReachableStates | backend/common/background_jobs.py:170-237 | in every reachable state: pending = jobs waiting, at most one active, idle iff neither, each job taken ends once after 1 to 3 tries, dead letters = the last min(50, n) of the n failures, in order |
| JobManager.JobsAreConserved | backend/common/background_jobs.py:114-142 | in every reachable state the jobs handed in are those taken and those waiting, each as often |
| JobManager.JobsRunInOrder | backend/common/background_jobs.py:114-142 | jobs run in the order they were accepted unless one comes from outside the loop once there is a queue |
| JobManager.OrderKeptIff | backend/common/background_jobs.py:114-142 | with a queue and jobs from the loop alone, every continuation keeps the order iff no job is stranded in the list |
| JobManager.CanBecomeIdleIff | backend/common/background_jobs.py:128-134 | with a queue, some continuation becomes idle iff no job is stranded in the list |
| JobManager.OffLoopJobIsStranded | backend/common/background_jobs.py:128-134 | with a queue, a job enqueued from outside the loop stays in the list in every continuation, and the manager is never idle again |
| WebhookDelivery.WebhookService.Dispatch | backend/application/webhooks/service.py:70-80 | the loop over endpoint rows; in the final tables each endpoint has one new delivery if it is active and its subscribed events hold the event, none otherwise |
| WebhookDelivery.WebhookService.DeliverWebhook | backend/application/webhooks/service.py:84-129 | attempt count, status, delivered mark and retry job for every outcome of the post |
| WebhookDelivery.WebhookService.RevokeEndpoint | backend/application/webhooks/service.py:43-49 | only the owner's endpoint, and only its active flag |
| WebhookDelivery.WebhookService.CreateEndpoint | backend/application/webhooks/service.py:25-38 | a new row, nothing else changed |
| WebhookDelivery.DispatchReachesSubscribers | backend/domain/webhooks/repository.py:14-19 | one new delivery for every endpoint that is there, active and subscribed to the event, none for any other, one job each, nothing else changed |
| WebhookDelivery.DispatchIsARun | backend/application/webhooks/service.py:70-80 | a dispatch is a run of single creations, so the results on runs hold of it |
| WebhookDelivery.ApplyKeepsSysInv | backend/application/webhooks/service.py:83-129 | every step of service and worker together keeps: one outstanding job per unfinished delivery, none for a finished one |
| WebhookDelivery.AtMostThreePosts | backend/application/webhooks/service.py:111-129 | in every reachable state posts = `attempt_count` <= 3 and at most one job is outstanding per delivery |
| WebhookDelivery.DeliveredMeansAccepted | backend/application/webhooks/service.py:114-118 | delivered iff the last answer was a 2xx, and then no job is left |
| WebhookDelivery.PostedWhenActive | backend/application/webhooks/service.py:97-109 | a worker step posts for a delivery iff it handles its job and the endpoint is there and active |
| WebhookDelivery.AnswerIsRecorded | backend/application/webhooks/service.py:109-129 | what an answer or a transport error writes, and when the delivery goes back to the queue |
| WebhookDelivery.RevokedGetsNothing | backend/application/webhooks/service.py:43-49 | once the owner has revoked an endpoint nothing is posted to it in any continuation |
| WebhookDelivery.DeliveriesNeverDie | backend/application/webhooks/service.py:105-129 | in every reachable state each delivery job ended well after one try, and none is a dead letter |
| WebhookDelivery.IdleMeansTerminal | backend/common/background_jobs.py:249-250 | when the idle event is set every delivery is delivered, tried three times, without an active endpoint, or answered below 200 |
| WebhookDelivery.WorkDecreases | backend/application/webhooks/service.py:119-129 | every worker step brings the queue closer to empty, retries included, whatever the endpoints answer |
| WebhookDelivery.Drain | backend/common/background_jobs.py:193-237 | the worker left alone stops, idle, with every delivery finished within three posts |
| RateLimit.RateLimiter.AllowRequest | backend/resilience/rate_limit.py:16-26 | prunes in place and admits below the limit; other keys are untouched |
| RateLimit.KeptAgreesWithHistory | backend/resilience/rate_limit.py:20-25 | over every run the pruned list counts like the full history of admissions |
| RateLimit.RefusedIffWindowFull | backend/resilience/rate_limit.py:20-26 | a request is refused iff the minute ending with it already holds `limit` admissions |
| RateLimit.AtMostLimitPerWindow | backend/resilience/rate_limit.py:16-26 | no 60-second window of any run holds more than `limit` admissions |
| RateLimit.AdmissionsAreSpaced | backend/resilience/rate_limit.py:16-26 | an admission and the `limit`-th after it are a minute apart or more |
| RateLimit.RedisRateLimiter.AllowRequest | backend/resilience/rate_limit.py:47-57 | removes old scores, adds this one, counts, restarts the time to live; other keys are untouched |
| RateLimit.ExpireIsInvisible | backend/resilience/rate_limit.py:52-55 | the key's expiry never changes an answer |
| RateLimit.DivergeIff | backend/resilience/rate_limit.py:16-57 | at any request of any stream of a clock, which of the limiters alone admits it, by the distinct request times and the in-memory admissions of the minute |
| RateLimit.RedisAdmitsSubset | backend/resilience/rate_limit.py:47-57 | at a request with no two at one time in the minute up to it, Redis, which also counts refusals, admits only what the in-memory limiter admits |
| RateLimit.RedisAtMostLimitPerWindow | backend/resilience/rate_limit.py:47-57 | on every stream of a clock, ties included, no 60-second window holds admissions at more than `limit` distinct times; on distinct timestamps, no more than `limit` admissions |
| RateLimit.EqualTimesSlipThroughRedis | backend/resilience/rate_limit.py:53 | of n requests at one instant Redis admits all under any positive limit, the in-memory limiter min(n, limit) |
| RateLimit.SubsetOnAllStreamsIff | backend/resilience/rate_limit.py:47-57 | Redis is on no stream freer than the in-memory limiter iff the limit admits nothing |
| Lockout.UserService.Authenticate | backend/domain/users/service.py:104-136 | the four outcomes and the account's counters after each |
| Lockout.RunInv | backend/domain/users/service.py:120-131 | over every run the counter is the number of wrong checks since the last success, and the lock is set iff it is at least five |
| Lockout.GuessesAreSlowed | backend/domain/users/service.py:115-123 | the k-th wrong check comes at least 15 min·(k − 5) after the fifth |
| Lockout.RefusedOnlyWhileLocked | backend/domain/users/service.py:115-136 | a password is refused unread iff the 900 s of the last wrong check's lock are running; at any other time a correct one, and only that, signs in and clears everything |
| AdminRoles.UserAdmin.BulkSetUserRoles | backend/app/api/v1/admin/router.py:125-216 | counting loop, guard and applying loop; a failed batch changes nothing |
| AdminRoles.UserAdmin.SetUserRole | backend/app/api/v1/admin/router.py:52-100 | the single endpoint with its guard |
| AdminRoles.PredictionExactIff | backend/app/api/v1/admin/router.py:134-154 | the predicted number of admins equals the real one on every user table iff no user is given a role twice |
| AdminRoles.DuplicatesCanRemoveLastAdmin | backend/app/api/v1/admin/router.py:154-182 | a batch that passes the guard and leaves no admin |
| AdminRoles.LeavesNoAdminIff | backend/app/api/v1/admin/router.py:134-216 | on a table with an admin, a batch leaves none iff the guard passes, no entry raises, and nobody ends as an admin by the last role the batch names for them, or else by their own |
| AdminRoles.SafeBatchIff | backend/app/api/v1/admin/router.py:134-216 | a batch never removes the last admin, on any table, iff each user it leaves with another role is given such roles more often than all the other such users together are given the admin role |
| AdminRoles.PlainBatchesAreSafe | backend/app/api/v1/admin/router.py:134-216 | batches that give no user a role twice are safe, and those that end by making an admin of each user they give a role |
| AdminRoles.EachEntryTakesEffect | backend/app/api/v1/admin/router.py:161-191 | each user found gets the last role and the last permissions named for them, whichever entries they come from; nobody else changes |
| AdminRoles.BulkAnswers | backend/app/api/v1/admin/router.py:154-182 | a batch past the guard goes through iff every role it sets is in the role table and of no user whose only role row is the admin role; otherwise nothing changes |
| AdminRoles.SetRoleAnswers | backend/app/api/v1/admin/router.py:52-88 | which requests to the single endpoint are refused, with which answer, and what the others change |
| AdminRoles.RolesComeFromTheTable | backend/app/api/v1/admin/router.py:65-88 | over every run of both endpoints an account keeps its role or has one of the role table |
| AdminRoles.AnAdminRemains | backend/app/api/v1/admin/router.py:65-88 | every run of both endpoints with safe batches, one request after the other, keeps an admin |
| AdminOverlaps.AloneIsServe | backend/app/api/v1/admin/router.py:52-100 | a request with nothing between its checks and its writes does what the rows above say |
| AdminOverlaps.LateWriteTakesEffect | backend/app/api/v1/admin/router.py:161-191 | whatever was written since the checks, each user gets the last role named for them, but a role that only confirms the one loaded leaves the one there by now |
| AdminOverlaps.LatePermissionsTakeEffect | backend/app/api/v1/admin/router.py:182-190 | the same of permissions |
| AdminOverlaps.LateWriteLeavesNoneIff | backend/app/api/v1/admin/router.py:161-191 | so a write leaves no admin iff that is the admin role for nobody |
| AdminOverlaps.AnAdminRemainsUndemoted | backend/app/api/v1/admin/router.py:134-182 | every run of overlapping safe requests keeps an admin, if nobody loses the role between the checks and the writes of one |
| AdminOverlaps.OverlappingDemotions | backend/app/api/v1/admin/router.py:72-86 | two admins, two demotions each checked before the other is written, no admin left |
| AdminOverlaps.CanLoseAllAdminsIff | backend/app/api/v1/admin/router.py:72-86 | from a table with an admin, and a role table with the admin role and another, some run of overlapping safe requests leaves no admin iff there are two accounts or more |
| Rbac.HasPermissionMeans | backend/domain/rbac/service.py:172-187 | yes iff exactly one role grants, raises iff two or more do, no iff none (beyond direct permissions) |
| Rbac.RbacService.UserHasAll | backend/domain/rbac/service.py:189-193 | yes iff every key is answered yes; otherwise the answer of some key |
| Rbac.RbacService.ValidateScope | backend/domain/rbac/service.py:100-124 | passes iff the actor is a superuser or is answered yes for every key |
| Rbac.RbacService.SetRolePermissionsAs | backend/domain/rbac/service.py:126-134 | succeeds exactly within the actor's scope and without repeated or dangling ids; replaces the role's rows then, changes nothing otherwise |
| Rbac.RbacService.AssignRolesAs | backend/domain/rbac/service.py:136-143 | the same for a user's roles |
| Rbac.StepCeiling | backend/app/api/v1/rbac/router.py:43-83 | one step gives nobody a permission outside their own and the actor's |
| Rbac.OnlyManagersChange | backend/app/api/v1/rbac/router.py:43-83 | a step by anyone but a superuser, or who holds `rbac.manage` directly or through exactly one role, changes nothing |
| Rbac.GrantSucceedsIff | backend/app/api/v1/rbac/router.py:43-62 | the exact condition on which a grant succeeds, and the rows after it |
| Rbac.AssignSucceedsIff | backend/app/api/v1/rbac/router.py:64-83 | the exact condition on which an assignment succeeds, and the rows after it |
| Rbac.OrdinaryUnionNeverGrows | backend/domain/rbac/service.py:100-143 | over any sequence of such steps the union of what non-superusers hold never grows |
| Rbac.GrantTakesEffect | backend/domain/rbac/service.py:126-134 | afterwards the role carries exactly the granted permissions |
| Rbac.AssignTakesEffect | backend/domain/rbac/service.py:136-143 | afterwards the user holds exactly what the roles carry and what was direct; others are as they were |
| Rbac.LastAdminCanBeRemoved | backend/domain/rbac/service.py:154-170 | the last bearer of the admin role, who has another role too, loses it in an accepted request |
| Rbac.LosesLastIff | backend/domain/rbac/service.py:154-170 | a step leaves nobody with the admin role iff it succeeds in giving its only bearer roles without it |
| Rbac.SoleAdminKeepsRole | backend/domain/rbac/service.py:154-170 | a user whose only role is the admin role keeps it in every run |
| Rbac.CanLoseLastAdminIff | backend/domain/rbac/service.py:154-170 | some run ends without a bearer iff somebody may manage roles and every bearer has another role too |
| Rbac.RunKeepsAdminIff | backend/domain/rbac/service.py:154-170 | a run has a bearer throughout iff none of its steps takes the role from the only one |
| Money.ProrationIsExact | backend/app/api/v1/billing/router.py:214-217 | the truncated float quotient is the exact quotient truncated toward zero, up to a numerator of 30·2^49 + 28 |
| Money.FirstWrongProration | backend/app/api/v1/billing/router.py:217 | the next numerator is charged one cent too much, however ties are broken |
| Money.MischargedIff | backend/app/api/v1/billing/router.py:214-217 | for every numerator: the charge is wrong iff its residue of 30 is in the stated range for its binade, or from 2^53 cents on iff the exact quotient, truncated, is no float; it is then one cent too far from zero below 2^53 cents, and from there on off by half the spacing of the floats at most |
| Money.Billing.ChangePlan | backend/app/api/v1/billing/router.py:197-245 | error answers change nothing; otherwise plan, status, one invoice of the absolute amount; the price difference times the days, at least one, exact iff not mischarged |
| Money.ReverseCancels | backend/app/api/v1/billing/router.py:214-217 | the amounts charged for a change and for its reverse cancel, whatever their size |
| Money.ChainNearDirect | backend/app/api/v1/billing/router.py:214-217 | the amounts charged for a chain of n changes are within n − 1 cents of that charged for the direct change, plus what each mischarged amount can be off |
| Money.PlainChainNearDirect | backend/app/api/v1/billing/router.py:214-217 | so within n − 1 cents if none is mischarged, within 2n if all are below 2^53 cents |
| Money.RelativeError | backend/domain/products/model.py:25-31 | a rounded result is within one part in 2^53 |
| Money.RoundedIsUnique | backend/domain/products/model.py:25-31 | a value has one result under round-half-to-even |
| Money.RoundedExists | backend/domain/products/model.py:25-31 | and it has one, so what is said of rounded results is said of every value |
| Money.IntegersAreExact | backend/domain/products/model.py:27 | the conversion of whole cents below 2^53 to a float loses nothing |
| Money.PriceRoundTrip | backend/domain/products/model.py:25-31 | storing the float price read from c cents gives back c, for every c from -2^50 to 2^50 |
| Money.Product.SetPrice | backend/domain/products/model.py:29-31 | the setter stores a nearest whole number of cents, an even one on a tie, and so the cents the getter's float came from |
| Entitlements.FeatureAnswers | backend/domain/billing/service.py:42-62 | both queries agree: yes iff exactly one plan with an `active` or `trialing` subscription includes the feature, no iff none, raises iff two or more; yes to a superuser |
| Entitlements.SecondStageCounts | backend/application/billing/use_cases.py:66-80 | the second query counts one row for each of the user's plans that includes the feature |
| Entitlements.BillingAdmin.MapPlanFeatures | backend/app/api/v1/billing/router.py:71-105 | the plan gains exactly the given keys, repetitions or not; other plans are as they were; no duplicate feature or pair |
| Entitlements.MapOneMaps | backend/app/api/v1/billing/router.py:86-102 | one turn of the loop adds one key to one plan and nothing else |
| Entitlements.MappingEntitles | backend/app/api/v1/billing/router.py:86-102 | a subscriber of the plan without the feature is answered yes after the mapping |

## Left out

- Redis outages: the token store's and the limiter's fallbacks, whose results differ between processes (`backend/resilience/rate_limit.py:58-62`).
- Job manager: `stop`, `reset`, cancellation in mid-job, a second event loop, and other threads between the counter's update and the idle event; the counter invariants do not hold there.
- The Redis job queue and its worker, which call an asynchronous client without awaiting it.
- Payment handler: the program shares one store with the others, as with Redis; a store per process is in the machine, where a lookup may miss what another process remembers. A crash of the handler is an action of the machine.
- Sessions: the three parts of a use case's database work and the text form of stored values; a stored value is a datatype, a token id a number. Inactive users and the e-mail verification switch, which refuse before any token is touched.
- Hashing, signatures and JWT encoding: only `sub`, `jti` and `exp` of a token are kept.
- Who may call an endpoint (`require_role`, `require_permission`), but for `rbac.manage` in `Rbac`: the admin, billing and webhook endpoints are modelled from there on.
- API-key actors in the permission model: their scopes replace permissions. Permissions written directly by the admin endpoints and the creation of roles and permissions are not steps of `Rbac.Run`.
- Billing notifications: they are enqueued before the commit, so a crash can leave one sent and a redelivery can send another.
- The reading of a payment request: the headers a signature may come from, the lower-casing of the provider. A `user_id`, `plan_id` or `subscription_id` that is not a number raises in the handler, which is a crash of the model.
- WebhookDelivery.WebhookService.DeliverWebhook: does not model database errors while an attempt is recorded, nor timestamps, which no branch reads.
- Money.Billing.ChangePlan: does not model overflow of the float division, for numerators beyond binary64's range; the invoice's text fields.
- Locks: each locked block is one step.
- CRUD use cases, seeding, schemas, uploads, logging, tracing and metrics: they would add only easy members.
