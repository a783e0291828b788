# FIELDed backend: a model of its stateful core, with proofs

This project models the parts of the FIELDed backend whose correctness depends on more than one
function body: protocols between workers, clients and requests, stores that forget, transactions
that may fail, and two small pure kernels. `dafny verify dfyconfig.toml` checks all of it.

| files | component |
|---|---|
| `SlidingWindow`, `MemoryLimiter`, `RedisLimiter`, `RedisReordering` | the two rate limiters, both measured against the never-pruned history of calls, and what requests that overtake each other cost |
| `Revocation`, `RefreshChain` | the self-cleaning token revocation store, `decode_token`, and login/refresh/logout interleaved at awaits |
| `Outbox`, `OutboxWorker`, `OutboxBatch`, `OutboxOutcomes` | the outbox rows, one pass of the worker over a shared session, what a batch does, and the outcome of each of its events |
| `OutboxLease`, `OutboxLimits`, `OutboxAccount`, `OutboxDrain` | many workers under a lease, the limits of the guarantees, the fate of every attempt, and termination |
| `Membership`, `MembershipRuns`, `MembershipRules` | businesses, members, invitations, role changes and the status trail; who may do what, row by row |
| `Webhooks`, `WebhookRuns`, `WebhookNews` | delivery receipts: deduplication, status updates, audit log, and what each kind of receipt says |
| `Text`, `Spelling`, `Slug`, `SlugWords`, `Money` | slugs and category get-or-create; Stripe minor units |

Where the source updates objects in place, the model is a class whose methods are proved equal to
a function of the old state; the theorems about whole runs are lemmas about these functions.
`OutboxOutcomes`, `WebhookNews`, `MembershipRules`, `SlugWords` and the end of `Money` state the same
behaviour a second time in literal terms, payload words, characters, figures and table rows, and
prove that it agrees.

## What the proofs found

The properties below do not hold as the documentation states them. For each, a theorem gives the
condition under which it holds, or how much of it is left, and a concrete run shows the loss.

- Booking automation is documented not to affect the outbox event (`backend/app/workers/__init__.py:64-68`).
  It shares the worker's session and commits and rolls back on it
  (`backend/app/domain/booking_automation/service.py:277`, `:309-312`), so an event is atomic
  unless automation ended its transaction (`OutboxBatch.AtomicUnlessAutomationEndsTransaction`),
  and a batch is unaffected exactly when automation is benign on each of its events
  (`OutboxBatch.AutomationDoesNotInterfere`).
- The lease is stamped once per batch; it excludes other workers when a whole batch fits into it,
  and with a shorter lease two workers do hold one event (`OutboxLease.LeaseExcludes`,
  `OutboxLimits.LeaseMustCoverTheBatch`). With the defaults (batches of 10, a lease of 300
  seconds) that leaves 30 seconds an event.
- `max_attempts` bounds recorded failures, not claims: an event whose workers crash is claimed
  without end (`OutboxLimits.CrashesEscapeTheLimit`). Exactly, the attempts of an event are those put
  back by its workers, those lost to a crash or an unrecorded error, and one more while it is held or
  once it is settled; so the limit holds in every run that loses none
  (`OutboxAccount.AttemptAccount`, `OutboxAccount.LimitHoldsWithoutLosses`).
- `decode_token` reads the clock twice. A revoked token that expires between the readings is
  accepted, and only then (`Revocation.DecodeAgreesUnlessStraddling`). A refresh chain stays linear
  exactly until a revoked refresh token is presented so, while its login still has a successor of it
  (`RefreshChain.RefreshChainIsLinear`).
- The docstring of `logout` says that the access token is revoked (`backend/app/api/v1/auth.py:203`);
  the code revokes the refresh token alone, and every other token decodes as before
  (`RefreshChain.WithdrawnStaysWithdrawn`, `RefreshChain.LogoutSparesOthers`).
- The in-memory limiter forgets when the clock runs backwards; what it then still remembers is
  characterised for every clock (`MemoryLimiter.BackwardClockForgets`, `MemoryLimiter.StoredIsRemembered`).
- The Redis limiter bounds its window if pipelines run in the order of their stamps. For any order its
  verdict is characterised exactly, and when a pipeline may be overtaken by later stamps up to some
  slack, windows shorter by that slack stay bounded (`RedisReordering.VerdictInAnyOrder`,
  `RedisReordering.ReorderedAdmissionBound`, `RedisReordering.OvertakingAdmitsMore`). Distinct stamps
  are assumed, and that from one call of a key to a later one the delay, from the client's stamp to
  the server's clock, grows by no more than the expiry margin; without these the bound fails
  (`RedisLimiter.EqualStampsCollapse`, `RedisLimiter.LatencyBeyondTheMargin`,
  `RedisLimiter.SkewBeyondTheMargin`).
- The unique constraint on memberships counts deleted rows, so a removed member can never come
  back (`MembershipRuns.RemovedForGood`, `MembershipRuns.AddSucceedsIff`); two expired invitations on
  file block an address for good, as happens to every address invited twice, the second time after
  seven days (`MembershipRuns.StaleInvitationsBlockForever`, `MembershipRuns.TwoInvitationsGoStale`); the last-owner guard of `remove_member`
  never fires (`MembershipRuns.RemovalNeverHitsLastOwner`); and a business suspended and resumed
  cannot be suspended again within the same second, the only transition an owner can be refused
  although it is allowed (`MembershipRuns.TransitionSucceedsIff`, `MembershipRuns.SecondSuspensionAborts`).
- A failed receipt is forgotten together with its event id. Redeliveries are absorbed exactly when no
  event is recorded only by a later delivery, as is the case while no two attempts share a reference
  (`WebhookRuns.RedeliveriesAreAbsorbed`, `WebhookRuns.LateRecordingHappens`).
- A receipt that arrives before its attempt is stored is recorded, changes nothing, and makes
  every redelivery a duplicate: its news is lost (`WebhookRuns.EarlyReceiptIsLost`).
- `create_category` promises the existing category for a known slug; a slug or name held by a
  deleted row, or a name stored under another slug, ends in an integrity error instead
  (`Slug.CategoryApi.CreateCategory`).
- `Decimal` arithmetic rounds to 28 significant digits; the money round trips hold exactly up to
  there (`Money.MinorRoundTrip`), and beyond it partial refunds can exceed their sum
  (`Money.RefundsBeyondPrecision`). The amount columns hold at most 12 digits, so the service never
  sends such amounts (`Money.FittingConverts`).

## Assumptions

- Time is counted in integer ticks, and clocks do not run backwards except where a statement says
  that they may; ids and token identities are drawn from counters, so they are
  fresh. Tokens are unforgeable and are identified with their claims; the `exp` check is that of
  section 4.1.4 of RFC 7519, `jti` that of its section 4.1.7.
- Each HTTP request is one serial transaction (`backend/app/database.py:118-127`). One process
  runs the API, so one revocation store exists and a step between two awaits is not interrupted.
- Outbox handlers other than booking automation write through the shared session and neither
  commit nor roll back. A failed commit keeps nothing. Every field of an event that the worker reads,
  its type, aggregate, id and attempt count, is the value loaded at the claim, also after a rollback,
  which expires the loaded row.
- The claiming query may return any rows that its conditions, order and limit allow, and rows
  locked by others are skipped.
- The warning logged when automation raises is given keyword fields that the standard logger
  rejects (`backend/app/workers/__init__.py:130-135`); the model follows the documented intent,
  in which the exception ends there.
- Redis executes a pipeline atomically and expires a key at its deadline. Per key, stamps are
  distinct, the server's clock does not run backwards, and the delay of a call, the server's clock at
  the pipeline minus the client's stamp, exceeds that of no earlier call by more than the expiry
  margin of 10 seconds. The delay is the time under way plus the difference of the two clocks, so a
  client's clock may be off by any amount, and ahead of the server's, while this holds.
  `RedisLimiter` moreover takes pipelines to run in stamp order, which `RedisReordering` drops.
- All workers of the outbox protocol read one clock (`OutboxLease`).
- Webhook payload fields are strings where present; a fallback uuid and the digest of a payload
  are inputs.

## Model

| member | source | states |
|---|---|---|
| SlidingWindow.OneWindowBound | backend/app/middleware/rate_limit.py:20-25 | a throttled history never has more than the limit of admissions in an interval as long as the window |
| SlidingWindow.WindowBound | backend/app/middleware/rate_limit.py:20-25 | k consecutive windows hold at most k times the limit |
| SlidingWindow.IdealIsThrottled | backend/app/middleware/rate_limit.py:33-34 | the exact sliding-window rule implies the throttling that the bounds rest on |
| MemoryLimiter.SlidingWindowRateLimiter.constructor | backend/app/middleware/rate_limit.py:27-31 | starts with an empty history |
| MemoryLimiter.SlidingWindowRateLimiter.IsAllowed | backend/app/middleware/rate_limit.py:33-46 | admits exactly when the full history has room in (now - window, now], and touches no other key |
| MemoryLimiter.SlidingWindowRateLimiter.ResetKey | backend/app/middleware/rate_limit.py:48-51 | forgets this key's admissions and no other key's |
| MemoryLimiter.StoredIsRemembered | backend/app/middleware/rate_limit.py:38-46 | on any clock, the pruned list holds just the admissions that no later call has pushed out |
| MemoryLimiter.RememberedIsFullHistory | backend/app/middleware/rate_limit.py:35-40 | on a nondecreasing clock pruning loses nothing that still counts |
| MemoryLimiter.BackwardClockForgets | backend/app/middleware/rate_limit.py:35-40 | a run on a clock that steps back admits three calls in a window limited to two |
| MemoryLimiter.RefinesFullHistory | backend/app/middleware/rate_limit.py:33-46 | under a nondecreasing clock the limiter's runs are exactly the runs of the rule on the full history |
| MemoryLimiter.AdmissionBound | backend/app/middleware/rate_limit.py:33-46 | any interval of k windows holds at most k times max_requests admissions |
| MemoryLimiter.DeniedCallsAreFree | backend/app/middleware/rate_limit.py:42-46 | deleting any denied calls leaves every other verdict as it was |
| MemoryLimiter.KeysAreIndependent | backend/app/middleware/rate_limit.py:30-46 | a history is a run exactly when each key's own calls are one |
| RedisLimiter.VerdictIsExact | backend/app/middleware/distributed_rate_limit.py:63-71 | a pipeline admits exactly when fewer than the limit of entries stand in the caller's window: neither pruning nor expiry loses one that counts |
| RedisLimiter.PipelineKeepsInv | backend/app/middleware/distributed_rate_limit.py:63-68 | a pipeline keeps the sorted set equal to the standing entries of the last window |
| RedisLimiter.UndoKeepsInv | backend/app/middleware/distributed_rate_limit.py:71-74 | so does the separate removal, at whatever later time it runs |
| RedisLimiter.ConcurrentAdmissionBound | backend/app/middleware/distributed_rate_limit.py:59-75 | for every interleaving of pipelines, run in stamp order, and removals, with clients dying between the two, k windows hold at most k times max_requests admissions |
| RedisLimiter.TentativeEntriesOnlyDeny | backend/app/middleware/distributed_rate_limit.py:70-74 | an admitted call is admissible on the full history; a call is denied beyond that exactly when denials not yet removed fill the room |
| RedisLimiter.SequentialIsIdeal | backend/app/middleware/distributed_rate_limit.py:59-75 | one call at a time, add-count-undo gives the verdicts of the full-history rule |
| RedisLimiter.LimitersAgree | backend/app/middleware/distributed_rate_limit.py:63-75 | on sequential runs with increasing stamps both limiters give the same verdicts, and expiry of the key is never seen |
| RedisLimiter.DeniedCallsAreFree | backend/app/middleware/distributed_rate_limit.py:71-75 | deleting denied calls from a sequential run leaves every other verdict as it was |
| RedisLimiter.EqualStampsCollapse | backend/app/middleware/distributed_rate_limit.py:65 | two calls with one stamp share an entry and both pass a limit of one |
| RedisLimiter.LatencyBeyondTheMargin | backend/app/middleware/distributed_rate_limit.py:67 | a pipeline delayed by more than the 10 second margin beyond an earlier one admits beyond the limit |
| RedisLimiter.SkewBeyondTheMargin | backend/app/middleware/distributed_rate_limit.py:59-67 | the same with both pipelines under way less than 10 seconds, the first from a client whose clock is ahead |
| RedisReordering.OrderedIsWithinNothing | backend/app/middleware/distributed_rate_limit.py:59-68 | running in stamp order is being overtaken by nothing |
| RedisReordering.VerdictInAnyOrder | backend/app/middleware/distributed_rate_limit.py:63-71 | for pipelines in any order a call is let in exactly when fewer than the limit of entries stand in its window that no pipeline run after them has pruned by its own stamp |
| RedisReordering.PipelineKeepsAnyOrderInv | backend/app/middleware/distributed_rate_limit.py:63-68 | in any order, a pipeline keeps the sorted set equal to the standing entries not pruned since |
| RedisReordering.UndoKeepsAnyOrderInv | backend/app/middleware/distributed_rate_limit.py:71-74 | and so does the separate removal |
| RedisReordering.ReorderedAdmissionBound | backend/app/middleware/distributed_rate_limit.py:59-75 | for every interleaving in which no pipeline is overtaken by stamps more than slack later, k windows shorter by the slack hold at most k times max_requests admissions |
| RedisReordering.FullWindowBound | backend/app/middleware/distributed_rate_limit.py:59-75 | a whole window then holds at most twice max_requests, while the slack is within half a window |
| RedisReordering.OvertakingAdmitsMore | backend/app/middleware/distributed_rate_limit.py:63-66 | four distinct calls in time, one of them overtaken, are all admitted: three in a window limited to two |
| RedisLimiter.Redis.ExecutePipeline | backend/app/middleware/distributed_rate_limit.py:63-68 | the server's atomic prune, add, count and expire, as the functions the invariant is about |
| RedisLimiter.Redis.ZRem | backend/app/middleware/distributed_rate_limit.py:73 | the server's removal of one entry, deadline unchanged |
| RedisLimiter.RedisSlidingWindowLimiter.IsAllowed | backend/app/middleware/distributed_rate_limit.py:52-75 | among the finished calls of all clients of the server, admits exactly when the full history has room, and leaves the entry of a denied call out; without a connection admits and records nothing |
| Revocation.TokenRevocationStore.constructor | backend/app/security/token_revocation.py:22-24 | starts with nothing revoked |
| Revocation.TokenRevocationStore.RevokeToken | backend/app/security/token_revocation.py:26-30 | records the token until its expiry |
| Revocation.TokenRevocationStore.IsRevoked | backend/app/security/token_revocation.py:32-42 | answers as a store that never forgets would: revoked and not past the recorded expiry |
| Revocation.TokenRevocationStore.Cleanup | backend/app/security/token_revocation.py:44-51 | removes exactly the expired entries and counts them |
| Revocation.TokenRevocationStore.Size | backend/app/security/token_revocation.py:53-57 | the number of stored entries |
| Revocation.ForgetsOnlyTheExpired | backend/app/security/token_revocation.py:38-50 | over every run, what is stored is what was last recorded, and what was dropped had expired |
| Revocation.RefinesNeverForgetting | backend/app/security/token_revocation.py:26-51 | every answer of every run is the one an ever-growing set would give |
| Revocation.DecodeToken | backend/app/security/jwt.py:75-106 | expiry first, then revocation, with the store lookup that this makes |
| Revocation.DecodeAgreesUnlessStraddling | backend/app/security/jwt.py:90-104 | it accepts what exp and a never-forgetting set accept, except exactly when a revoked token expires between the two clock readings |
| Revocation.StraddlingAcceptsRevoked | backend/app/security/token_revocation.py:38-41 | that exception occurs |
| RefreshChain.RefreshChainIsLinear | backend/app/api/v1/auth.py:230-272 | across every interleaving, each login has at most one unrevoked refresh token plus refresh waiting to mint exactly until a step splits it, and no refresh token is exchanged twice exactly if no step repeats one |
| RefreshChain.StepSplitsIff | backend/app/api/v1/auth.py:237-267 | a step splits a login if and only if it presents a revoked refresh token across its expiry while the login has an unrevoked one or a pending mint |
| RefreshChain.UnreusedChainIsLinear | backend/app/api/v1/auth.py:230-272 | both halves hold while no revoked refresh token is presented across its expiry, whatever else expires |
| RefreshChain.ExchangedTwiceIffStraddling | backend/app/api/v1/auth.py:237-253 | with no assumption on clock readings, a second exchange happens exactly when the token expires between two of them |
| RefreshChain.RevokedStaysRevoked | backend/app/api/v1/auth.py:213-225 | at any step after its identity entered the revocation record, a token decodes only if it expires between that step's clock readings, and then it does |
| RefreshChain.WithdrawnStaysWithdrawn | backend/app/api/v1/auth.py:213-253 | over every trace: once a step logs out a token that decodes, or exchanges it, every later step decodes it only if it expires between that step's clock readings |
| RefreshChain.LogoutSparesOthers | backend/app/api/v1/auth.py:203-225 | a logout changes the decoding of no other token, the access token of the same login included |
| RefreshChain.AcceptedAgainIffStraddling | backend/app/security/jwt.py:90-104 | a revoked token is accepted again exactly in the straddling case |
| RefreshChain.StraddlingRunExchangesTwice | backend/app/api/v1/auth.py:237-253 | a complete run in which one refresh token is exchanged twice and its login split |
| RefreshChain.StepIsGrounded | backend/app/api/v1/auth.py:170-272 | every step keeps: only issued tokens are revoked, with their own expiry, and every exchanged token is revoked |
| RefreshChain.AuthApi.CreateAccessToken | backend/app/security/jwt.py:34-48 | an access token with a fresh identity and the configured lifetime |
| RefreshChain.AuthApi.CreateRefreshToken | backend/app/security/jwt.py:51-72 | a refresh token with a fresh identity and the configured lifetime |
| RefreshChain.AuthApi.LoginUser | backend/app/api/v1/auth.py:186-192 | an access and a refresh token with new identities, this subject and their own lifetimes; the refresh token can be exchanged at once |
| RefreshChain.AuthApi.LogoutUser | backend/app/api/v1/auth.py:213-227 | an issued token that decodes is revoked and decodes no more unless it expires between two clock readings; any other string is ignored |
| RefreshChain.AuthApi.RefreshBeforeAwait | backend/app/api/v1/auth.py:237-253 | the step up to the await: it proceeds exactly when an issued token exchanges, and has then revoked it; any other string is refused |
| RefreshChain.AuthApi.RefreshAfterAwait | backend/app/api/v1/auth.py:255-272 | refused exactly for an inactive user; else a new access and a new refresh token for the subject of the exchanged one, the latter exchangeable at once |
| OutboxWorker.OutboxRepository.ClaimPendingEvents | backend/app/domain/outbox/repository.py:35-89 | reclaims expired leases, claims the selected rows with one more attempt, and leaves every other row alone |
| OutboxWorker.OutboxRepository.MarkProcessed | backend/app/domain/outbox/repository.py:91-101 | changes one row, and nothing on a broken session |
| OutboxWorker.OutboxRepository.MarkRetryable | backend/app/domain/outbox/repository.py:103-121 | changes one row, due again 60 seconds later |
| OutboxWorker.OutboxRepository.MarkFailed | backend/app/domain/outbox/repository.py:123-134 | changes one row, for good |
| OutboxWorker.Worker.RunAutomation | backend/app/workers/__init__.py:116-135 | the session after booking automation's own writes, commits and rollbacks |
| OutboxWorker.Worker.TryEvent | backend/app/workers/__init__.py:89-140 | succeeds exactly when handler, session and commit do; then the event is settled, otherwise only what automation committed is durable |
| OutboxWorker.Worker.HandleEvent | backend/app/workers/__init__.py:88-173 | leaves a clean session whose durable state is the event handled alone |
| OutboxWorker.Worker.ProcessOutboxEvents | backend/app/workers/__init__.py:72-175 | the durable result is the batch handled event by event, the count is that of the successes; an empty claim or a lost claim commit changes nothing |
| OutboxBatch.EventInIsolation | backend/app/workers/__init__.py:88-173 | an event changes its own row only and adds its orchestrator writes, all or none, as its row and plan alone decide |
| OutboxBatch.AtomicUnlessAutomationEndsTransaction | backend/app/workers/__init__.py:113-164 | in what a batch leaves durable, an event's writes are there, all or none, just when its row is PROCESSED, if and only if automation did not commit an event that failed or roll back one that was then processed |
| OutboxBatch.PlainEventIsAtomic | backend/app/workers/__init__.py:88-173 | without automation, writes are durable exactly when the row is PROCESSED, whatever fails |
| OutboxBatch.AutomationCommitOutlivesFailure | backend/app/domain/booking_automation/service.py:274-277 | an event put back for retry can have durable notifications already |
| OutboxBatch.AutomationRollbackLosesNotifications | backend/app/domain/booking_automation/service.py:308-312 | an event can be PROCESSED without its notifications |
| OutboxBatch.ClaimedBatch | backend/app/domain/outbox/repository.py:66-89 | a claim is a batch of distinct PROCESSING rows, within the batch size, each with its incremented attempt |
| OutboxBatch.BatchIsPointwise | backend/app/workers/__init__.py:88-173 | each row and each event's writes end as if the event were handled alone; rows outside the batch keep their value |
| OutboxBatch.CountIsNewlyProcessed | backend/app/workers/__init__.py:138-140 | the returned count is the number of rows newly PROCESSED |
| OutboxBatch.EventUnaffectedIffBenign | backend/app/workers/__init__.py:64-68 | an event comes out the same with and without automation exactly when automation is benign on it |
| OutboxBatch.AutomationDoesNotInterfere | backend/app/workers/__init__.py:113-140 | over a batch, rows and orchestrator writes are those of a pass without automation if and only if automation is benign on every event, and then the count is too |
| OutboxOutcomes.RefusedEventFails | backend/app/workers/__init__.py:89-164 | an event whose handler raises, or a voice event without a voice service, ends RETRYABLE 60 seconds later or FAILED with 1000 characters of its error, not PROCESSED, and none of its writes are durable |
| OutboxOutcomes.PlainEventIsProcessed | backend/app/workers/__init__.py:102-140 | without automation, an event whose handler returns is PROCESSED, with exactly the writes of its handler, if and only if the commit succeeds; otherwise it fails with none |
| OutboxOutcomes.BookingEventIsProcessed | backend/app/workers/__init__.py:116-140 | when automation only adds rows, the rows of handler and automation are there together exactly if the commit succeeds, whether or not automation raises |
| OutboxOutcomes.CountIsOfReturningHandlers | backend/app/workers/__init__.py:138-140 | the returned count never exceeds the number of handlers that return |
| OutboxOutcomes.ClaimTakesTheDue | backend/app/domain/outbox/repository.py:50-78 | a claim takes only unlocked rows that are due or whose lease ran out, the longest due first, and leaves none of these while it has a place |
| OutboxOutcomes.ClaimedRowsAreStamped | backend/app/domain/outbox/repository.py:50-84 | the row after a claim, field by field, whether claimed, reclaimed or neither |
| OutboxLease.LeaseExcludes | backend/app/workers/__init__.py:74-88 | if a whole batch fits in the lease, no event is ever held by two live workers |
| OutboxLease.NoLateOverwrite | backend/app/domain/outbox/repository.py:91-134 | then every update by id settles the very claim its worker made |
| OutboxLease.TerminalIsFinal | backend/app/workers/__init__.py:137-167 | then a PROCESSED or FAILED row never changes again |
| OutboxLease.StepKeepsInv | backend/app/domain/outbox/repository.py:52-84 | every step of claiming, settling, crashing and waiting keeps the lease invariant |
| OutboxLimits.PutBackBound | backend/app/workers/__init__.py:155-164 | in every run, crashes and overlapping claims included, an event is put back by its workers at most max_attempts - 1 times (recoveries of expired leases are counted in OutboxAccount) |
| OutboxLimits.CrashesEscapeTheLimit | backend/app/domain/outbox/repository.py:52-84 | an event whose workers crash reaches any attempt count without failing |
| OutboxAccount.AttemptsAreConserved | backend/app/domain/outbox/repository.py:81-84 | in every run, crashes and overlapping leases included, each attempt of an event is in hand, put back, settled or lost, exactly one of them |
| OutboxAccount.AttemptAccount | backend/app/workers/__init__.py:155-173 | with a sufficient lease, attempts are those put back plus those lost, plus one if the event is settled or held |
| OutboxAccount.LimitHoldsButForLosses | backend/app/workers/__init__.py:155-164 | attempts exceed max_attempts by no more than the losses, and a row in processing that no worker holds is one whose claim was lost |
| OutboxAccount.LimitHoldsWithoutLosses | backend/app/config.py:153-155 | in every run of any number of workers without crash or unrecorded error, attempts never exceed max_attempts (at least one is made) |
| OutboxLimits.LeaseMustCoverTheBatch | backend/app/domain/outbox/repository.py:49-64 | with any shorter lease a reachable state has two live workers holding one event |
| OutboxDrain.PassUsesWork | backend/app/workers/__init__.py:86-175 | each event a pass handles uses up one of the remaining attempts, except failures that could not be recorded |
| OutboxDrain.HandlingIsBounded | backend/app/workers/__init__.py:155-173 | over all passes the events handled never exceed the attempts remaining at the start by more than the unrecorded failures |
| Outbox.SelectionExists | backend/app/domain/outbox/repository.py:66-78 | for every table, time, batch size and locks the claiming query has an answer |
| OutboxDrain.EventuallyDue | backend/app/domain/outbox/repository.py:53-75 | there is a time from which every unsettled row can be claimed |
| OutboxDrain.NextPassExists | backend/app/workers/__init__.py:72-81 | from every table there is a next pass that comes late enough |
| OutboxDrain.PassKeepsStamps | backend/app/domain/outbox/repository.py:81-84 | a pass leaves every row in processing with the time it was claimed |
| OutboxDrain.EmptyPassMeansDone | backend/app/workers/__init__.py:80-81 | once everything is due, a pass finds nothing exactly when every event is PROCESSED or FAILED |
| OutboxDrain.DrainCompletes | backend/app/workers/__init__.py:74-175 | late enough passes leave every event PROCESSED or FAILED after at most as many passes as attempts remained, plus one for each unrecorded failure |
| Membership.BusinessApi.RegisterUser | backend/app/api/v1/auth.py:120-131 | one account per address |
| Membership.BusinessApi.RequireOwner | backend/app/api/v1/businesses.py:231-265 | which failure, if any, keeps the user from acting as an owner |
| Membership.BusinessApi.CreateBusinessFor | backend/app/api/v1/businesses.py:323-341 | the request as a transaction: the state of DoCreate or the state before |
| Membership.BusinessApi.TransitionBusiness | backend/app/api/v1/businesses.py:452-482 | the request as a transaction, aborted by a taken idempotency key |
| Membership.BusinessApi.AddMemberTo | backend/app/api/v1/businesses.py:624-648 | the request as a transaction, aborted by the unique constraint |
| Membership.BusinessApi.RemoveMemberFrom | backend/app/api/v1/businesses.py:668-716 | the request as a transaction |
| Membership.BusinessApi.InviteMember | backend/app/api/v1/businesses.py:765-831 | the request as a transaction, failing when the lookup finds two rows |
| Membership.BusinessApi.UpdateMemberRole | backend/app/api/v1/businesses.py:890-941 | the request as a transaction |
| Membership.BusinessApi.AcceptInvitation | backend/app/api/v1/businesses.py:968-1018 | the request as a transaction: membership and used invitation together or neither |
| MembershipRuns.EveryBusinessHasAnOwner | backend/app/api/v1/businesses.py:684-697 | after every run each business has a live owner and each user at most one membership row per business |
| MembershipRuns.StepKeepsOwned | backend/app/api/v1/businesses.py:331-336 | every request keeps the ownership invariant |
| MembershipRuns.RemovalNeverHitsLastOwner | backend/app/api/v1/businesses.py:684-697 | the last-owner guard of removal is never reached |
| MembershipRuns.DemotionHitsLastOwnerIff | backend/app/api/v1/businesses.py:908-918 | the last-owner guard of role changes fires exactly when the only owner steps down |
| MembershipRuns.RemovedForGood | backend/app/domain/identity/models.py:184 | after a removal the user is a member of that business in no later state |
| MembershipRuns.AddSucceedsIff | backend/app/api/v1/businesses.py:624-648 | after every run, adding succeeds exactly for a registered user who never was a member of the business, and ends in the constraint exactly for a former member |
| MembershipRuns.RowIffEverMember | backend/app/domain/identity/models.py:184 | the row that the unique constraint looks at exists exactly for whoever was a member after some prefix of the run |
| MembershipRuns.RemoveSucceedsIff | backend/app/api/v1/businesses.py:668-716 | over all reachable states, removing succeeds exactly when an owner asks for another live member, and ends that membership only |
| MembershipRuns.RoleChangeSucceedsIff | backend/app/api/v1/businesses.py:890-941 | the exact condition for a role change, and that it changes this role only |
| MembershipRuns.OneUsableInvitation | backend/app/api/v1/businesses.py:783-794 | at every moment at most one unused, unexpired invitation per business and address |
| MembershipRuns.InvitationAdmitsItsAddressee | backend/app/api/v1/businesses.py:796-803 | a fresh invitation can be accepted exactly by a user with the normalized address, who never was in the business, within seven days, and gives the invited role |
| MembershipRuns.InviteSucceedsIff | backend/app/api/v1/businesses.py:765-831 | the exact condition, over all reachable states, for an invitation to be made |
| MembershipRuns.StaleInvitationsBlockForever | backend/app/api/v1/businesses.py:784-792 | two expired unused invitations make every later one for that address fail |
| MembershipRuns.TwoInvitationsGoStale | backend/app/api/v1/businesses.py:784-803 | from every state in which an address without an invitation is invited: after seven days a second invitation succeeds, and the one after that fails |
| MembershipRuns.FoundingRun | backend/app/api/v1/businesses.py:323-341 | a registration and a foundation lead to such a state |
| MembershipRuns.FounderMayInvite | backend/app/api/v1/businesses.py:765-831 | where the founder may invite any address but his own |
| MembershipRuns.AcceptSucceedsIff | backend/app/api/v1/businesses.py:974-1005 | the exact condition for an acceptance, its whole effect, and that it cannot be repeated |
| MembershipRuns.UsedInvitationsAreMemberships | backend/app/api/v1/businesses.py:998-1005 | used invitations and accepted memberships correspond one to one, with matching business, address and role |
| MembershipRuns.StatusTrailReplays | backend/app/api/v1/businesses.py:455-482 | after every run the committed status events of a business form an unbroken path of allowed steps from pending to its status |
| MembershipRuns.TransitionSucceedsIff | backend/app/api/v1/businesses.py:452-482 | after every run a transition succeeds exactly when an owner asks for an allowed step, unless it suspends or resumes and the run already made that step within the same second; it changes that status alone, or nothing |
| MembershipRuns.SecondSuspensionAborts | backend/app/api/v1/businesses.py:478-481 | from every active business: suspended and resumed, it cannot be suspended again within the second |
| MembershipRuns.RecordedIffStepped | backend/app/api/v1/businesses.py:464-482 | a status event with its second is on file exactly when the run made that step in that second |
| MembershipRuns.DeactivatedIsFinal | backend/app/domain/common/enums.py:299-305 | no run leads out of deactivated |
| MembershipRules.SlugsAndAddressesAreUnique | backend/app/api/v1/businesses.py:323-325 | after every run no two businesses share a slug and no two accounts an address |
| MembershipRules.CreateSucceedsIff | backend/app/api/v1/businesses.py:323-341 | after every run, founding succeeds exactly for a registered user and a slug that no business has; it adds one pending business whose only member is the founder as live owner, and refused it changes nothing |
| MembershipRules.ManagersAreOwners | backend/app/api/v1/businesses.py:231-265 | exactly the users with a live owner's row pass the check in front of management requests |
| MembershipRules.StrangersAreRefused | backend/app/api/v1/businesses.py:231-265 | the failure of everybody else, in the order of the checks |
| MembershipRules.RegisterAddsAccount | backend/app/api/v1/auth.py:121-132 | an address on file is refused as a conflict, any other is added |
| MembershipRules.AddAddsRow | backend/app/api/v1/businesses.py:624-648 | the database after an addition, row by row: one new row exactly if an owner asks and the account has none in the business |
| MembershipRules.RemoveEndsRow | backend/app/api/v1/businesses.py:668-716 | the database after a removal: one row ended and one event exactly if an owner asks for somebody else's present membership, and otherwise nothing |
| MembershipRules.ChangeRoleChangesRow | backend/app/api/v1/businesses.py:890-941 | the database after a role change, with the last owner and the same-second event as the only further refusals |
| MembershipRules.InviteAddsRow | backend/app/api/v1/businesses.py:765-831 | the database after an invitation: a row open for seven days exactly if an owner asks and the address is free, by a quantifier over members and invitations |
| MembershipRules.AcceptAddsRow | backend/app/api/v1/businesses.py:974-1005 | the database after an acceptance, and exactly when it is accepted |
| MembershipRules.AddressIsNormalized | backend/app/api/v1/businesses.py:768 | an address is compared in small letters and without blanks, tabs and line ends around it |
| MembershipRules.AcceptanceIsRefused | backend/app/api/v1/businesses.py:974-992 | which acceptances are refused as not found, invalid or made out to somebody else |
| MembershipRules.TransitionChangesStatus | backend/app/domain/common/enums.py:299-305 | the database after a transition, with the six allowed steps named and the same-second event as the only further refusal |
| MembershipRules.LifecycleRuns | backend/app/domain/common/enums.py:299-305 | from its foundation on a business takes each of the six steps |
| MembershipRules.OwnersAreRefused | backend/app/api/v1/businesses.py:455-700 | which owner's requests are refused as not found, as removal of oneself, as demotion of the last owner or as a bad transition |
| MembershipRules.StrangersAreNotAdded | backend/app/api/v1/businesses.py:627-630 | an address without an account is refused as not found |
| MembershipRules.AdditionIsRefused | backend/app/api/v1/businesses.py:632-648 | an owner's addition is refused as a conflict exactly for a present member, otherwise by the constraint |
| MembershipRules.InvitationIsRefused | backend/app/api/v1/businesses.py:770-794 | an owner's invitation fails on several rows exactly if two unused ones are on file and no present member has the address; else a refusal is a conflict |
| Webhooks.Lookup | backend/app/api/v1/communications.py:710-716 | no row, the one row, or several: of the attempts with this reference |
| Webhooks.CommunicationApi.Send | backend/app/domain/communication/orchestration.py:339-380 | a send adds one communication and its one attempt, with a reference only when accepted |
| Webhooks.CommunicationApi.ReceiveWebhook | backend/app/api/v1/communications.py:645-679 | duplicate, processed or failed, and the whole state after; a failed request leaves nothing |
| Webhooks.CommunicationApi.ProcessResendDelivery | backend/app/api/v1/communications.py:738-795 | the state after a Resend receipt, and when it fails |
| Webhooks.CommunicationApi.ProcessVonageDelivery | backend/app/api/v1/communications.py:798-873 | the state after a Vonage receipt, and when it fails |
| WebhookRuns.LastEffectiveReceiptDecides | backend/app/api/v1/communications.py:762-783 | after every run each attempt and its communication have the status told by the last effective, first recorded receipt about them |
| WebhookRuns.AuditLogReplays | backend/app/api/v1/communications.py:785-795 | as many audit rows as effective first receipts, and the log alone gives back every status they set |
| WebhookRuns.RedeliveriesAreAbsorbed | backend/app/api/v1/communications.py:665-667 | for every run, removing every delivery but the first of each provider event changes no table if and only if no event is recorded by a later delivery than its first |
| WebhookRuns.FaithfulRecordsNothingLate | backend/app/api/v1/communications.py:665-667 | so redeliveries are absorbed from a provider whose repetitions repeat the news |
| WebhookRuns.UniqueReferencesRecordAll | backend/app/api/v1/communications.py:754-760 | and from any provider while no two attempts share a reference |
| WebhookRuns.LateRecordingHappens | backend/app/api/v1/communications.py:754-760 | a run with an ambiguous reference whose redelivery is not absorbed |
| WebhookRuns.FailedReceiptIsForgotten | backend/app/api/v1/communications.py:665-679 | a receipt leaves its event id unrecorded exactly when it fails, and then changes nothing |
| WebhookRuns.EarlyReceiptIsLost | backend/app/api/v1/communications.py:754-760 | a receipt before its attempt is stored leaves the tables as if it had never come nor been repeated |
| WebhookRuns.VonageIdsAreFaithful | backend/app/api/v1/communications.py:688-694 | Vonage receipts have one event id exactly when they agree on message and status |
| WebhookNews.EmailIsTold | backend/app/api/v1/communications.py:762-795 | over every run, the first receipt of a Resend event leaves DELIVERED, BOUNCED, FAILED or COMPLAINED, as its type says, on attempt, communication and last audit row, channel EMAIL |
| WebhookNews.PhoneIsTold | backend/app/api/v1/communications.py:830-873 | over every run, the first receipt of a Vonage status, in any letter case, leaves DELIVERED, FAILED or SUCCESS on all three with the provider's channel, and a failure its error text |
| WebhookNews.NothingElseIsTold | backend/app/api/v1/communications.py:738-841 | every other receipt leaves attempts, communications and audit log as they were |
| WebhookNews.DuplicateIff | backend/app/api/v1/communications.py:645-699 | a receipt is a duplicate exactly when its provider and its id, by payload field, are on file; it is then on file unless it failed |
| WebhookNews.FailsIff | backend/app/api/v1/communications.py:754-760 | a receipt fails exactly when it looks up a reference that two attempts share: every Resend event does, a Vonage one only with news |
| WebhookNews.SendStarts | backend/app/domain/communication/orchestration.py:356-377 | the statuses a send starts with, accepted, refused or to be retried |
| Slug.SlugifyJoinsPieces | backend/app/api/v1/service_categories.py:35-40 | the pipeline joins with dashes the nonempty pieces of the lowered, filtered name |
| Slug.SlugsAreFixedPoints | backend/app/api/v1/businesses.py:59 | the strings of the slug grammar are exactly the nonempty fixed points |
| Slug.SlugifyIsIdempotent | backend/app/api/v1/service_categories.py:35-40 | a nonempty slug lies in the grammar, and slugging again changes nothing |
| Slug.SplittingRecoversPieces | backend/app/api/v1/service_categories.py:37-40 | splitting at dashes gives back the pieces |
| Slug.EmptySlug | backend/app/api/v1/service_categories.py:107-110 | the slug is empty exactly when no letter or digit survives lowercasing |
| Slug.CategoryApi.CreateCategory | backend/app/api/v1/service_categories.py:94-134 | the one live category with the name's slug, created or existing; the exact cases of refusal, by a quantifier over the rows |
| SlugWords.SpacedWordsAreDashed | backend/app/api/v1/service_categories.py:35-40 | a name of words over a-z0-9, with any blanks, tabs, line ends and dashes around and between them, has as slug the words joined by single dashes |
| SlugWords.TwoWords | backend/app/api/v1/service_categories.py:35-40 | the same for two words with any gap and margins |
| SlugWords.OneCharBetween | backend/app/api/v1/service_categories.py:37-40 | what each single character between two words becomes: a dash, itself, its small letter, or nothing |
| SlugWords.CaseDoesNotMatter | backend/app/api/v1/service_categories.py:37 | replacing capitals by the small letters of the same place in the alphabet leaves the slug unchanged |
| Money.MinorRoundTrip | backend/app/adapters/payment/stripe_provider.py:63-80 | minor units survive conversion and back exactly when they need at most 28 significant digits or the currency has no minor unit |
| Money.DecimalRoundTrip | backend/app/adapters/payment/stripe_provider.py:63-80 | a Decimal survives conversion and back exactly when it is a whole number of minor units within 28 digits |
| Money.CutsTowardsZeroIff | backend/app/adapters/payment/stripe_provider.py:69-72 | the conversion cuts the exact number of minor units towards zero, so by less than one, if and only if rounding to 28 digits keeps the amount within its minor unit |
| Money.FittingConverts | backend/app/adapters/payment/stripe_provider.py:69-72 | it does for every amount of at most 28 digits, hence for all that a numeric(12, 2) column holds |
| Money.PartialRefunds | backend/app/adapters/payment/stripe_provider.py:235-241 | n partial refunds convert to at most their sum converted, and to at most n - 1 minor units less |
| Money.RefundsBeyondPrecision | backend/app/adapters/payment/stripe_provider.py:235-241 | beyond 28 digits partial refunds can convert to more than their sum |
| Money.RoundedFits | backend/app/adapters/payment/stripe_provider.py:72-80 | rounding to 28 digits is idempotent, also when it carries into a 29th |
| Money.NoMinorUnitIff | backend/app/adapters/payment/stripe_provider.py:69-70 | the currencies without a minor unit, letter by letter in any case |
| Money.AmountsInFigures | backend/app/adapters/payment/stripe_provider.py:63-80 | amounts of up to twelve digits, in figures, both ways |
| Money.FurtherPlaceIsCut | backend/app/adapters/payment/stripe_provider.py:71-72 | a place beyond the minor unit is cut off, not rounded |
| Money.SignIsKept | backend/app/adapters/payment/stripe_provider.py:63-72 | a negative amount converts to the negative of its positive one |
| Money.LastDigitGoes | backend/app/adapters/payment/stripe_provider.py:72-80 | 28 digits survive, and the 29th is rounded with a five to the even neighbour |

## Left out

- External providers (mail, SMS, voice, Stripe, calendars, accounting): handlers are oracles that write session state and succeed or raise.
- JWT signing, password hashing and webhook signatures: tokens and requests are records.
- The middleware around the limiters and proxy headers.
- A commit that is durable although it raises, and commits by other sessions that become visible inside a batch.
- Write skew between concurrent membership requests: requests are serial transactions.
- Soft deletion of users, businesses and invitations, which these endpoints never do, and the profile, listing and schema endpoints.
- Webhook payloads with values that are not strings, columns too short for a value, and the Twilio event types: those receipts are recorded but not processed.
- Lowercasing to characters outside ASCII: they are removed by the next step of the slug pipeline; emails keep them.
- Retries of failed booking automation, and the records that automation keeps of itself.
- Stripe event parsing and the status maps: easy members.
- Money.PartialRefunds: requires that the parts and the sum are converted by cutting, of which Money.CutsTowardsZeroIff gives the exact condition; Money.RefundsBeyondPrecision shows that it is needed.
- OutboxDrain.DrainCompletes: passes are not cut short by a crash, as a crash escapes the attempt limit (OutboxLimits.CrashesEscapeTheLimit); what crashes cost is counted by OutboxAccount.AttemptAccount.
- RedisLimiter.RedisSlidingWindowLimiter.IsAllowed: a connection lost between the pipeline and the removal, or during either, is not modelled; the code then lets the call in.
- RefreshChain.AuthApi.CreateAccessToken: without extra claims, which no caller in the repository passes.
