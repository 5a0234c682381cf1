# Thittam: protocols, algorithms and codecs, verified

A Dafny model of the parts of Thittam (a multi-tenant back office in Go) whose correctness is argued
in comments rather than in types: session revocation, the phase-transition validator, the tenant
retention clock, the two-person purge, the registration saga, the transactional outbox, the audit
buffer, the login rate limiter, the config override merge and the argon2id hash string.

Protocols that run concurrently (sessions, purge, lifecycle, outbox, audit, rate limit) are state
machines with one action per Redis command, SQL statement or channel operation; their theorems speak
of every run. Beside each machine stands a class whose methods follow the program call by call. Between
any two commands of such a call the method `Others` (or `Producers`) lets everyone else take any enabled
actions, and a command may fail. The class keeps a ghost history that is a run of the machine, so the
theorems hold of what the methods do; its constant `reliable` (in the saga `allSucceed`) stands for an
environment in which no call fails, where the methods must not report an error. Loops and in-place
updates of the program are loops and in-place updates here, proved against specification functions.

| file | models |
|---|---|
| `Sessions.dfy`, `TokenIssuer.dfy` | refresh tokens, generation counters, revocation |
| `Revocation.dfy` | exactly when a refresh is accepted, and a revocation that is forgotten |
| `PhaseGraph.dfy` | the three-colour search and what an admitted phase graph guarantees |
| `Purge.dfy`, `PurgeService.dfy` | request, approve, cancel and execute a tenant purge |
| `Lifecycle.dfy`, `LifecycleService.dfy` | billing consumer, retention clock, sweeper |
| `Saga.dfy` | tenant registration with durable progress and compensation |
| `Outbox.dfy`, `OutboxRelay.dfy` | outbox conservation, relay batches, dead-letter rule |
| `OutboxBacklog.dfy` | what refused events do to those behind them |
| `Audit.dfy` | channel, flush loop, Close |
| `RateLimit.dfy` | fixed-window counter |
| `Merge.dfy` | remove, override and append by ID, in place |
| `Argon2id.dfy` | hash string printer, parser and verification, with base64 |
| `Prelude.dfy` | Option, runs, fresh identifiers |

What is taken as given: a Redis command, a SQL statement and a database transaction are atomic, as is
the GET+DEL pipeline that consumes a refresh token (the program declares it so); random identifiers do
not collide; the clock does not run backwards; a failed external call of the saga has no effect and its
store writes succeed, while its reads may fail; the relay reads its clock at the moment its mark is
answered. Company names stand in the normalised form in which they are compared; tenants that no saga
created may hold any names and change between calls. Purge and lifecycle runs contain no operator
SuspendTenant call, which sets the status without a guard.

Six things the program is meant to do, it does only under a condition, which is proved both ways:

- A revocation is meant to end every session of a user or tenant. `Revocation.AcceptedIffCountsAgree`:
  a refresh is accepted if and only if both counters were bumped as often since their keys last expired
  as when the login read them. By `Revocation.BumpUndoneIff` a revocation is forgotten if and only if
  the key expired after the login's read and was then bumped exactly as often as the login had read.
  `Revocation.RevocationForgotten` is such a run for every identity and every token lifetime above one
  clock unit, with no failed call and every call on time: the comment at `pkg/auth/jwt.go:279-286`,
  which calls the expiry pure housekeeping that fails closed, does not hold.
- An email is meant to have one tenant. `Saga.SecondTenantIff`: the saga that Start opens gives the email
  a second live tenant if and only if an earlier saga of it is `compensating` or `compensation_failed`
  with its tenant still there and no tenant bears the company name asked for. `Saga.SecondTenantHappens`
  shows both ways to get there, a process that stops while compensating and a tenant deletion that fails
  with no stop at all: another name gives a second tenant, the same name does not. Under the same name
  the retry fails at its first step (`Saga.SameNameIsRefused`), after which Start opens no saga for the
  email. `Saga.TwoTenantsOneHalfUndone` is the matching promise for every state, whatever stopped or
  failed. Start also opens a saga when looking up the email fails for any reason; the promises leave out
  emails to which that happened, and only those.
- A suspension is meant to end the tenant's sessions. `Lifecycle.SessionsEndedIff`: it does if and only
  if the consumer did not give up between the status write and the session bump, for the redelivery is
  acked without effect. `Lifecycle.SuspendedButNotRevoked` is such a run.
- Overrides are meant to be independent of map order. `Merge.OrdersAgreeIffNoHarm`: all visits of the map
  give one result if and only if no override renames its item to the ID of another override, ahead of
  that one's own item, such that the other override changes either of the two items.
- A pending event is meant to be published while the broker is up. `OutboxBacklog.PublishedIff`: a batch
  publishes it if and only if it is not locked, fewer older rows than the limit are ahead of it, and the
  broker does not refuse it. `OutboxBacklog.RelayStuck`: with a full batch of refused rows ahead and no
  success under five minutes old, the relay publishes and dead-letters nothing for as long as they are
  refused; `OutboxBacklog.StuckRunExists` is such a run for every batch size and number of ticks.
- The limiter is meant to admit again after its window. `RateLimit.RefusedForeverIff`: a client is refused
  for ever if and only if the EXPIRE of its key was lost and the limit is used up;
  `RateLimit.LostExpireLocksOut` is such a run for every limit. With every command answered it never
  happens (`RateLimit.NoLockout`); an INCR whose answer is lost counts as a lost EXPIRE, for nobody sends one.

The comment on the relay's healthy window allows a poison row its fifth attempt within 75 s; since the
claim itself counts the attempt, the row is parked at its fifth failing tick, not later.

## Model

| member | source | states |
|---|---|---|
| Sessions.InvStep | pkg/auth/jwt.go:152-310 | every command of every interleaved Issue, Refresh, Revoke and RevokeAll call, every expiry and every failed call keeps the invariant: payloads equal their login's record, a login has one holder, an unbumped counter shows the login's value and a bumped one a greater value until its key may go |
| Sessions.TimedInvStep | pkg/auth/jwt.go:236-295 | with calls ending within half a token lifetime, tokens and calls of a login whose counter was bumped at time t end before t + 1.5 and t + 2 lifetimes |
| Sessions.LineageTheorem | pkg/auth/jwt.go:164-213 | in every reachable state a live token carries its login's identity and pair, no second live token has the same login, and no running call could store one |
| Sessions.TokenCarriesItsLogin | pkg/auth/jwt.go:231-257 | however often refreshed, a token's pair is exactly what the two counter reads of its login's Issue call returned |
| Sessions.StaleReadIsRefused | pkg/auth/jwt.go:236-238 | a refresh that reads a value other than its login's never succeeds afterwards |
| Sessions.RevokedWhileKept | pkg/auth/jwt.go:215-257 | over every interleaving, no refresh whose compare-read follows a user or tenant bump succeeds for a login that read the counter before the bump, as long as the key did not expire in between |
| Sessions.ReadMatchesIffNotBumped | pkg/auth/jwt.go:424-446 | while the key has not expired since a login's read, a later read shows the login's value if and only if the counter was not bumped in between |
| Sessions.RevokedForGood | pkg/auth/jwt.go:277-310 | a sufficient condition that needs no count: with timely calls the bump holds for ever, also after the counter key has expired, if the key had not expired between the login's read and the bump and the bump created it or its EXPIRE ran |
| Sessions.FirstBumpRevokesForGood | pkg/auth/jwt.go:277-295 | the first bump of a never-set counter revokes every earlier login for good |
| Sessions.TokenStaysUntilTaken | pkg/auth/jwt.go:392-422 | in every step a live token stays as it is unless it is consumed, deleted or reaches its deadline, and then it is gone |
| Sessions.TokenAppears | pkg/auth/jwt.go:371-388 | a token appears only by the store of a call, under a fresh name, with one token lifetime from that moment and what the call holds |
| Sessions.CounterKeyStep | pkg/auth/jwt.go:277-310 | a counter key goes only at its deadline, which only its own EXPIRE sets, to two lifetimes on |
| Sessions.CallStep | pkg/auth/jwt.go:152-310 | a call is opened at its beginning and moves on only by its own commands, in their order and with what it has read |
| Revocation.CounterIsBumpsSince | pkg/auth/jwt.go:420-446 | at any moment of any run a counter reads as the number of its bumps since its key last expired |
| Revocation.AcceptedIffCountsAgree | pkg/auth/jwt.go:217-257 | over every interleaving, a refresh that reads both counters is accepted if and only if each was bumped as often since its last expiry as when the login read it |
| Revocation.BumpUndoneIff | pkg/auth/jwt.go:277-295 | a bump after a login's read is no longer seen if and only if the key expired in between and, since it last did, was bumped exactly as often as the login had read |
| Revocation.RevocationForgotten | pkg/auth/jwt.go:279-286 | for every identity and every token lifetime above one clock unit there is a timely run without a failed call in which a completed RevokeAll follows the login and its session is refreshed all the same |
| TokenIssuer.JWTIssuer.Issue | pkg/auth/jwt.go:152-213 | under interference, the stored token carries the caller's identity and the two values read on the way |
| TokenIssuer.JWTIssuer.Validate | pkg/auth/jwt.go:223-238 | the refresh goes on if and only if both values read equal the token's pair |
| TokenIssuer.JWTIssuer.Refresh | pkg/auth/jwt.go:217-257 | the old token is consumed; success exactly when both counters showed its pair; the new token has the very same payload whatever was bumped meanwhile; not-found means the token was absent |
| TokenIssuer.JWTIssuer.Store | pkg/auth/jwt.go:371-388 | the token stored under a fresh name holds the identity and pair the call carried, with the call itself as lineage for a login and the carried lineage for a refresh |
| TokenIssuer.JWTIssuer.Revoke | pkg/auth/jwt.go:260-270 | one DEL: the token is gone, all others stay, and the answer says whether it was there; exactly a failed DEL is reported as an error, and the token may then be gone or not |
| TokenIssuer.JWTIssuer.RevokeAll | pkg/auth/jwt.go:277-310 | the counter went up by one at some step of the call, and at a later one its expiry was set if and only if the key was still there |
| PhaseGraph.CycleSearch.Dfs | pkg/vertical/validator.go:430-450 | the coloured search terminates; afterwards either the graph has a cycle or the node is black, the stack is back and the finishing order is still closed under edges |
| PhaseGraph.DetectCycle | pkg/vertical/validator.go:425-456 | for every list of phases, a cycle is found if and only if the graph over the known IDs has one |
| PhaseGraph.ClosedOrderHasNoCycle | pkg/vertical/validator.go:449-462 | an order in which every edge leads back to an earlier node rules out every cycle |
| PhaseGraph.ValidatePhaseTransitions | pkg/vertical/validator.go:382-465 | the reported errors are the unknown references, the missing terminal state, and the cycle if and only if there is one, as ErrorsInOrder spells out |
| PhaseGraph.ErrorsInOrder | pkg/vertical/validator.go:382-465 | the errors begin with exactly one report for each transition to an ID that no phase bears, naming its phase and its target, by phase and then by target; then the missing terminal state exactly if every phase has transitions, then the cycle exactly if there is one |
| PhaseGraph.UnknownReportedIff | pkg/vertical/validator.go:392-402 | a reference is reported if and only if some phase of that ID names a target that no phase bears |
| PhaseGraph.CheckDuplicateIDs | pkg/vertical/validator.go:467-477 | one report for each position whose ID occurred before |
| PhaseGraph.NoDuplicatesIffDistinct | pkg/vertical/validator.go:467-477 | no report if and only if all IDs are distinct |
| PhaseGraph.DuplicatesAreCounted | pkg/vertical/validator.go:467-477 | reports plus distinct IDs make up the length of the list |
| PhaseGraph.DuplicatesInOrder | pkg/vertical/validator.go:467-477 | the duplicates are reported for exactly the positions whose ID occurred before, in order, each with its ID |
| PhaseGraph.AcyclicWalkIsShort | pkg/vertical/validator.go:419-462 | without a cycle every walk visits distinct nodes, so it is no longer than there are nodes |
| PhaseGraph.TerminalAhead | pkg/vertical/validator.go:392-417 | in an acyclic graph without unknown targets every walk can be continued to a node without transitions |
| PhaseGraph.AdmittedWalkIsShort | pkg/vertical/helpers.go:28-46 | if both checks report nothing, every walk services can take through FindPhaseType and CanTransitionTo has fewer steps than there are phases |
| PhaseGraph.AdmittedWalkReachesTerminal | pkg/vertical/helpers.go:28-46 | and every such walk can be continued by such steps to a terminal phase |
| PhaseGraph.TerminalCheckIsImplied | pkg/vertical/validator.go:404-417 | for a non-empty list the terminal-state check follows from the other two |
| PhaseGraph.FindPhaseType | pkg/vertical/helpers.go:29-36 | the first phase with the ID, or none if no phase has it |
| PhaseGraph.CanTransitionTo | pkg/vertical/helpers.go:39-46 | true exactly for the listed targets |
| Purge.InvStep | services/iam/purge.go:29-163 | every statement of every interleaving keeps: approved or executed means a second person approved, one open request per tenant, one drop per tenant, drops only for executed requests of purged tenants |
| Purge.RequestKept | services/iam/db/queries.sql:200-239 | a stored request keeps its tenant and requester, its status only moves pending to approved or cancelled, approved to executed, failed or cancelled, and its approver is set only by the approval |
| Purge.OneDropOneOpen | migrations/iam/019_tenant_purge_requests.up.sql:25-28 | in every reachable state no tenant was dropped twice and none has two open requests |
| Purge.DropOnlyWhenApproved | services/iam/db/postgres.go:1150-1193 | a schema is dropped only by the purge transaction, for a request approved at that moment by someone other than its requester, while the tenant is purge_eligible |
| Purge.PurgeDrops | services/iam/db/postgres.go:1150-1193 | a committing purge drops the schema if and only if its request is approved and the tenant purge_eligible; then exactly that tenant is tombstoned and that request executed, otherwise no tenant or request changes |
| Purge.ClosedForever | services/iam/db/queries.sql:211-239 | executed, failed and cancelled are final |
| Purge.NeverExecutedOnceClosed | services/iam/purge.go:112-163 | no drop in any later state is for a request that was cancelled or failed |
| Purge.ExecutedIffDropped | services/iam/db/postgres.go:1150-1193 | in every reachable state a request is executed if and only if its tenant's schema was dropped for it |
| PurgeService.Service.RequestTenantPurge | services/iam/purge.go:29-54 | a pending request by this actor is stored only if the tenant was purge_eligible when read and no request was open at the insert; the two refusals mean the opposite |
| PurgeService.Service.ReadPending | services/iam/purge.go:63-80 | the approval goes on only with an open request that is pending and someone else's; self-approval means the actor requested the pending one, not-found that none was pending |
| PurgeService.Service.ApproveTenantPurge | services/iam/purge.go:63-92 | success turns a pending request of the tenant, requested by someone else, into one approved by this actor, and nothing else, after the tenant was read as purge_eligible; not-found means that none was pending at the open read or that the one found no longer was at the update |
| PurgeService.Service.CancelTenantPurge | services/iam/purge.go:96-110 | success turns an open request of the tenant into a cancelled one, and nothing else; not-found means that none was open at the read or that the one found no longer was at the update |
| PurgeService.Service.MarkRow | services/iam/db/queries.sql:229-239 | a request is marked failed exactly if it was still approved; otherwise nothing changes |
| PurgeService.Service.PurgeApprovedTenant | services/iam/purge.go:125-163 | done means this call dropped the schema for this request; failed means the request was still approved and now is failed; benign means it was closed when it came to the mark, which changed nothing, and that the schema was dropped for it exactly if it is executed |
| Lifecycle.DueAgrees | services/iam/db/queries.sql:106-130 | the list query's condition, nextLifecycleStatus, the failure label and the age gauge agree on what is due and where it goes, after 30, 90 and 180 days exactly |
| Lifecycle.RowKept | services/iam/db/queries.sql:94-104 | one action leaves a row alone or moves it one rank with the first-entry stamps, and stamps stay 90 and 270 days apart |
| Lifecycle.InvStep | services/iam/lifecycle.go:79-127 | racing sweepers, deliveries and clock keep: plans are backed by stamps still in the row, a pending suspension's tenant is still active, a tenant about to lose its sessions is suspended and still has them, a sweep's own moves left their marks |
| Lifecycle.OneRankAtATime | services/iam/lifecycle.go:67-127 | in every step of every run a tenant stays or moves exactly one rank forward |
| Lifecycle.EdgeTakenOnce | services/iam/billing_consumer.go:35-66 | no lifecycle edge of a tenant is taken twice in a run, whatever is redelivered or races |
| Lifecycle.PurgeEligibleAfter270Days | services/iam/lifecycle.go:16-30 | a tenant is purge_eligible only 270 days or more after the moment it was suspended |
| Lifecycle.SessionsEndedIff | services/iam/service.go:625-655 | over every run, the sessions of a suspended tenant are ended if and only if the consumer is past the bump and did not give up between the status write and the bump, however often the event is redelivered |
| Lifecycle.SuspendedButNotRevoked | services/iam/billing_consumer.go:48-66 | a run in which the bump fails once: the redelivery is acked and in no continuation are the sessions ended |
| Lifecycle.SweepMovesAtMostTwoRanks | cmd/retention-sweeper/main.go:119-197 | one sweep with its fixed now moves a tenant at most two ranks |
| LifecycleService.Service.Handle | services/iam/billing_consumer.go:48-66 | a delivery writes a status at most once, out of active, stamping that moment; it is acked if and only if no call failed and the tenant is known or the event irrelevant; an ack means the event was irrelevant, the tenant not active, or the tenant suspended by this call and its sessions ended; after a status write without an ack the sessions are ended or the consumer gave up on them |
| LifecycleService.Service.SuspendTenant | services/iam/service.go:625-655 | the status write is the first thing done, or nothing is written; a write reported as an error may have been applied, and the consumer then gave up before the sessions |
| LifecycleService.Service.EndSessions | services/iam/service.go:645-655 | after the status write: acked exactly if both calls succeeded, with the sessions ended; otherwise given up before the bump or after it |
| LifecycleService.Service.AdvanceTenantLifecycle | services/iam/lifecycle.go:79-127 | a transition is reported exactly when this call applied it, one rank up, on an edge this sweep had not taken, and an error exactly when a call failed; no transition means nothing was due when read or the guarded update lost its race; without an error a tenant that was due has left its status |
| LifecycleService.Service.ApplyPlan | services/iam/db/queries.sql:94-104 | the guarded update wins exactly if the status is still the one read, and then adds one new edge to the sweep's |
| LifecycleService.Service.ListDue | services/iam/db/queries.sql:106-130 | due rows without repeats in the order of their stamps, up to the limit or 500 if it is not positive; rows left out come later and only after a full list |
| LifecycleService.Service.AdvanceAll | cmd/retention-sweeper/main.go:150-189 | one answer for each listed tenant; the two counts are those of the answers that moved and of those in error; every tenant whose advance did not fail has left the status it was listed in |
| LifecycleService.Service.RunSweep | cmd/retention-sweeper/main.go:111-222 | for every batch size and under interference, the transition count is the number of edges the sweep took, seen is the number listed, failed the number of failed advances, no tenant moved more than two ranks, and it succeeds if and only if no listing and no advance failed; every listed tenant whose advance did not fail has left the status it was listed in, and unless the cap on batches was reached the last listing left out no due tenant |
| Saga.DurableProgress | pkg/registration/saga.go:78-93 | wherever the process stopped, the stored steps are 1..k without repeats, at most one behind the steps performed, the external call of every recorded step up to the seventh succeeded, completed only with all nine, and a failed step only where it failed |
| Saga.EachSagaRests | pkg/registration/saga.go:172-242 | when calls ran to their end, a saga is completed with its tenant, user and binding live and its seven critical calls answered with success, or failed without steps or compensated with nothing left |
| Saga.OneTenantPerEmail | pkg/registration/saga.go:187-198 | when calls ran to their end, a live tenant belongs to a completed saga, and an email whose lookups succeeded has at most one |
| Saga.TwoTenantsOneHalfUndone | pkg/registration/saga.go:187-198 | in every state a stop or a failed compensation can leave, two live tenants have different company names, and two of one email come from different sagas, one of which is compensating or compensation_failed, unless a lookup of that email had failed |
| Saga.SecondTenantIff | pkg/registration/saga.go:187-285 | where Start opens a saga after a successful lookup and calls are answered, it gives the email a second live tenant if and only if some saga of the email is compensating or compensation_failed with its tenant still there and no tenant bears the company name |
| Saga.SameNameIsRefused | pkg/registration/saga.go:271-275 | registering under a name that a tenant bears creates nothing and leaves a failed saga without steps, for which Start opens no other |
| Saga.SecondTenantHappens | pkg/registration/saga.go:404-465 | for every email, registering again after a stop while compensating, or after a failed tenant deletion, gives a second live tenant if and only if the company name is another one |
| Saga.NewSagaGood | pkg/registration/saga.go:187-213 | opening a saga keeps the invariant if the email's latest one is being or has been rolled back, or could not be looked up |
| Saga.Orchestrator.Start | pkg/registration/saga.go:182-214 | a saga is opened if and only if the lookup fails, the email has none, or its latest one is compensating, compensated or compensation_failed, and the process has not stopped before; it is then the latest and is run to a resting place or until the process stops, and if no call fails it is failed or completed according to whether the name was taken; otherwise nothing changes and the existing saga is the answer, an error unless it is completed |
| Saga.Orchestrator.Resume | pkg/registration/saga.go:219-242 | only a failed saga is run again, and it comes to rest unless the process stops |
| Saga.Orchestrator.Run | pkg/registration/saga.go:251-400 | from any stored progress the invariant holds at every stop; an unknown vertical fails the saga with step 0; at the end the saga rests, and if no external call failed it is completed, or failed exactly if a tenant bore the name |
| Saga.Orchestrator.StepCreateTenant | pkg/registration/saga.go:261-285 | skipped if recorded; else refused with nothing created if a tenant bears the name or the check fails, and otherwise recorded exactly if the call succeeds, with the tenant it made, or failed at this step with nothing created |
| Saga.Orchestrator.StepCreateUser | pkg/registration/saga.go:287-301 | skipped if recorded; else recorded exactly if hashing and the call succeed, with the user it made, or compensated with this step as the failed one |
| Saga.Orchestrator.StepBindVertical | pkg/registration/saga.go:303-311 | skipped if recorded; else recorded exactly if the call succeeds, with the binding made, or compensated with this step as the failed one |
| Saga.Orchestrator.StepRemote | pkg/registration/saga.go:313-387 | skipped if recorded; else steps 4 to 7 are recorded exactly if their call succeeds and compensated with this step as the failed one otherwise, steps 8 and 9 recorded either way |
| Saga.Orchestrator.Call | pkg/registration/saga.go:278-387 | an external call that succeeds leaves exactly its effect and its success; one that fails leaves nothing |
| Saga.Orchestrator.Undo | pkg/registration/saga.go:420-451 | a compensating call is made exactly for a recorded step and takes away exactly what that step created; a failing one takes away nothing and is counted |
| Saga.Orchestrator.RollBack | pkg/registration/saga.go:416-451 | the compensating calls made are those of the recorded steps in the order 3, 2, 1, or the first few of them if the process stopped; the errors counted are exactly the kinds of things left |
| Saga.Orchestrator.FailAndCompensate | pkg/registration/saga.go:404-465 | without faults the saga ends compensated with nothing left, and no other saga is touched |
| Saga.Orchestrator.Compensate | pkg/registration/saga.go:416-465 | the outcome is recorded as compensation_failed with the number of things left, or compensated with nothing left; wherever it stops the invariant holds |
| Saga.Orchestrator.FailSaga | pkg/registration/saga.go:469-476 | exactly the failure is recorded; progress and effects stay |
| Saga.Orchestrator.Persist | pkg/registration/saga.go:480-486 | the store holds the record, unless the process has stopped |
| Saga.Orchestrator.AnyHistory | pkg/registration/saga.go:172-242 | over any sequence of Start and Resume calls, stopped anywhere or not, the invariant holds; without faults every saga rests |
| Outbox.NoEventLost | services/billing/service.go:127-154 | from its recording on, in every later state of every run, an event is pending or dead-lettered with its payload intact, or was published at least once |
| Outbox.RowsLeaveOnlyWhenDone | services/billing/db/postgres.go:197-242 | a row leaves the outbox only into the dead-letter table, or by cleanup after it was published and marked sent before the cutoff |
| Outbox.InvStep | services/billing/db/postgres.go:126-314 | every statement of every interleaving keeps the conservation invariant |
| Outbox.UnmarkedStays | services/billing/db/postgres.go:159-242 | a pending row that nobody marks sent stays claimable and its attempts never drop, until some relay dead-letters it |
| Outbox.AttemptsAreClaims | services/billing/db/postgres.go:162-173 | over every run, the attempts of a row are its claims since it was recorded or last replayed |
| Outbox.ClaimedUnlessBehind | services/billing/db/postgres.go:163-173 | a pending row is claimed unless it is locked or at least a full batch of other rows as old is ahead of it |
| Outbox.ReplayRearms | services/billing/db/postgres.go:219-314 | dead-lettering and replaying an event gives it back unsent with no attempts and the same payload and creation time, touching nothing else |
| Outbox.CleanupDeletes | services/billing/db/postgres.go:211-217 | a cleanup deletes exactly the rows sent before its cutoff |
| Outbox.MarkedRowStays | services/billing/outbox_relay.go:117-122 | over every run whose cleanups cut off at seven days, a row marked sent is there with that mark or a later one for seven days, unless it is dead-lettered |
| OutboxRelay.DeadLetterRule | services/billing/outbox_relay.go:141-189 | over every run, whatever a relay dead-letters was claimed five times or more since it was recorded or replayed and was refused in the same batch, and the relay itself recorded a success in that batch or less than five minutes before its health check |
| OutboxRelay.NothingParkedBeforeASuccess | services/billing/outbox_relay.go:89-96 | a relay that has recorded no success since it started has dead-lettered nothing |
| OutboxRelay.OutageParksNothing | services/billing/outbox_relay.go:164-170 | if a relay records no success from some moment on, no batch of it that checks the broker five minutes or more after that moment makes a single move to the dead letters |
| OutboxRelay.StretchOfHistory | services/billing/outbox_relay.go:104-126 | any stretch of a relay's ticks is a series of successive batches, as the poison theorem needs them |
| OutboxBacklog.ClaimedIff | services/billing/db/postgres.go:163-173 | among rows with distinct creation times, a pending row is claimed if and only if it is not locked and fewer older unlocked rows than the limit are pending |
| OutboxBacklog.PublishedIff | services/billing/outbox_relay.go:141-162 | among rows with distinct creation times, a batch publishes a pending event if and only if it is not locked, fewer older unlocked rows than the limit are pending, and it is not among those the broker refused |
| OutboxBacklog.RelayStuck | services/billing/outbox_relay.go:141-189 | over every run, a relay without a success under five minutes old whose oldest pending rows, at least a full batch, are refused publishes, marks and dead-letters nothing from then on, and claims no row behind them |
| OutboxBacklog.StuckRunExists | services/billing/outbox_relay.go:89-96 | for every batch size and number of ticks there is such a run from the relay's start, with one more event that is never claimed |
| OutboxRelay.BatchWithPoison | services/billing/outbox_relay.go:141-189 | a batch that claims an undelivered pending event counts one more attempt, and from the fifth on, while the broker is healthy, the row is moved to the dead letters by its end |
| OutboxRelay.PoisonEventIsParked | services/billing/outbox_relay.go:31-47 | over every run, a pending event, replayed before or not, that five successive batches claim while it is pending and nobody delivers is moved from the outbox to the dead letters between the first claim and the fifth end, if the five checks come within 75 s and the last recorded success came less than 225 s before the first claim |
| OutboxRelay.Relay.ClaimUnsent | services/billing/db/postgres.go:159-195 | the oldest unsent rows not locked by others, without repeats, fewer than the limit only if there are no more, each copy counting the claim as an attempt as its row does; an error hands out nothing |
| OutboxRelay.Relay.SelectOldest | services/billing/db/postgres.go:163-173 | the selection of the claim meets its loop-free definition |
| OutboxRelay.Relay.Deliver | services/billing/outbox_relay.go:149-162 | refused exactly if the relay did not publish the event, which it does at most once, counted exactly if its mark was reported done; only a counted one moves the health signal, to that moment; the relay does nothing else meanwhile |
| OutboxRelay.Relay.Mark | services/billing/outbox_relay.go:155-161 | a reported mark sets the row sent and moves the health signal to that moment; a failed one may have been applied and moves nothing |
| OutboxRelay.Relay.PublishPass | services/billing/outbox_relay.go:147-162 | failed are exactly the claimed events the relay did not publish, it publishes and marks no others and dead-letters nothing, and the count is positive exactly if the relay recorded a success |
| OutboxRelay.Relay.ParkPass | services/billing/outbox_relay.go:172-186 | every action of the relay in this pass moves a failed event with five attempts to the dead letters while the broker is healthy, and with a healthy broker and an answering repository every such event is moved |
| OutboxRelay.Relay.Move | services/billing/db/postgres.go:219-242 | at most one move of this event, exactly one if the repository answers |
| OutboxRelay.Relay.ProcessBatch | services/billing/outbox_relay.go:141-189 | under interference the tick adds one batch to the relay's history, which keeps holding all it ever published, marked or dead-lettered; a claim error ends the tick with none of these |
| OutboxRelay.Relay.OnTick | services/billing/outbox_relay.go:112-124 | a tick adds at most one batch of the full size to the history, exactly one if the repository answers, when each 240th tick also ends with the deletion of rows sent over seven days ago |
| OutboxRelay.Relay.RunTicks | services/billing/outbox_relay.go:104-126 | any number of ticks extends the history by successive batches of the full size, one for each tick if the repository answers, with all the relay does inside one of them |
| Audit.InvStep | pkg/audit/logger.go:106-234 | every step of producers, ticker, loop and Close conserves the accepted events in order and keeps the batch below its size |
| Audit.AcceptedAreAccountedFor | pkg/audit/logger.go:106-234 | over every interleaving, accepted events are the flushed, batched, drained and queued ones in order of acceptance, as a multiset stored plus refused plus the rest, and no loop flush exceeds the batch size |
| Audit.CloseLosesNothing | pkg/audit/logger.go:163-171 | once drained with nothing logged after, every accepted event was flushed once; with no store failure the store holds exactly the accepted events in order |
| Audit.Logger.Log | pkg/audit/logger.go:106-123 | queued in order if there is room, dropped otherwise, with ID and time filled in |
| Audit.Logger.ReceiveCase | pkg/audit/logger.go:184-189 | the reused slice grows by the head of the channel; exactly when it is full it is flushed and emptied |
| Audit.Logger.FlushCase | pkg/audit/logger.go:191-202 | exactly the batch is flushed, if there is one |
| Audit.Logger.FlushLoop | pkg/audit/logger.go:174-205 | whichever ready cases its select comes to, the loop runs through them in order, and stops exactly when it comes to the closed done channel |
| Audit.Logger.DrainChannel | pkg/audit/logger.go:221-234 | the queue is emptied into one final flush, or none if it was empty, and an error is returned exactly if that flush is refused |
| Audit.Logger.Close | pkg/audit/logger.go:165-171 | with no concurrent Log, everything accepted is flushed exactly once, and an error is returned exactly if the final flush was refused |
| RateLimit.InvStep | pkg/ratelimit/ratelimit.go:60-71 | lives of the counter key begin at least a window apart and admit at most the limit each, also with EXPIRE late or lost |
| RateLimit.AtMostTwiceTheLimit | pkg/ratelimit/ratelimit.go:6-10 | for every sequence of arrivals, delays and lost EXPIREs, any interval one window long holds at most twice the limit of admissions |
| RateLimit.TwiceTheLimitIsReached | pkg/ratelimit/ratelimit.go:6-10 | the bound is exact: for every limit and window some arrivals reach it |
| RateLimit.RefusedForeverIff | pkg/ratelimit/ratelimit.go:60-71 | no request is ever admitted again, whatever comes, if and only if the key has no deadline, no EXPIRE is to come and the limit is used up |
| RateLimit.OrphanForever | pkg/ratelimit/ratelimit.go:66-71 | after a lost EXPIRE the key counts on for ever and admits exactly what is left of the one limit |
| RateLimit.LostExpireLocksOut | pkg/ratelimit/ratelimit.go:66-71 | for every limit, one lost EXPIRE and a limit's worth of requests lock the client out for good |
| RateLimit.NoLockout | pkg/ratelimit/ratelimit.go:66-71 | in every run without a lost EXPIRE a key that is there has a deadline or its EXPIRE to come, so no client is refused for good |
| RateLimit.LifeEndsAtDeadline | pkg/ratelimit/ratelimit.go:66-71 | whatever the arrivals, once a set deadline has passed the key is gone or a new life of it has begun |
| RateLimit.Limiter.Middleware | pkg/ratelimit/ratelimit.go:55-84 | with INCR answering, admitted exactly while the count is within the limit, and the first hit of a window ends with its EXPIRE, lost only if that command reports an error; open when INCR reports an error, carried out or not; the bound holds after every request, and where every command is answered nobody is refused for good |
| Merge.ToSet | pkg/vertical/merge.go:303-309 | the set of the listed IDs |
| Merge.RemoveInPlace | pkg/vertical/merge.go:158-168 | the front of the same array holds exactly the items whose ID is not removed, in order |
| Merge.RemainingInOrder | pkg/vertical/merge.go:158-168 | what remains are exactly the items whose ID is not removed, each from its own position and in order |
| Merge.RemainingCounts | pkg/vertical/merge.go:158-168 | every item is there as often as before, or not at all if its ID is removed |
| Merge.OverrideInPlace | pkg/vertical/merge.go:170-178 | for whichever order the map is visited in, the first item of each ID is patched in that order |
| Merge.OrderDoesNotMatter | pkg/vertical/merge.go:170-178 | if no clash of overrides does harm, every order gives the order-free result |
| Merge.OverriddenAt | pkg/vertical/merge.go:170-178 | if no clash does harm, a visit patches once the first item of each visited ID and changes no other |
| Merge.OrdersAgreeIffNoHarm | pkg/vertical/merge.go:170-178 | all visits of the map give one result if and only if no override renames its item to the ID of another override, ahead of that one's item, such that the other override changes either item; that result is then the order-free one |
| Merge.BackToFront | pkg/vertical/merge.go:170-178 | visiting the overrides of later items first always gives the order-free result |
| Merge.RenamingPatchDependsOnOrder | pkg/vertical/merge.go:170-178 | a patch that renames its item makes two orders differ |
| Merge.ApplyArrayOverride | pkg/vertical/merge.go:247-273 | filter, patch and append in place equal the loop-free specification for the order taken, and the order-free one if no clash does harm |
| Merge.DecodedInOrder | pkg/vertical/merge.go:180-189 | appended are exactly the additions that could be decoded, in order |
| Merge.OverriddenIdsStayUnique | pkg/vertical/merge.go:157-189 | if the overrides that apply keep their items' IDs, unique base IDs and fresh distinct appended IDs stay unique |
| Argon2id.Base64RoundTrip | pkg/auth/argon2id.go:66-67 | decoding the unpadded base64 of any bytes gives them back |
| Argon2id.EncodedGroups | pkg/auth/argon2id.go:66-67 | three bytes make four characters from the high bits to the low, a last byte two and last two bytes three |
| Argon2id.DecodesIff | pkg/auth/argon2id.go:155-163 | line breaks aside, a text decodes if and only if all of it is in the alphabet and no character is left over |
| Argon2id.ScanDecimal | pkg/auth/argon2id.go:142-149 | scanning a printed number followed by a non-digit gives the number and leaves the rest |
| Argon2id.ParamsRoundTrip | pkg/auth/argon2id.go:149-151 | scanning printed cost parameters gives them back, each in its own field |
| Argon2id.SplitJoin | pkg/auth/argon2id.go:135-139 | splitting parts without the separator that were joined by it gives the parts |
| Argon2id.RoundTrip | pkg/auth/argon2id.go:64-70 | for all parameters, salts and hashes, decoding the encoded string returns the same bytes and cost parameters with the lengths recovered |
| Argon2id.EncodedForm | pkg/auth/argon2id.go:64-70 | the hash string written out, part by part |
| Argon2id.PrintedDecodesIff | pkg/auth/argon2id.go:134-166 | a string of the printed shape decodes, field by field, if and only if its version is 19, its parameters fit their widths and its two texts are base64 |
| Argon2id.VerifyAcceptsHash | pkg/auth/argon2id.go:119-130 | a password verifies against a stored hash exactly when it derives the same key, so the hashed password always does |
| Argon2id.LegacyHash | pkg/auth/argon2id.go:84-98 | a legacy hash verifies exactly if the bcrypt comparison of hash and password does, and always needs a rehash |
| Argon2id.OtherHash | pkg/auth/argon2id.go:95-113 | a string of neither kind, or one that does not decode, is refused for every password and never needs a rehash |
| Argon2id.NeedsRehashIffWeak | pkg/auth/argon2id.go:103-117 | a stored hash needs a rehash exactly when a cost parameter is below the defaults, so never with the defaults |

## Left out

- Access tokens: JWT signing, parsing and expiry are foreign cryptography; only refresh tokens are modelled.
- Collision of random tokens and identifiers: taken not to happen.
- TokenIssuer.JWTIssuer.RevokeAll: does not promise that the EXPIRE finds the key, because the key may have expired between the two commands.
- Operator SuspendTenant, legal holds and their release: an unguarded status write and a filter in the list query; runs contain neither.
- Rows of a tenant other than status and the two stamps, and audit events of purge and lifecycle calls: payload only.
- Unicode blanks in the hash parser: only the ASCII blanks that the scanner skips are modelled.
- Argon2id.VerifyAcceptsHash: takes the key function and the bcrypt comparison as parameters; only the key length is assumed of the former.
- Last-error text of outbox rows, gauges and log lines: no effect on delivery.
- Timing of the relay's ticker: ticks are given, with their start and health check inside the interval.
- Flat JSON merge, entity labels and JSON decoding in the override merge: library behaviour; a patch is a function on items.
- Merge.OverrideInPlace: an item half-written by a failing decode counts as that decode's result.
- Retry-After header and client IP extraction of the limiter: presentation only.
- Slug check of the saga: it only chooses the slug.
- Concurrent Start calls for one email, and two Resume calls of one saga at once: calls are taken one after another.
- Budget, expense, inventory, ledger, document and notification services: short guards that would add only easy members.
