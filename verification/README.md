# Verification of the agent manager's core

A Dafny 4.11 model of the parts of this repository whose correctness spans whole runs,
with proofs of what they promise. `dafny verify dfyconfig.toml` checks the project.

## What is modelled

- **Fencing coordinator** (`Coordination.dfy`, `FleetCoordinator.dfy`, `*Runs.dfy`,
  `Answers.dfy`). Each operation is a function from state to state and reply; the class
  updates its fields in place and is proved equal to it. The run theorems quantify over
  every sequence of calls by any callers; `Answers.dfy` tells every reply from the calls
  alone. The edges of the 64-bit counters are part of the results: where a promise stops
  holding there, the exact condition is proved.
- **Durable outbox** (`Outbox*.dfy`, `NatsPublisher.dfy`; runs that lose events are in
  `OutboxLoss.dfy`). Two directories, a broker and the counters of one process. Every file
  or broker call takes its fate from a script: it works, fails, or the process crashes
  before or after the effect. The class `NatsPublisher.Nats` does the calls one by one and
  is proved equal to the transitions; the theorems quantify over every sequence of
  publishes, background drains and restarts under every script.
- **Event bus and streams** (`EventBus.dfy`, `SseStream.dfy`, `SseResume.dfy`,
  `DeliveryKeys.dfy`, `EventDelivery.dfy`, `AppState.dfy`). A task's channel is a function
  of the events it has accepted. One client is followed through any emits, collections and
  lags, then through a reconnect. Bus, outbox and broker run as one worker, in which a
  restart empties the bus and reboots the outbox: an event is followed from its emit to
  the broker.
- **Governed task** (`Governance.dfy`, `GovernedPromises.dfy`, `GovernedWorker.dfy`). The
  protocol is an acceptor of traces. The theorems hold of every trace it accepts; the
  worker class, written along the source with every await open to cancellation requests
  and periodic renewals, is proved to leave only such traces. A crash leaves a prefix,
  and prefixes are accepted.
- **Fleet** (`Fleet.dfy`, `FleetSafety.dfy`). Any number of such workers and the
  coordinator as the node, with requests served late and answers lost.
- **SHA-256** (`Fips180.dfy`, `Fips180Constants.dfy`, `Fips180Primes.dfy`,
  `ArtifactDigest.dfy`). The imperative digest against the bit-level definition of
  FIPS 180-4 (sections 4.1.2, 4.2.2, 5.1.1, 5.3.3 and 6.2.2), the constants against the
  roots of the first primes.
- **Branch names** (`BranchNames.dfy`, `BranchPromises.dfy`).

## Assumptions

- A failed file call has no effect, rename and remove are atomic, and the broker
  remembers every deduplication id. Tenant scoping of ids is an injective function, and
  lower-casing any function on strings: both are parameters.
- A check of the cancel token and the start of the next operation are one step;
  cancellation from another thread falls between such steps. Renewals are due at await
  points only, as the select loop polls nothing else.
- The control plane is not part of this repository. Its fencing check of a transition is
  taken to be the coordinator's `commit_if_current`, its grant of a claim the
  coordinator's `claim`, on the election `ai-work:<id>`. The clock is
  the coordinator's, read in the unit of the lease time. What arrives as the answer to a
  renewal may be the answer to any renewal served since, with parts missing, but no part
  is forged.
- Metrics and gauges wrap as in a release build. A failed `assert!` of the coordinator
  leaves its state as it was and replies that it panicked.

## Where the code promises less than it seems to

- Tokens, quotas and revisions lose their guarantee exactly at saturation, in runs that
  exist (`LostAuthorityReturnsExactlyWhen`, `LostAuthorityDoesReturn`,
  `TheBoundHoldsExactlyBeforeSaturation`, `OneWriterExactlyBelowTheLastRevision`).
- An event published under an id that is quarantined with other contents can be reported
  persisted and then be lost, when its own quarantine finds the older file and removes the
  newer (`EventsCanBeLostExactlyWhen`); `dead_lettered` then counts one too many
  (`GaugeCanBeSkewedExactlyWhen`). Both happen from nothing (`ReusedIdsDoHarm`).
- A replay goes on behind `done`, so a client that comes back can get events that one
  never cut off does not (`ResumedClientAgreesExactlyWhen`, `ResumedClientIsGivenMore`),
  and events handed to the bus out of turn can be hidden from it
  (`OverlappingEmitsLoseAnEvent`, `ResumableExactlyInTurn`).
- A collected task, or a restart, lets an idempotency key come again; the new event is
  acknowledged but not stored (`ForgottenKeysSwallowEvents`, and at the call
  `AcknowledgedIsStoredExactlyWhen`).
- Staging starts `git reset` after cancellation (`ResetAfterAStop`).
- A task cancelled after its execution succeeded is reported `cancelled` to the control
  plane and, once that is accepted, returns success (`TerminalReport`; `SuccessAfterAStop`
  is a run of the worker that does).

## Model

| member | source | states |
|---|---|---|
| `FleetCoordinator.Coordinator.constructor` | `tools/reference-fleet/src/lib.rs:70-89` | a new coordinator is the empty state of the specification |
| `FleetCoordinator.Coordinator.Advance` | `tools/reference-fleet/src/lib.rs:97-99` | the clock moves by saturating addition, nothing else changes |
| `FleetCoordinator.Coordinator.Claim` | `tools/reference-fleet/src/lib.rs:101-130` | the whole new state and reply of a claim are those of the specification that the run theorems are about |
| `FleetCoordinator.Coordinator.Renew` | `tools/reference-fleet/src/lib.rs:132-156` | the same for a renewal, refused unless holder and token are current |
| `FleetCoordinator.Coordinator.CommitIfCurrent` | `tools/reference-fleet/src/lib.rs:158-168` | the same for a fenced commit |
| `FleetCoordinator.Coordinator.AcquireSlot` | `tools/reference-fleet/src/lib.rs:170-205` | the same for a semaphore request, expired holders swept first |
| `FleetCoordinator.Coordinator.ConsumeQuota` | `tools/reference-fleet/src/lib.rs:207-244` | the same for a quota request, the window rolled over when due |
| `FleetCoordinator.Coordinator.Heartbeat` | `tools/reference-fleet/src/lib.rs:246-251` | the same for a heartbeat |
| `FleetCoordinator.Coordinator.WorkerIsAlive` | `tools/reference-fleet/src/lib.rs:253-265` | the same for a liveness poll, which counts a lapse once |
| `FleetCoordinator.Coordinator.FireCronOnce` | `tools/reference-fleet/src/lib.rs:267-283` | the same for a cron fire |
| `FleetCoordinator.Coordinator.Cas` | `tools/reference-fleet/src/lib.rs:285-311` | the same for a compare-and-set, log entry included |
| `FleetCoordinator.Coordinator.PerformSideEffectOnce` | `tools/reference-fleet/src/lib.rs:317-329` | the same for an idempotent side effect |
| `FencingRuns.ClaimHasOneWinner` | `tools/reference-fleet/src/lib.rs:101-130` | a claim is granted exactly when nobody holds the resource; the winner holds it for exactly its lifetime, unless the clock has reached its last value |
| `FencingRuns.RenewalRetimesHeldAuthority` | `tools/reference-fleet/src/lib.rs:132-156` | a renewal is accepted exactly for current authority and re-times it; it never resurrects an expired claim |
| `FencingRuns.GrantTokensInClosedForm` | `tools/reference-fleet/src/lib.rs:121-128` | all tokens of a run in closed form: consecutive, then stuck at the last value; the counter and `claims_granted` count the same grants |
| `FencingRuns.TokensAreUniqueExactlyBelowSaturation` | `tools/reference-fleet/src/lib.rs:119-128` | tokens are strictly increasing and unique if and only if there were at most 2^64 - 1 grants; so far the counter equals `claims_granted` |
| `FencingRuns.TokensIdentifyGrants` | `tools/reference-fleet/src/lib.rs:119-128` | below the last value a token belongs to one granted claim, whatever the resource |
| `FencingRuns.RenewalsFollowTheirGrant` | `tools/reference-fleet/src/lib.rs:132-156` | an accepted renewal is on the resource of the claim its token was granted for, below the last token |
| `FencingRuns.LostAuthorityIsNeverRegained` | `tools/reference-fleet/src/lib.rs:132-168` | authority once lost is refused by renew and commit in every continuation, below the last token value |
| `FencingRuns.LostAuthorityReturnsExactlyWhen` | `tools/reference-fleet/src/lib.rs:101-130` | lost authority can come back in some continuation if and only if the token counter is saturated and the clock leaves room to free the resource |
| `FencingRuns.EveryTokenIsReached` | `tools/reference-fleet/src/lib.rs:119-128` | every value of the token counter is reached by a run from the start |
| `FencingRuns.LostAuthorityDoesReturn` | `tools/reference-fleet/src/lib.rs:101-130` | a run from the start in which authority is granted, lost and comes back under one token |
| `FencingRuns.AcceptedTokensNeverDecrease` | `tools/reference-fleet/src/lib.rs:101-168` | over every interleaving of callers the tokens of accepted claims, renewals, commits and cron fires on a resource never decrease |
| `FencingRuns.CronSlotFiresAtMostOnce` | `tools/reference-fleet/src/lib.rs:267-283` | a scheduled slot fires at most once in any run, under current authority, across failovers |
| `FencingRuns.SideEffectRunsAtMostOnce` | `tools/reference-fleet/src/lib.rs:317-329` | a side effect runs at most once per idempotency key in any run |
| `QuotaRuns.QuotaBoundsEveryInterval` | `tools/reference-fleet/src/lib.rs:207-244` | a window never admits more than its capacity, and no interval of one window length, wherever it starts, more than twice that |
| `QuotaRuns.WindowsAreRecorded` | `tools/reference-fleet/src/lib.rs:207-244` | after every run the window on record starts at the clock value of the call that opened it: the first unpanicked consume, and then each that came when the window before had run out; it has that call's terms, and `used` is what was admitted since |
| `QuotaRuns.DeniedExactlyWhenItDoesNotFit` | `tools/reference-fleet/src/lib.rs:207-244` | over every run, saturated clock included: a consume panics exactly on an empty capacity or window or on other terms, and is denied if and only if it does not fit what was admitted since the opening of the window it falls into |
| `QuotaRuns.AdmittedSinceTheOpening` | `tools/reference-fleet/src/lib.rs:230-243` | below the last clock value that opening lies less than a window back, and what was admitted since is what was admitted at the clock values since |
| `QuotaRuns.TwiceTheCapacityIsReached` | `tools/reference-fleet/src/lib.rs:230-243` | the factor two is attained, so it cannot be improved |
| `QuotaRuns.SaturatedClockAdmitsWithoutBound` | `tools/reference-fleet/src/lib.rs:234-235` | at the last clock value every call opens a new window and no bound is left |
| `QuotaRuns.TheBoundHoldsExactlyBeforeSaturation` | `tools/reference-fleet/src/lib.rs:230-243` | twice the capacity bounds every interval of every run with the clock at a value if and only if that value is below the last |
| `SemaphoreRuns.SlotsAreNeverOversubscribed` | `tools/reference-fleet/src/lib.rs:170-205` | in every reachable state the holders whose latest grant is unexpired number at most the capacity |
| `SemaphoreRuns.DeniedExactlyWhenOthersFillThePool` | `tools/reference-fleet/src/lib.rs:193-204` | a request is denied if and only if exactly `capacity` others are live |
| `StoreRuns.LogRebuildsTheStore` | `tools/reference-fleet/src/lib.rs:285-311` | folding the watch log from empty gives the store; each key's log carries revisions 1, 2, 3, ... with no gap |
| `StoreRuns.OneWriterPerRevision` | `tools/reference-fleet/src/lib.rs:291-298` | of all CAS calls on a key with one expected revision at most one ever succeeds, below the last revision |
| `StoreRuns.SaturatedRevisionAdmitsManyWriters` | `tools/reference-fleet/src/lib.rs:299-302` | at the last revision two writers with the same expectation both succeed |
| `StoreRuns.EveryRevisionIsReached` | `tools/reference-fleet/src/lib.rs:299-302` | every revision, the last included, is reached by a run from the start |
| `StoreRuns.OneWriterExactlyBelowTheLastRevision` | `tools/reference-fleet/src/lib.rs:285-311` | two writers succeed with one expected revision in some run from the start if and only if it is the last revision |
| `LivenessRuns.AliveExactlyUntilTheLastBeatRunsOut` | `tools/reference-fleet/src/lib.rs:246-265` | over every run a worker is reported alive if and only if its last heartbeat has not run out |
| `LivenessRuns.CronFiresExactlyWhen` | `tools/reference-fleet/src/lib.rs:267-283` | a slot fires if and only if the caller's authority is current and the slot has not fired in the run before, under any leader |
| `LivenessRuns.EffectHappensExactlyTheFirstTime` | `tools/reference-fleet/src/lib.rs:317-329` | a side effect is carried out if and only if its key was not used in the run before |
| `MetricsRuns.CountersAreTheRepliesSeen` | `tools/reference-fleet/src/lib.rs:101-311` | each counter is the number of times callers saw the event, modulo 2^64 |
| `MetricsRuns.FencedRefusalsAreCountedOnce` | `tools/reference-fleet/src/lib.rs:158-283` | each refused fenced call is counted in exactly one of the two counters for it |
| `MetricsRuns.LapsesAreCountedOnce` | `tools/reference-fleet/src/lib.rs:246-265` | a worker's lapse is counted once per heartbeat, however often it is polled |
| `ClockRuns.ClockIsTheTimePassed` | `tools/reference-fleet/src/lib.rs:97-99` | after every run the clock is the sum of the advances, up to its last value |
| `Answers.EveryReplyCanBeForetold` | `tools/reference-fleet/src/lib.rs:97-329` | every reply of the coordinator, expiry times, tokens, revisions and panics included, is the one told by the calls before it alone, over every run, with no look at the state |
| `Answers.LeasesAreTheClaims` | `tools/reference-fleet/src/lib.rs:101-156` | the leases and the token counter are those told by the claims and renewals of the run |
| `Answers.WatchersAreToldEveryWrite` | `tools/reference-fleet/src/lib.rs:285-315` | the watch log is exactly the writes that went through, in order, numbered |
| `Answers.RefusalsAreCountedByCause` | `tools/reference-fleet/src/lib.rs:158-283` | of the two counters for refused fenced calls one counts those without authority and the other the fires of a slot that had fired, modulo 2^64 |
| `NatsPublisher.Nats.constructor` | `src/nats.rs:214-236` | a new process keeps disk and broker, starts its counters at zero and allows at least one attempt |
| `NatsPublisher.Nats.WriteRecord` | `src/nats.rs:631-640` | temporary file, then rename: in place, under every fate of the two calls, what the transition says |
| `NatsPublisher.Nats.MoveToDeadLetter` | `src/nats.rs:613-624` | the same for quarantining, with the branch for an id already quarantined |
| `NatsPublisher.Nats.FinalizeDelivery` | `src/nats.rs:564-587` | the same for recording the outcome of a publish |
| `NatsPublisher.Nats.PersistRecord` | `src/nats.rs:589-611` | the same for persisting: new, identical, or a collision |
| `NatsPublisher.Nats.ReadRecords` | `src/nats.rs:650-663` | files read in any order and sorted are the one listing of the directory |
| `NatsPublisher.SortByKey` | `src/nats.rs:661` | the sort gives a permutation ordered by (created_at_ms, message_id) |
| `NatsPublisher.Nats.DrainLocked` | `src/nats.rs:482-562` | the scan and delivery loops, in place, do what the recursive drain says, failures and crashes included |
| `NatsPublisher.Nats.DeliverDue` | `src/nats.rs:526-561` | the delivery loop publishes in order and stops at the first failure |
| `NatsPublisher.Nats.PublishEvent` | `src/nats.rs:380-425` | persist before publish; an unconfigured publisher and a failed encoding only count |
| `NatsPublisher.Nats.Recover` | `src/nats.rs:243-249` | both directories are read and the gauges set to their sizes, or nothing is |
| `NatsPublisher.Nats.Start` | `src/nats.rs:239-250` | recovery and first drain; a failed recovery fails the start |
| `NatsPublisher.Nats.DrainOutbox` | `src/nats.rs:474-480` | one turn of the background loop |
| `Outbox.ListingIsUnique` | `src/nats.rs:650-663` | a directory has exactly one listing in delivery order |
| `OutboxEffects.MoveEffect` | `src/nats.rs:613-624` | every possible outcome of quarantining a record, crash and failure included |
| `OutboxEffects.AcknowledgedEffect` | `src/nats.rs:570-575` | every possible outcome of recording an acknowledged publish |
| `OutboxEffects.UnacknowledgedEffect` | `src/nats.rs:576-585` | every possible outcome of recording an unacknowledged one |
| `OutboxEffects.PersistEffect` | `src/nats.rs:589-611` | every possible outcome of persisting a record; one that differs in any field from the one on disk is refused |
| `OutboxSafety.NothingPersistedIsLost` | `src/nats.rs:380-640` | an event reported persisted is pending, dead-lettered or acknowledged, contents unchanged, in every world reached from there, with crashes at any I/O boundary, any number of restarts and any ids in other publishes, unless when published its id was quarantined with other contents and it was never acknowledged |
| `OutboxLoss.EveryRecordCanBeRefused` | `src/nats.rs:482-585` | from any world background drains alone can bring any waiting record to its end |
| `OutboxLoss.EventsCanBeLostExactlyWhen` | `src/nats.rs:589-624` | in every reachable world a publish can report its event persisted and the event be lost in some continuation if and only if its id is quarantined with other contents, the event was never acknowledged, and anything pending under the id is the very record |
| `OutboxLoss.GaugeCanBeSkewedExactlyWhen` | `src/nats.rs:613-624` | in every reachable world with a right gauge and no id both waiting and quarantined, a publish and later drains can make `dead_lettered` wrong if and only if its id is quarantined |
| `OutboxLoss.ReusedIdsDoHarm` | `src/nats.rs:613-624` | for any two different events with one id there is a run from nothing that loses the second, and one that makes the gauge wrong |
| `OutboxOrder.ScanCollectsTheDue` | `src/nats.rs:499-518` | the scan collects exactly the due records in order and touches only records at the limit |
| `OutboxOrder.DrainInOrder` | `src/nats.rs:499-562` | the records published are a prefix of the due ones in order; nothing outside it becomes acknowledged; all but its last were acknowledged; at most one gains an attempt; the rest is untouched |
| `OutboxOrder.AtTheLimitOnlyQuarantined` | `src/nats.rs:499-511` | no drain publishes a record at the limit, and one that finishes has quarantined it, even after a crash between its write and its move |
| `OutboxExhausted.NeverPublishedAgain` | `src/nats.rs:482-562` | from the moment a record has used up its attempts it is never published again in any continuation, crashes and restarts included, in which its id is not published anew; its file is unchanged or in quarantine, and there for good once any drain has finished |
| `OutboxTermination.DrainSpends` | `src/nats.rs:499-562` | every finished drain pays for its publishes out of a finite budget and spends some whenever there is something to do |
| `OutboxTermination.PublishesAreBounded` | `src/nats.rs:564-585` | over any row of quiet drains a record is published at most as often as it has attempts left, and counts exactly its publishes |
| `OutboxTermination.EverythingLeavesTheOutbox` | `src/nats.rs:253-262` | as many connected, spaced drains as the budget allows empty the outbox, whatever the broker answers |
| `OutboxBackOff.DrainBacksOff` | `src/nats.rs:526-587` | every record a drain that ran to its end has published is gone from the pending ones or due again five seconds later, with one attempt more and some left |
| `OutboxBackOff.NothingRetriesTooSoon` | `src/nats.rs:576-585` | for five seconds after such a drain no drain, request or restart publishes the record, in any continuation that does not publish its id anew |
| `OutboxBackOff.TwoPublishesAreSpaced` | `src/nats.rs:576-585` | two publishes of one record, one after the other, lie at least five seconds apart if the first drain ran to its end |
| `OutboxCounters.DrainCounts` | `src/nats.rs:482-562` | under any course of a drain: `jetstream_published` counts the records acknowledged and removed, `publish_failures` a refusal the drain ended with, `outbox_persist_failures` a failed file call, `outbox_deferred` a drain with something due and nobody connected |
| `OutboxCounters.StartPublishes` | `src/nats.rs:239-250` | a start of a connected process that runs to its end publishes what is due, all of it unless one is refused |
| `OutboxCounters.RequestPublishes` | `src/nats.rs:401-425` | so does a request, and its own new event is due at once |
| `OutboxGauges.QuarantineGauges` | `src/nats.rs:613-624` | `outbox_pending` always moves with the files; `dead_lettered` moves with the quarantine if and only if the id is new to it |
| `OutboxGauges.GaugesCountTheFiles` | `src/nats.rs:239-250` | over all runs and restarts the gauges equal the numbers of files whenever the gate is free, `dead_lettered` if quarantined ids are not reused |
| `OutboxBroker.StoredAtMostOnce` | `src/nats.rs:526-561` | over every run the broker holds a deduplication id at most once and, if events do not share ids, each acknowledged event exactly once as itself |
| `EventBus.EventBus.constructor` | `src/event_bus.rs:86-118` | a new bus has accepted nothing |
| `EventBus.EventBus.Emit` | `src/event_bus.rs:122-162` | an event is accepted if and only if its number is new to its task; history, numbers, fan-out and done flag stay functions of what was accepted |
| `EventBus.EventBus.Subscribe` | `src/event_bus.rs:176-190` | the retained events above a number, a receiver behind everything sent, and the done flag |
| `EventBus.EventBus.GcTask` | `src/event_bus.rs:226-228` | exactly the one task is forgotten |
| `SseStream.SubscriptionsMissNothing` | `src/event_bus.rs:176-190` | what a subscription is given and what its receiver will hand over are, for every later state of the channel, the retained events above the number and then exactly those accepted later, nothing twice |
| `SseStream.RetainedAreTheLast` | `src/event_bus.rs:150-154` | retained are the last 2000 accepted events |
| `SseStream.Stream` | `src/http.rs:325-346` | the loop yields the replay and then, unless done, the received events through the first done, passing over lags |
| `SseStream.LagsArePassedOver` | `src/http.rs:343` | a lag changes nothing in what the stream does with the events before and after it |
| `SseStream.ThroughDoneExactly` | `src/http.rs:333-342` | through the first done: all events if none is done, else up to the first done one, that included |
| `SseStream.ReplayThenLive` | `src/http.rs:321-346` | a client that never lags gets the retained events above its number, then all later accepted ones through the first done, with no gap; a prefix before it has caught up |
| `SseStream.NothingTwice` | `src/http.rs:325-346` | however far a client lags, no sequence number reaches it twice |
| `SseResume.ResumeGivesTheRestExactlyWhen` | `src/event_bus.rs:176-190` | resuming gives exactly the unseen events if and only if none was evicted, all carry greater numbers and no retained seen one does |
| `SseResume.ResumeContinues` | `src/event_bus.rs:176-190` | with increasing numbers and nothing unseen evicted, the replay of a resumed stream takes up the sequence right behind what was seen |
| `SseResume.ReplayAgreesExactlyWhen` | `src/http.rs:326-341` | replay is not cut at done: what was seen with the resumed replay is what an uninterrupted stream gives if and only if no event follows the first done |
| `SseResume.ResumedClientAgreesExactlyWhen` | `src/http.rs:308-346` | end to end, with increasing numbers: the output of a client up to a cut and of its second stream after the last number it saw, together, are the output of a client never cut off if and only if nothing was accepted behind a done before it came back, or nothing at all since the first subscription |
| `SseResume.ResumedClientIsGivenMore` | `src/http.rs:326-341` | the difference is real, for any three events the middle one of which is done: the client that comes back gets the third, the one never cut off does not |
| `SseResume.SerialTasksCanBeResumed` | `src/state.rs:81-94` | the same for every task with serial emits, whose numbers increase |
| `SseResume.EveryEmitIsAccepted` | `src/state.rs:56-58` | in every interleaving of a task's emitters no event is dropped as a duplicate, up to 2^64 of them |
| `SseResume.SerialEmitsIncrease` | `src/state.rs:81-94` | if emits are serial, the i-th accepted event carries number i |
| `SseResume.OverlappingEmitsLoseAnEvent` | `src/state.rs:86-93` | two overlapping emits can be accepted out of order, and a resuming client then never gets the earlier one |
| `SseResume.ResumableExactlyInTurn` | `src/state.rs:81-94` | in every interleaving of the emitters, while replay holds everything: every position can be resumed with exactly the rest if and only if no event is handed to the bus after one with a greater number |
| `AppState.AppState.GcFinished` | `src/state.rs:100-123` | exactly the tasks finished before the cutoff leave the task map, the sessions' lists and the bus; then exactly the idle sessions go |
| `AppState.SurvivorsStayListed` | `src/state.rs:100-121` | a task stays listed in its session, and the session stays, if and only if that task was not finished before the cutoff and of that session |
| `AppState.SessionsStayWhileUsed` | `src/state.rs:120-121` | a session stays if and only if it runs something or lists a task that stays |
| `DeliveryKeys.DecimalRoundTrip` | `src/event_bus.rs:379` | the decimal text of a number reads back as the number |
| `DeliveryKeys.KeyIsInjective` | `src/event_bus.rs:379` | `agent-task:{task}:seq:{seq}` determines task and number, for every task string |
| `DeliveryKeys.KeysAreWrittenSo` | `src/event_bus.rs:379` | three keys and the ten digits as they are written |
| `EventDelivery.AcceptedExactlyOncePerEntry` | `src/event_bus.rs:146-149` | an emit is accepted if and only if the process is up and the number was not emitted for its task since the task's entry was opened |
| `EventDelivery.AcceptedOnceWhileKept` | `src/event_bus.rs:226-228` | no number is accepted twice unless the task was collected, or the process restarted, in between |
| `EventDelivery.OutboxRunsInside` | `src/nats.rs:380-425` | the outbox inside a worker makes a run of the outbox: what holds of all its runs holds here |
| `EventDelivery.EnvelopesAreHanded` | `src/event_bus.rs:370-396` | the envelopes the outbox ever sees are exactly those handed on for accepted events, under their scoped keys |
| `EventDelivery.OneLifetimeOneAcceptance` | `src/event_bus.rs:226-228` | if all emits of a number fall into one lifetime of its task's bus entry, only one is accepted, whatever restarts and collections lie outside it |
| `EventDelivery.OnlyAcceptanceOwnKey` | `src/event_bus.rs:379-384` | the key of an event accepted once is carried by no other envelope |
| `EventDelivery.EachAcceptedEventIsStoredAtMostOnce` | `src/nats.rs:401-409` | through bus, key, outbox and broker of one worker, with crashes, restarts, lost acknowledgements and retries: each (task, number) is stored at most once; an event whose (task, number) was accepted only once is stored as nothing but itself, and once acknowledged it is stored |
| `EventDelivery.EventsOfOneLifetimeAreStoredAsThemselves` | `src/nats.rs:401-409` | the same conclusion from the emits alone: those of this (task, number) fall into one lifetime of the task's entry |
| `EventDelivery.AcknowledgedIsStoredExactlyWhen` | `src/nats.rs:526-561` | an acknowledged publish leaves its own message at the broker if and only if the broker remembers no other message under its deduplication id |
| `EventDelivery.ForgottenKeysSwallowEvents` | `src/event_bus.rs:226-228` | a whole run from nothing, for any two events with one (task, number) and different envelopes: after a collection, or a restart, the second is accepted, handed on and acknowledged, and the broker holds only the first |
| `Governance.NothingStartsOnceCancelled` | `src/orchestrator.rs:299-368` | once the cancel token is set, by request or by a failed renewal, no edit, agent, staging, commit, push, artifact, claim or final renewal starts |
| `Governance.ResetMayStartOnceCancelled` | `src/git.rs:463-471` | the protocol has the exception: `git reset` follows `git add` without a check |
| `GovernedWorker.ResetAfterAStop` | `src/git.rs:463-471` | a run of the whole worker leaves such a trace |
| `GovernedWorker.SuccessAfterAStop` | `src/orchestrator.rs:374-440` | a run of the whole worker that asks for `cancelled` and returns success |
| `GovernedWorker.ReviewAfterSuccess` | `src/orchestrator.rs:374-440` | a run of the whole worker, undisturbed: it asks for `awaiting_review` and returns success |
| `GovernedWorker.FailureAfterAFailedAgent` | `src/orchestrator.rs:374-440` | a run of the whole worker whose agent fails: it asks for `failed` and returns failure |
| `GovernedPromises.PushRestsOnARenewal` | `src/orchestrator.rs:335-355` | a governed push starts only after a successful exact renewal issued after the task's own commit |
| `GovernedPromises.WorkIsAcceptedFirst` | `src/orchestrator.rs:268-290` | nothing but workspace preparation happens before the claim was granted and then accepted as running |
| `GovernedPromises.SuccessHasDoneEverything` | `src/orchestrator.rs:299-368` | a task that returns success completed every stage once, in order, and committed and pushed exactly when the workspace was dirty |
| `GovernedPromises.TerminalReport` | `src/orchestrator.rs:374-440` | an accepted task returns only after asking once for its terminal transition: `cancelled` if and only if that had been requested by then, otherwise `awaiting_review` if and only if the execution ended with success and `failed` if and only if it ended with failure; and for `failed` as well exactly when execution succeeded and the transition was refused; success if and only if all was accepted and no periodic renewal failed |
| `GovernedPromises.GrantedClaimsAreReported` | `src/orchestrator.rs:268-290` | a task that was granted its claim returns only after reporting it: as cancelled if the token was set by then, and otherwise as running |
| `GovernedPromises.RenewalsInTurn` | `src/orchestrator.rs:413-430` | one periodic renewal at a time: while one is in flight the lifecycle does nothing; none is issued after one failed, nor before the work was accepted |
| `GovernedWorker.Worker.constructor` | `src/http.rs:257-275` | a new task has neither flag set and no history |
| `GovernedWorker.Worker.Await` | `src/orchestrator.rs:413-428` | one await: cancellations and renewals happen meanwhile; a request that is followed by its token sets the flag; a renewal that came due under a claim and was not answered well costs the task its authority; the lifecycle is not polled while one is in flight and none is issued after one failed |
| `GovernedWorker.Worker.ApplyDeterministicAppend` | `src/orchestrator.rs:478-516` | nothing is touched for an unsafe path; for a safe one the directory is made and, if that works, the file read and, unless cancelled, written; its failure does not stop the task |
| `GovernedWorker.Worker.AddWorkspaceChanges` | `src/git.rs:463-471` | staging, with no check between its two halves: a stop during an `add` that succeeds is followed by the start of `reset` |
| `GovernedWorker.Worker.RenewClaim` | `src/orchestrator.rs:346-351` | the final renewal of a governed task |
| `GovernedWorker.Worker.PublishArtifacts` | `src/orchestrator.rs:548-579` | the artifact loop ends because the directory is exhausted, or because the task was cancelled, never because an upload failed |
| `GovernedWorker.Worker.CommitAndPush` | `src/orchestrator.rs:335-358` | commit, renewal and push, each behind a check |
| `GovernedWorker.Worker.RunTaskLifecycle` | `src/orchestrator.rs:299-368` | every course of the lifecycle is one of the protocol and ends it |
| `GovernedWorker.Worker.RunClaimedLifecycle` | `src/orchestrator.rs:374-430` | the claimed lifecycle with its ticking renewals and terminal report keeps to the protocol |
| `GovernedWorker.Worker.RunTaskInner` | `src/orchestrator.rs:259-294` | preparing, claiming, admission and the lifecycle keep to the protocol and end with the result |
| `GovernedWorker.Worker.RunTask` | `src/orchestrator.rs:229-257` | whatever the world does, the history is a trace of the protocol ending with the result, every answer in it is the world's, and the task is finished with the fitting exit reason; every ungoverned task without an edit that is stopped during a successful `git add` starts `git reset` afterwards; every governed one that reaches its end undisturbed asks for `awaiting_review`, or for `cancelled` if stopped after its last check, and succeeds; every one whose agent fails asks for `failed` |
| `Fleet.ResponsesAuthorizeOneHolder` | `src/control_plane.rs:91-96` | any response authorizes at most one agent under one token, and none unless it says renewed and names both |
| `Fleet.ShownAuthorizesExactly` | `src/control_plane.rs:84-96` | the answer to anybody's renewal, with any parts missing, authorizes exactly the agent and token whose renewal the node accepted, and only if it is complete |
| `Fleet.AuthorizesExactlyTheHolder` | `src/control_plane.rs:331-356` | the answer to one's own renewal authorizes if and only if the node renewed, which is exactly for the current holder and token |
| `Fleet.ResourcesAreDistinct` | `src/control_plane.rs:341` | the elections of different work items are different |
| `FleetSafety.NothingOlderIsAccepted` | `src/control_plane.rs:303-356` | of two grants one after the other below saturation, nothing under the earlier is accepted behind the later, however late it is served and whoever sent it |
| `FleetSafety.LaterClaimsAreGreater` | `tools/reference-fleet/src/lib.rs:119-128` | a later claim on a work item has a greater token, before the counter saturates |
| `FleetSafety.WorkersActUnderGrantedClaims` | `src/control_plane.rs:263-297` | in every fleet a worker that does more than prepare carries a token the node granted to it |
| `FleetSafety.RequestsSpeakForTheirWorkers` | `src/control_plane.rs:263-356` | in every fleet each request a worker has sent is for its agent on the election `ai-work:` of its item, for thirty seconds, and, but for the claim, under the token it was granted |
| `FleetSafety.PushesPrecedeSuccession` | `src/control_plane.rs:331-356` | in every fleet, whatever renewal answers arrive, other claims' and incomplete ones included, a push rests on a renewal of the exact claim that the node accepted after the worker asked and before any successor's claim |
| `ArtifactDigest.PadMessage` | `src/storage.rs:126-132` | the padding loop gives the padding of FIPS 180-4, in the least multiple of 64 bytes that is 9 longer |
| `ArtifactDigest.ExpandSchedule` | `src/storage.rs:134-151` | the in-place schedule is the recursive one of section 6.2.2 |
| `ArtifactDigest.RunRounds` | `src/storage.rs:152-172` | the rotating registers compute the 64 rounds |
| `ArtifactDigest.CompressChunk` | `src/storage.rs:133-181` | one chunk is one application of the compression function, in place |
| `ArtifactDigest.Sha256Hex` | `src/storage.rs:109-187` | for every byte string under 2^61 bytes the digest is SHA-256 of its bits, in 64 hexadecimal digits |
| `ArtifactDigest.HexRoundTrip` | `src/storage.rs:182-186` | the digits are lowercase and decode back to the state words |
| `ArtifactDigest.PaddingIsInjective` | `src/storage.rs:126-132` | different bit strings have different padded forms |
| `ArtifactDigest.PaddedBytesAreDistinct` | `src/storage.rs:126-132` | two byte strings under 2^61 bytes have one padded form if and only if they are equal |
| `Fips180Constants.InitialWordsAreSquareRoots` | `src/storage.rs:122-125` | the initial words are the fractional parts of the square roots of the eight numbers |
| `Fips180Constants.RoundConstantsAreCubeRoots` | `src/storage.rs:110-121` | the 64 constants are the fractional parts of the cube roots of the 64 numbers |
| `Fips180Primes.TheseAreTheFirstPrimes` | `src/storage.rs:110-125` | these numbers are the first 64 primes, and the eight the first eight: in increasing order, every prime up to the last and nothing else |
| `BranchNames.SafeBranchIsASafePath` | `src/git.rs:201-221` | the ten conditions amount to: an alphanumeric start and a path of acceptable parts |
| `BranchNames.SafePathsJoin` | `src/git.rs:217-219` | joining with a slash is safe if and only if both sides are |
| `BranchNames.SlugIsItsWords` | `src/git.rs:224-241` | the regular expressions compute the words joined by dashes and cut at eighty |
| `BranchNames.SlugShape` | `src/git.rs:224-241` | every slug is non-empty, at most eighty characters, alphanumeric first, over [a-z0-9-], with no double dash |
| `BranchNames.SessionBranchExactly` | `src/git.rs:527-546` | without a hint a session branch exists if and only if the prefix is safe and the session id a safe path, whatever the title |
| `BranchNames.SessionBranchFromSafeNames` | `src/git.rs:527-546` | two names that pass the check always make a branch that passes it |
| `BranchNames.EverySessionBranchIsSafe` | `src/git.rs:527-546` | whatever is returned passes the check |
| `BranchPromises.SafeInPlainTerms` | `src/git.rs:201-221` | the check in plain terms: an alphanumeric start, only letters, digits and `._/-`, no two dots in a row, and no piece that is empty, a dot, or ends in ".lock" |
| `BranchPromises.PartsAreThePieces` | `src/git.rs:211-214` | the pieces are the slash-free texts whose joining gives the name |
| `BranchPromises.SlugInPlainTerms` | `src/git.rs:224-241` | the slug is the joined words cut at eighty, or "thread" |
| `BranchPromises.WordsAreSeparated` | `src/git.rs:224-241` | every character but a small letter or a digit separates words |
| `BranchPromises.TrimTakesOffTheEnds` | `src/git.rs:530-539` | trimming takes what is to be dropped off both ends, and nothing else |
| `BranchPromises.Blanks` | `src/git.rs:530-539` | blank are the 25 characters of Unicode White_Space |
| `BranchPromises.HintsInTurn` | `src/git.rs:520-546` | a branch hint that is not blank decides alone, taken as trimmed if safe; otherwise the title, the prompt or the session id, the first not blank, makes the slug |

## Left out

- Consecutive I/O boundaries with no effect in between are one call: both directory creations, the reads of one listing.
- Temporary files are not visible in a directory; unreadable or malformed files are a failed read.
- Error texts, logging and telemetry text, HTTP routing, authentication and JSON encoding.
- The NATS connection: whether a client is available is an input of a drain; Core NATS publishing is not modelled.
- Sanitizing of event contents and the ingest and log side channels with their circuit breaker: no theorem about runs rests on them.
- Child processes: each operation is started, and succeeds or fails; killing and reaping are not modelled.
- The steps inside workspace preparation: one stage.
- Sessions: the queue is the wait before a task's first poll; exclusion between sessions that share a checkout is not claimed.
- Wall-clock bounds between renewals and lease expiry: they depend on scheduling and on the control plane.
- `gc_finished` is one step: dispatches and emits between its separate lock acquisitions are not modelled.
- Whether a target path of the deterministic edit is acceptable is an input; its parent directory is always created first.
- `canonical_repo_key`, configuration, agents, prompts and TLS policy: case tables or regular expressions with no property over runs.
