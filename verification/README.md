# Runledger: verified models of the runtime's protocols

Runledger is a job queue on PostgreSQL with an asynchronous runtime. This project models the parts
of it whose correctness is hardest to see by reading, and proves what they promise: the registry
that settles every task at shutdown, first-cause shutdown arbitration, cron catch-up, the
savepoint batch of a scheduler pass, migration identity and history, worker admission and drain,
startup observation, generation-fenced dashboard fetches, and the names of test databases.

`dafny verify dfyconfig.toml` checks everything.

## How it is organised

| file | component |
|---|---|
| `Settlement.dfy` | the task registry as a transition system: tracking, spawning, completions, wakes (flag swap and queue push apart), collectors, aborts, callbacks, shutdown requests |
| `SettlementWakes.dfy` | the notification protocol: no lost completion, no double poll |
| `SettlementLedger.dfy` | accounting: one place per task, records only grow, no silent failure |
| `SettlementAbort.dfy` | abort phases and starts under a covering mode |
| `SettlementMarks.dfy` | exactly what an abort marks, and what it spares |
| `SettlementWaiters.dfy` | the loops that wait on the registry and its notifications |
| `TaskRegistry.dfy` | the registry as a class; its loops are paths of that transition system |
| `Shutdown.dfy`, `Startup.dfy` | arbitration, clock tightening, the phase wait; startup tokens and their publication |
| `CronCatchUp.dfy`, `CronExactness.dfy` | jitter, the bounded search, coalescing; when that search is exact |
| `ScheduleBatch.dfy` | the transaction of one scheduler pass, and many passes |
| `MigrationIdentity.dfy`, `MigrationHistory.dfy` | the fingerprinted encoding with its decoder; migrator and read-only checker |
| `Worker.dfy` | bounded admission and the drain |
| `FetchLifecycle.dfy` | one fetch in flight, stale results dropped, requests coalesced |
| `DatabaseName.dfy` | normalisation, construction, and the name a drop targets |

Code that changes state in place is a class or a method proved against a specification function;
what the code promises is then proved about those functions over every input, run or interleaving.

## What the proofs found

* **The coalescing search is not always exact.** Its limit of 86402 candidates always suffices to
  return a fire after `now` and no later than the next base plus the jitter bound. Over all streams
  and jitter functions it is the earliest jittered fire exactly when its window starts at an
  instant and the fires are at least two seconds apart or twice the bound is at most 86401
  (`SearchIsExactIff`). Beyond that it can be late with the scheduler's own XOR jitter too: for one
  schedule id at the largest bound the repository accepts, an every-second schedule coalesces on
  1 February 2026 to a later fire than its first (`RealJitterCanMiss`).
* **A schedule's last fire is never enqueued.** A due schedule whose stream has no base after its
  cursor has no next fire, is reported as an invalid expression and deferred, in every later pass
  (`FiresIff`, `LastFireIsNeverEnqueued`).
* **An unconfirmed commit is safe to follow with another pass**: jobs and cursors moved together or
  not at all (`CommitIsAllOrNothing`).
* **A drop can miss.** `drop_database` normalises the name it is given; exactly when the compacted
  prefix ends in an underscore, that is not the name that was created (`DropTarget`).
* **Abort phases cover every spawned task**, whether it was there or is spawned later
  (`SpawnedTasksAreCovered`). All callers in the runtime spawn. The interface has a limit: `spawn`
  re-checks the mode, plain `track` does not, and adopting a covered running handle is the only way
  coverage could be lost (`CoverageKeptIff`); the one call of `track` outside tests, the conversion
  of a bare join handle, uses a fresh registry that sees no abort phase.
* **The initiating signal is spared by graceful phases that follow the stop** (`InitiatingSignalIsSpared`);
  a phase run before the stop would abort it (`EarlyPhaseAbortsInitiator`).
* **Panic evidence depends on order.** Both messages are kept exactly when the poll panic is recorded
  before the destruction panic; the other way round the later one overwrites
  (`BothPanicsRetainedIff`).
* **A phase wait is never early exactly when its deadline is representable** for the stop recorded
  before it began (`NeverReturnsEarlyIff`); otherwise it can return at once (`ReturnsAtOnce`).
* **Fetch fencing is modulo 2^64.** A stale result is shown exactly when the number of requests
  made meanwhile is a non-zero multiple of 2^64 (`ShownExactlyWhenCurrent`).
* **Bundle identity ignores input order exactly when no two different entries share a key**
  (`CanonicalOrderIndependentIff`), and the in-loop checksum comparison of migrator and checker can
  never fail (`AppliedChecksumMatches`).

## Model

| member | source | states |
|---|---|---|
| SettlementWakes.NotificationKept | runledger-runtime/src/settlement.rs:247-574 | Every step of every actor keeps the notification invariant: entries and wakes name each other, each unseen live entry is queued, in hand or has a wake still to come, at most once, and completed joins in hand are live, distinct and carry their result |
| SettlementWakes.CompletionIsAnnounced | runledger-runtime/src/settlement.rs:247-259 | In every run, between collectors, a live entry whose join completed and whose wakes have all run is in the ready queue exactly once |
| SettlementWakes.QueuedAtMostOnce | runledger-runtime/src/settlement.rs:247-259 | In every run, between collectors, a live entry is in the ready queue or on its way there at most once, its flag is set exactly then, and otherwise a waker is still registered or owed |
| SettlementWakes.NoJoinIsPolledAfterCompletion | runledger-runtime/src/settlement.rs:513-533 | In every run a join is never polled after a poll returned it complete, completed ids are distinct, and each is still registered when it is retired, so the lookup cannot fail |
| SettlementWakes.CollectorRetiresCompleted | runledger-runtime/src/settlement.rs:478-533 | No lost completions: whatever is interleaved, once a collector that began after a join completed is done, that entry is retired; a boundary collector needs nothing more, an ordinary one needs it in the ready queue |
| SettlementLedger.EveryTaskIsInOnePlace | runledger-runtime/src/settlement.rs:281-292 | Conservation in every run: each task ever tracked is a live entry, one record, one interruption or one silent success, never two; records are those of the retirements in order; the counter is pre-stop callback failures plus pre-stop interruptions up to saturation |
| SettlementLedger.LedgerKept | runledger-runtime/src/settlement.rs:529-565 | Every step keeps the ledger: retired tasks are past, distinct and accounted for, and every allocated task is live or retired |
| SettlementLedger.RecordsOnlyGrow | runledger-runtime/src/settlement.rs:543-564 | Records are never lost or changed; after a stop every retired task leaves exactly one record and the interruption counter stands still |
| SettlementLedger.NoSilentFailure | runledger-runtime/src/settlement.rs:169-193 | In every supervised run a retired join that panicked, or failed without a registry abort and is no runtime-authored signal, leaves stop requested and its error recorded; a panic is never an interruption; an error is stripped exactly for an aborted runtime-authored signal that joined cancelled |
| SettlementLedger.RetireAccountsExactly | runledger-runtime/src/settlement.rs:529-565 | For every state and result, retiring requests a stop exactly for a panic, or an unasked failure that is no runtime-authored signal's, and leaves exactly the counter unit, the record with that task, id, abort mark, error and disposition, or nothing that its case calls for |
| SettlementLedger.CallbacksAreRetained | runledger-runtime/src/settlement.rs:281-292 | Over every run the callback failures after a stop are retained, all and in order, those before it are counted, and an unsupervised registry ignores all |
| SettlementAbort.RunExtends | runledger-runtime/src/settlement.rs:627-638 | The abort mode only rises; abort marks, sent aborts, denied starts and, after a stop, the initiating signals stay for the rest of the run |
| SettlementAbort.AbortPhaseCovers | runledger-runtime/src/settlement.rs:627-646 | After an abort phase every unfinished entry the mode covers is marked and aborted: all of them after `abort_all`, all but initiating signals after a graceful timeout |
| SettlementAbort.CoverageKeptIff | runledger-runtime/src/settlement.rs:311-360 | A step loses coverage exactly when it adopts a running handle that the current mode covers |
| SettlementAbort.EveryCoveredEntryIsAborted | runledger-runtime/src/settlement.rs:423-457 | In every run without such an adoption, each running entry the mode covers is aborted at every moment, whether it was there when the phase began or spawned later |
| SettlementAbort.SpawnedTasksAreCovered | runledger-runtime/src/settlement.rs:362-457 | In every run from the start that only spawns, no running entry the mode covers escapes the abort |
| SettlementAbort.CoveredSpawnNeverRuns | runledger-runtime/src/settlement.rs:434-456 | A task spawned under a covering mode is aborted and its application future is never released in whatever way the run goes on; its join can only be a cancellation |
| SettlementAbort.AdoptedHandleIsNotSwept | runledger-runtime/src/settlement.rs:311-360 | The interface admits a run in which a handle tracked after `abort_all` is not aborted until the next phase |
| SettlementMarks.MarksExactly | runledger-runtime/src/settlement.rs:148-158 | A step marks and aborts exactly the entries it is for: the one whose join is aborted, those a phase finds unfinished and covered, the one started under a covering mode; all under the all-mode, all but initiating signals under the graceful one, none without a mode |
| SettlementMarks.UnaskedTasksRun | runledger-runtime/src/settlement.rs:446-455 | In every run without an abort no task is marked, aborted or withheld, and each spawned task is released when its start is decided |
| SettlementMarks.InitiatingSignalIsSpared | runledger-runtime/src/settlement.rs:152-156 | In every run whose abort phases are graceful and follow a stop, the live entry of the initiating signal is neither marked, aborted nor withheld unless its own join is aborted |
| SettlementMarks.EarlyPhaseAbortsInitiator | runledger-runtime/src/settlement.rs:627-638 | A concrete run in which a phase before the stop aborts the signal that initiates it later |
| SettlementWaiters.EveryWaiterIsSound | runledger-runtime/src/settlement.rs:576-625 | In every interleaving of a waiting loop with everything else, a loop past its own collection whose notification has not fired finds every queued wake still to notify, and parked it has reason to wait or a notification to come |
| SettlementWaiters.ParkedWaitHasEntries | runledger-runtime/src/settlement.rs:576-594 | `wait` misses no last retirement: parked on a notification that has not fired, it has an entry left |
| SettlementWaiters.ParkedLoopSleepsThroughNothing | runledger-runtime/src/settlement.rs:576-625 | Neither loop sleeps through a completion: with nothing under way every entry left is still running |
| SettlementWaiters.ParkedObserverMissesNoFailure | runledger-runtime/src/settlement.rs:606-625 | `observe_until_stop` misses no stop requested by retiring a task |
| TaskRegistry.Registry.constructor | runledger-runtime/src/settlement.rs:301-309 | A new registry is the initial state of the transition system |
| TaskRegistry.Registry.ReadyBatch | runledger-runtime/src/settlement.rs:478-504 | Takes the ready queue and, on a boundary check, each finished live entry that was not in it exactly once |
| TaskRegistry.Registry.PollBatch | runledger-runtime/src/settlement.rs:512-527 | The polling loop skips stale wakes, clears the flag before each poll and collects the completed joins, as the specification's poll steps do |
| TaskRegistry.Registry.RetireEntry | runledger-runtime/src/settlement.rs:529-564 | Removing, classifying and recording one completed entry is the retire step |
| TaskRegistry.Registry.RetireCompleted | runledger-runtime/src/settlement.rs:529-565 | The retiring loop finds every completed task registered and is a run of retire steps |
| TaskRegistry.Registry.PollEmpty | runledger-runtime/src/settlement.rs:506-574 | One collector pass stays reachable, leaves no completed entry it was told about, and answers emptiness |
| TaskRegistry.Registry.SweepEntries | runledger-runtime/src/settlement.rs:629-637 | The abort loop raises the mode and marks and aborts exactly the unfinished covered entries |
| TaskRegistry.Registry.AbortPhase | runledger-runtime/src/settlement.rs:627-638 | An abort is a boundary collection followed by the sweep |
| TaskRegistry.Registry.WakeByRef | runledger-runtime/src/settlement.rs:248-258 | Sets the flag and pushes the wake only when the flag was clear |
| TaskRegistry.Registry.TrackGated | runledger-runtime/src/settlement.rs:318-360 | Registers a new entry with its own wake, its task still behind the start gate |
| TaskRegistry.Registry.FirstWake | runledger-runtime/src/settlement.rs:354-354 | The wake that tracking owes an entry queues it once |
| TaskRegistry.Registry.DecideStart | runledger-runtime/src/settlement.rs:446-455 | Under the lock, a live entry is marked, aborted and withheld exactly under the all-mode, or under the graceful one unless it is an initiating signal; any other future is released |
| TaskRegistry.Registry.SpawnOn | runledger-runtime/src/settlement.rs:423-457 | The new entry is aborted and withheld exactly under the all-mode, or under the graceful one unless it is an initiating signal; otherwise it is released, and either way it is queued once |
| TaskRegistry.Registry.RecordCallback | runledger-runtime/src/settlement.rs:281-292 | A callback failure is retained after a stop, counted with saturation before it, ignored without supervision |
| TaskRegistry.Registry.AbortJoin | runledger-runtime/src/settlement.rs:690-704 | A finished task is left alone; any other is live, and is marked and aborted |
| TaskRegistry.Registry.Snapshot | runledger-runtime/src/settlement.rs:658-671 | Returns records that extend the old ones and only entries that have not joined |
| TaskRegistry.CollectAloneIsARun | runledger-runtime/src/settlement.rs:506-565 | An uninterrupted collector is a path of the transition system |
| TaskRegistry.CollectAloneEffect | runledger-runtime/src/settlement.rs:506-574 | It keeps every invariant, keeps all records, and retires every completed entry it was told about |
| TaskRegistry.PendingIsUnfinished | runledger-runtime/src/settlement.rs:658-671 | After a boundary collection what is still an entry has not joined |
| Shutdown.ShutdownSignal.constructor | runledger-runtime/src/shutdown.rs:26-37 | A new signal has no request, no error, no panic and is not published |
| Shutdown.ShutdownSignal.PublishRequest | runledger-runtime/src/shutdown.rs:144-149 | Leaves startup observation stopped and the flag raised with watchers woken; the flag can be raised only once startup is stopped, as `SendFlag` requires |
| Shutdown.ShutdownSignal.RequestSince | runledger-runtime/src/shutdown.rs:126-142 | One request event: the first cause, or the earlier of both start times, then publication |
| Shutdown.ShutdownSignal.RequestAfterSignalTrigger | runledger-runtime/src/shutdown.rs:58-89 | One trigger event: evidence, first cause and initiating mark under one lock, then publication |
| Shutdown.ShutdownSignal.SignalDestructionPanicked | runledger-runtime/src/shutdown.rs:99-112 | A destruction panic joins an earlier poll panic and overwrites nothing |
| Shutdown.FirstCauseWins | runledger-runtime/src/shutdown.rs:58-89 | Over every event sequence the cause is the first stop event's for ever: a request's own, a plain request for a signal that completed, a failed signal for one that reported an error, a failed descendant for one that panicked; exactly that trigger's signal is initiating |
| Shutdown.SignalFailureHasItsError | runledger-runtime/src/shutdown.rs:65-86 | Unless a request claims it, a recorded signal failure always has its error beside it |
| Shutdown.StopTimeIsEarliest | runledger-runtime/src/shutdown.rs:126-142 | Over every sequence in lock order the recorded stop is the earliest start of all stop events, each clamped to the clock of its request |
| Shutdown.StopNeverMovesLater | runledger-runtime/src/shutdown.rs:126-173 | No further event, in whatever order, removes the request, moves it later or changes its cause or initiator |
| Shutdown.SignalErrorIsRetained | runledger-runtime/src/shutdown.rs:67-74 | The first signal error is retained whatever follows |
| Shutdown.BothPanicsRetainedIff | runledger-runtime/src/shutdown.rs:99-112 | With one poll and one destruction panic both messages survive exactly when the poll came first |
| Shutdown.PhaseKeepsInv | runledger-runtime/src/shutdown.rs:175-193 | Over every interleaving of tightenings, publications, clock ticks and waiter steps, a waiter that read an outdated clock has a publication to see or to come |
| Shutdown.NoLostTightening | runledger-runtime/src/shutdown.rs:126-193 | A waiter sleeping past the earliest stop plus allowance always has an unseen or pending publication; without one it sleeps until exactly that moment |
| Shutdown.NeverReturnsEarlyIff | runledger-runtime/src/shutdown.rs:177-193 | Over every interleaving the wait returns no earlier than the earliest stop plus its allowance, exactly when that deadline is representable for the stop recorded before the wait began |
| Shutdown.ReturnsAtOnce | runledger-runtime/src/shutdown.rs:184-189 | Where it is not, the wait can return at the instant it began |
| Startup.Initialization.constructor | runledger-runtime/src/startup.rs:63-73 | Without pending loops the runtime is initialised at once |
| Startup.LoopStartup.Acknowledge | runledger-runtime/src/startup.rs:105-122 | A token's first acknowledgement removes its name; a later one, or one after a stop, changes nothing |
| Startup.StartupClosedForm | runledger-runtime/src/startup.rs:63-129 | After any interleaving: stopped if anything stopped it, otherwise pending exactly the names nobody acknowledged |
| Startup.InitializedIff | runledger-runtime/src/startup.rs:105-129 | Initialised exactly when every pending loop acknowledged and nothing stopped or was destroyed |
| Startup.StoppedForever | runledger-runtime/src/startup.rs:88-90 | Stopped is absorbing |
| Startup.FlagImpliesStopped | runledger-runtime/src/shutdown.rs:144-149 | Over every interleaving of concurrent publications, whoever sees the shutdown flag also sees startup stopped |
| CronCatchUp.JitterIsBounded | runledger-runtime/src/scheduler.rs:452-479 | Jitter is never negative and never above its bound, and zero when the bound is not positive |
| CronCatchUp.JitterIsXorResidue | runledger-runtime/src/scheduler.rs:467-479 | At any bound the jitter of a whole second is congruent to the id xor its milliseconds, modulo one more than the bound |
| CronCatchUp.XorIsBitwise | runledger-runtime/src/scheduler.rs:478-478 | Each bit of the exclusive or differs exactly when the operands' bits do |
| CronCatchUp.FirstJitteredFireAfterCandidates | runledger-runtime/src/scheduler.rs:418-440 | The loop with its early exit is the exhaustive search over any strictly increasing candidates |
| CronCatchUp.EarliestAfterIsEarliest | runledger-runtime/src/scheduler.rs:418-440 | The search returns the least adjusted fire strictly after `after` of the candidates, or none exactly when there is none |
| CronCatchUp.LaterBasesDoNotImprove | runledger-runtime/src/scheduler.rs:426-432 | Once a base reaches the best adjusted fire no later candidate changes the result |
| CronCatchUp.SearchLimitSuffices | runledger-runtime/src/scheduler.rs:378-416 | The first base after `now` is among the candidates, so the search returns a fire after `now` and at most that base plus its jitter |
| CronExactness.SearchFindsEarliest | runledger-runtime/src/scheduler.rs:388-416 | While twice the bound is at most the maximum plus one, or the fires are two seconds apart, the result is the earliest jittered fire after `now` among all bases from the window on, and of the whole unbounded stream when the window starts at an instant |
| CronExactness.SearchIsExactIff | runledger-runtime/src/scheduler.rs:14-16 | At any instant, for any bound and spacing, the search is exact over all streams and jitter functions exactly when the window starts at an instant and the spacing is at least two seconds or twice the bound fits |
| CronExactness.SearchCanMiss | runledger-runtime/src/scheduler.rs:401-416 | At every instant, for every larger bound, an every-second stream and a bounded jitter defeat the search |
| CronExactness.NoWindowMisses | runledger-runtime/src/scheduler.rs:388-390 | Where the window start is not an instant, a base that fired less than a second ago and waits the full bound is missed |
| CronExactness.RealJitterCanMiss | runledger-runtime/src/scheduler.rs:467-479 | With the scheduler's own jitter at the largest accepted bound, a schedule id and an instant in 2026 make coalescing return a later fire than the first one |
| CronCatchUp.FewCandidatesAreExact | runledger-runtime/src/scheduler.rs:401-416 | Whenever the candidates run out before the limit, the search is exact, whatever the jitter |
| CronCatchUp.CoalescingFindsAFire | runledger-runtime/src/scheduler.rs:378-399 | Coalescing returns nothing exactly when no base from the window on reaches past `now`, which with a window is when no jittered fire of the whole stream does; its fallback adds nothing |
| CronCatchUp.NextFireIsNoneIff | runledger-runtime/src/scheduler.rs:315-330 | A parsed schedule has no next fire exactly when no base follows the missed fire, or the next one is stale and nothing lies ahead |
| CronCatchUp.NextFireIsAfterNow | runledger-runtime/src/scheduler.rs:315-330 | In every branch the next fire is strictly after `now` |
| CronExactness.NextFireIsNextBase | runledger-runtime/src/scheduler.rs:323-329 | A next base that is still ahead of `now` is the next fire, with its jitter |
| CronExactness.StaleNextFireIsEarliest | runledger-runtime/src/scheduler.rs:325-399 | A stale next base coalesces to the earliest jittered fire after `now`, of the whole stream without jitter or with room for it, and otherwise of the first 86402 candidates |
| ScheduleBatch.MaterializeSchedule | runledger-runtime/src/scheduler.rs:256-311 | Enqueues and advances the cursor, or reports the first failing step |
| ScheduleBatch.DeferSchedule | runledger-runtime/src/scheduler.rs:222-254 | Moves only the cursor to the retry time; a missing row is an error |
| ScheduleBatch.MaterializeClaimedSchedules | runledger-runtime/src/scheduler.rs:184-220 | The savepoint loop computes the batch specification, and a successful batch leaves the savepoint depth as it was |
| ScheduleBatch.Store.MaterializeDueSchedules | runledger-runtime/src/scheduler.rs:86-109 | A confirmed commit applies the whole batch; an unconfirmed one applies the whole batch or nothing and is reported as a commit error; every other outcome applies nothing |
| ScheduleBatch.CommitIsAllOrNothing | runledger-postgres/src/error/commit.rs:3-12 | Whatever an unconfirmed commit did, a claimed schedule that is still due has its old cursor and no new job, and one no longer due has the cursor and job of its outcome, so a later pass repeats only what was not applied |
| ScheduleBatch.PassCommitsIff | runledger-runtime/src/scheduler.rs:189-217 | A pass goes through exactly when every claimed row is present and every statement on each schedule's own path works |
| ScheduleBatch.PassAppendsJobs | runledger-runtime/src/scheduler.rs:286-292 | A committed pass appends exactly the jobs of the firing schedules, in claim order |
| ScheduleBatch.PassKeepsUnclaimed | runledger-runtime/src/scheduler.rs:189-217 | Unclaimed rows do not move and no row appears or disappears |
| ScheduleBatch.PassMovesCursor | runledger-runtime/src/scheduler.rs:189-217 | Each claimed cursor ends where that schedule's own outcome puts it |
| ScheduleBatch.CursorOfClaim | runledger-runtime/src/scheduler.rs:261-299 | After a committed pass a fired schedule's cursor stands at its next base if that is ahead, and else at the earliest jittered fire after `now`, and it last fired now; a deferred one's stands thirty seconds away and its last fire is kept |
| ScheduleBatch.NewJobsCarryTheFire | runledger-runtime/src/scheduler.rs:261-292 | A new job carries the missed fire of its schedule and may run at `now` |
| ScheduleBatch.PassErrorIsTrue | runledger-runtime/src/scheduler.rs:189-217 | A pass fails only for a savepoint, a failed deferral or a missing row, which its error names truly; a bad expression, enqueue or mark never fails it |
| ScheduleBatch.EachScheduleFiresOnceOrDefers | runledger-runtime/src/scheduler.rs:192-216 | A committed pass gives each schedule exactly one job and an advanced cursor, or no job and a cursor thirty seconds away |
| ScheduleBatch.OthersDoNotMatter | runledger-runtime/src/scheduler.rs:189-217 | A schedule's outcome is the same in any two committed batches that claim it |
| ScheduleBatch.CatchUpIsBounded | runledger-runtime/src/scheduler.rs:313-330 | However long the outage, no processed schedule is due again at the same `now` |
| ScheduleBatch.FiresIff | runledger-runtime/src/scheduler.rs:256-330 | With working statements a parsed schedule fires exactly when a base follows the missed fire and that base or a later one is still ahead |
| ScheduleBatch.UnparsedNeverFires | runledger-runtime/src/scheduler.rs:322-322 | An expression that does not parse never fires |
| ScheduleBatch.LastFireIsNeverEnqueued | runledger-runtime/src/scheduler.rs:189-330 | A schedule whose stream ends at its cursor gets no job in any number of passes, whatever the database does |
| MigrationIdentity.Digest.AddFrame | runledger-postgres/src/migration_identity.rs:144-147 | Feeds the big-endian length, then the bytes |
| MigrationIdentity.FingerprintBundle | runledger-postgres/src/migration_identity.rs:114-126 | The incremental digest hashes the bundle preimage |
| MigrationIdentity.FingerprintPipeline | runledger-postgres/src/migration_identity.rs:128-134 | The incremental digest hashes the pipeline preimage |
| MigrationIdentity.BuildBundle | runledger-postgres/src/migration_identity.rs:11-25 | Sorts stably, then fingerprints the bundle and the pipeline over it |
| MigrationIdentity.BigEndianDigits | runledger-postgres/src/migration_identity.rs:117-119 | Each byte of a number is its base-256 digit, the most significant first |
| MigrationIdentity.EntryLayout | runledger-postgres/src/migration_identity.rs:82-88 | Every field of an entry is where the documented format puts it, with tags 0, 1, 2 and flag 0, 1 |
| MigrationIdentity.BundleLayout | runledger-postgres/src/migration_identity.rs:79-82 | The domain is 39 bytes and the big-endian entry count follows it |
| MigrationIdentity.PipelineLayout | runledger-postgres/src/migration_identity.rs:97-99 | The framed release follows a 41-byte domain and the bundle fingerprint ends the preimage |
| MigrationIdentity.EntryRoundTrip | runledger-postgres/src/migration_identity.rs:118-124 | An entry decodes to itself in front of any bytes |
| MigrationIdentity.BundleRoundTrip | runledger-postgres/src/migration_identity.rs:77-89 | The decoder inverts the bundle preimage in front of any bytes |
| MigrationIdentity.BundlePreimageIsPrefixFree | runledger-postgres/src/migration_identity.rs:77-126 | Different manifests never share a preimage, nor is one a prefix of another's |
| MigrationIdentity.PipelineRoundTrip | runledger-postgres/src/migration_identity.rs:97-134 | The pipeline preimage decodes to release and bundle fingerprint |
| MigrationIdentity.DomainsDiffer | runledger-postgres/src/migration_identity.rs:114-134 | A pipeline preimage never equals a bundle preimage |
| MigrationIdentity.PipelineIdentifiesContent | runledger-postgres/src/migration_identity.rs:95-107 | Unless the hash collides on the four preimages involved, equal identities mean equal release and equal bundle |
| MigrationIdentity.CanonicalIsSorted | runledger-postgres/src/migration_identity.rs:12-18 | Versions ascend, and within one version simple comes before up and up before down |
| MigrationIdentity.CanonicalKeepsEntries | runledger-postgres/src/migration_identity.rs:12-18 | It is a permutation of the input |
| MigrationIdentity.CanonicalIsStable | runledger-postgres/src/migration_identity.rs:12-18 | Entries with one key stay in the order they came in |
| MigrationIdentity.CanonicalOrderIndependentIff | runledger-postgres/src/migration_identity.rs:12-24 | The manifest does not depend on iteration order exactly when different entries have different keys |
| MigrationHistory.RunMigrationsWithFilteredHistory | runledger-postgres/src/migrations.rs:978-1025 | Refuses before applying, or applies exactly the pending up migrations in order until one fails |
| MigrationHistory.InspectHistory | runledger-postgres/src/migrations.rs:426-495 | The read-only checker returns the first of its errors in the order the stages promise |
| MigrationHistory.InspectedSpec | runledger-postgres/src/migrations.rs:426-495 | For every valid database each answer of the checker means what it says: a missing table and the first migration, the first conflicting or dirty row, an unreadable fence, the first foreign version, or the first unmet migration with the newest applied one |
| MigrationHistory.AcceptsIff | runledger-postgres/src/migrations.rs:432-495 | It accepts exactly when the history table is there, every row is clean, the fence is readable and known, and every up migration but the contract one has its successful row |
| MigrationHistory.RefusalSpec | runledger-postgres/src/migrations.rs:925-957 | A refusal names the first conflicting, then the first dirty, then the first foreign fence version, and there is none exactly when the tables are clean |
| MigrationHistory.RefusesBeforeApplying | runledger-postgres/src/migrations.rs:982-1002 | Conflict, dirty and fence refusals happen before any migration is applied, and exactly when the tables call for them |
| MigrationHistory.AppliedChecksumMatches | runledger-postgres/src/migrations.rs:1034-1044 | The in-loop checksum comparison cannot fail |
| MigrationHistory.PendingIsFresh | runledger-postgres/src/migrations.rs:1004-1021 | Without a refusal a pending version has no row of any kind, so applying never collides |
| MigrationHistory.MigratorEffect | runledger-postgres/src/migrations.rs:978-1025 | Every old row stays unchanged, every new row is a successful bundled one, and success leaves every bundled up version recorded |
| MigrationHistory.ApplyAllStopsAtFirst | runledger-postgres/src/migrations.rs:1010-1022 | A failing migration is the one named, with every earlier one recorded and no later one |
| MigrationHistory.SuccessLeavesNoRefusal | runledger-postgres/src/migrations.rs:925-957 | After success no row conflicts or is dirty and no fence version is foreign |
| MigrationHistory.MigratingTwiceAppliesNothing | runledger-postgres/src/migrations.rs:1010-1022 | A second run after success applies nothing and the checker accepts |
| MigrationHistory.MigratorAndCheckerAgree | runledger-postgres/src/migrations.rs:426-495 | The checker accepts exactly when there is a history table and the migrator would succeed adding at most the contract migration; given the table both give the same refusal, and without it the checker names the first migration |
| Worker.TaskSet.Spawn | runledger-runtime/src/settlement.rs:757-767 | A spawned task has a fresh id, one wait and one abort handle |
| Worker.TaskSet.PollNext | runledger-runtime/src/settlement.rs:790-796 | A finished wait is joined once and drops its handle, so the abort map always holds exactly the ids of pending waits |
| Worker.WorkerLoop.DrainFinishedTasks | runledger-runtime/src/worker.rs:268-272 | Joins exactly the finished tasks |
| Worker.WorkerLoop.SpawnClaimedJobs | runledger-runtime/src/worker.rs:222-242 | Spawns each claimed job once, in order |
| Worker.WorkerLoop.TakeTurn | runledger-runtime/src/worker.rs:149-220 | A turn that sees stop at its head claims nothing; any other claims what free capacity, batch size and queue allow, never exceeding the concurrency limit; it drains exactly when its head saw stop, or its wait did after no capacity, no claimable types or an unfilled claim |
| Worker.WorkerLoop.Drain | runledger-runtime/src/worker.rs:248-255 | Joins until nothing is pending |
| Worker.WorkerLoop.Run | runledger-runtime/src/worker.rs:140-147 | Over any sequence of turns, a drained loop has spawned every claimed job once, in claim order, and joined every spawned task exactly once |
| FetchLifecycle.Lifecycle.ScheduleAutoRefresh | runledger-tui/src/terminal.rs:52-76 | The timer requests only when nothing is pending or in flight, so it never invalidates a running fetch |
| FetchLifecycle.Lifecycle.StartFetch | runledger-tui/src/terminal.rs:78-86 | A fetch starts exactly when none is in flight and the wanted generation was not applied |
| FetchLifecycle.Lifecycle.CompleteFetch | runledger-tui/src/terminal.rs:88-100 | A result is shown exactly when its fetch is in flight and still wanted |
| FetchLifecycle.NextKeepsInv | runledger-tui/src/terminal.rs:36-113 | Every step keeps the correspondence of generations, workers and shown results |
| FetchLifecycle.IdleTimerRequests | runledger-tui/src/terminal.rs:66-75 | On an idle, unpaused dashboard a due tick makes exactly one request, a fetch of it can start, and the deadline moves by the interval |
| FetchLifecycle.BusyTimerOnlyWaits | runledger-tui/src/terminal.rs:58-75 | In every other state a tick requests nothing; its deadline moves by the interval with a request waiting, by 250 ms when paused, and not at all otherwise |
| FetchLifecycle.EveryRunIsFenced | runledger-tui/src/terminal.rs:115-153 | In every run at most one fetch is in flight and shown generations strictly increase |
| FetchLifecycle.ShownExactlyWhenCurrent | runledger-tui/src/terminal.rs:88-100 | A result is shown exactly when the requests made during its flight are a multiple of 2^64; below that, when there were none; only a shown result is recorded as applied, with its duration |
| FetchLifecycle.StartsExactlyWhenUnseen | runledger-tui/src/terminal.rs:78-86 | With nothing in flight, a fetch starts exactly when the requests since the last shown result are not a multiple of 2^64 |
| FetchLifecycle.DuringOneFlight | runledger-tui/src/terminal.rs:52-86 | While a fetch runs only explicit requests move the generation and nothing else starts |
| FetchLifecycle.RequestsCoalesce | runledger-tui/src/terminal.rs:66-100 | Any number of requests during one flight cost exactly one further fetch, for any timer ticks before it starts and any ticks and start attempts while it runs |
| FetchLifecycle.PendingCostsOneFetch | runledger-tui/src/terminal.rs:52-100 | A wanted generation costs one fetch of the newest generation, whatever the timer does, and then nothing is left to start |
| DatabaseName.SanitizeIdentifier | runledger-test-support/src/db_lifecycle.rs:260-294 | The single pass with its flag computes map, collapse of underscore runs, and a safe start |
| DatabaseName.NameSource.BuildDatabaseName | runledger-test-support/src/db_lifecycle.rs:242-251 | Builds prefix, process id and counter, advances the wrapping counter, and until it has wrapped returns a name no earlier call returned |
| DatabaseName.SanitizedIsIdentifier | runledger-test-support/src/db_lifecycle.rs:260-294 | Every input becomes a non-empty lower-case identifier without a leading digit or a double underscore |
| DatabaseName.SanitizeFixesExactlyIdentifiers | runledger-test-support/src/db_lifecycle.rs:260-294 | The names left alone are exactly those identifiers |
| DatabaseName.SanitizeIdempotent | runledger-test-support/src/db_lifecycle.rs:260-294 | Normalising twice is normalising once |
| DatabaseName.SanitizeLowersWords | runledger-test-support/src/db_lifecycle.rs:264-280 | A name of letters, digits and single underscores not starting with a digit keeps every character, its letters in lower case |
| DatabaseName.SanitizeReplacesOthers | runledger-test-support/src/db_lifecycle.rs:265-269 | Any other character counts as an underscore |
| DatabaseName.PrefixIsKept | runledger-test-support/src/db_lifecycle.rs:243-248 | A sanitised prefix of at most 24 characters is kept whole, a longer one gives its first 24 |
| DatabaseName.DecimalReads | runledger-test-support/src/db_lifecycle.rs:250-250 | The numbers of a name read back as the process id and counter they stand for |
| DatabaseName.NamesAreDistinct | runledger-test-support/src/db_lifecycle.rs:242-251 | Up to 2^64 calls of one process give pairwise distinct names, whatever the prefixes |
| DatabaseName.NameLength | runledger-test-support/src/db_lifecycle.rs:242-251 | A built name has at most 56 bytes |
| DatabaseName.DropTarget | runledger-test-support/src/db_lifecycle.rs:210-226 | The drop targets the created name exactly when the compacted prefix does not end in an underscore, and otherwise the name with one underscore fewer |
| DatabaseName.DropMissesCreatedDatabase | runledger-test-support/src/db_lifecycle.rs:210-226 | A concrete prefix for which the drop misses |
| DatabaseName.DropNeverHitsAnother | runledger-test-support/src/db_lifecycle.rs:210-226 | Even a drop that misses never targets another database of the same process |

## Modelling choices

* A wake is two steps, flag swap and queue push, with any steps of others in between. Wakes may also
  run spuriously at any time. A completion and the wake it causes are separate steps.
* The registry lock is held from a collector's first step to its last; completions, wakes and
  shutdown requests run meanwhile. Every other locked section is one step. Task ids may be reused
  once retired; wakes are identified by their allocation.
* Methods of the registry class run without interference; their contracts place them on paths of
  the transition system, whose lemmas quantify over all interleavings.
* Clocks, finished tasks, claimable jobs and statement outcomes are parameters chosen by the
  environment. Time is a monotone integer clock. A cron expression is the strictly increasing
  stream of whole-second instants it enumerates.
* Assumed of code outside the model: a claim returns at most its limit and distinct rows; one
  successful `apply` adds one matching successful row, and its SQL may create the fence table or add
  its own version to it; up versions in the bundle and rows in the history table are unique; the
  history query returns rows in version order.

## Left out

- CronExactness.SearchIsExactIff: quantifies over all bounded jitter functions; for the XOR jitter itself exactness is an instance and failure is shown at the largest bound, not at every bound between.
- SettlementAbort.AbortPhaseCovers: the sweep over the entries is one step, so a task finishing in the middle of a sweep is seen as finishing before or after it.
- TaskRegistry.Registry.PollEmpty: the result value a join carries is reduced to success, cancellation or panic.
- SQL text, connection pools, PostgreSQL locking and migration DDL; only the history, fence, schedule and job tables appear.
- The trigger diagnostics, expand-schema validation and legacy idempotency rejection that follow the history stage of `inspect_schema`.
- SHA-256: an arbitrary function; identity is stated up to collisions.
- Waker memory ordering, the internals of shared futures, and the Tokio scheduler.
- A shutdown signal without a tracked startup, whose publication only raises the flag.
- `wait_initialized`, which returns the first state that is not pending.
- Cancelling a waiting loop, and the watch its caller keeps for stops requested by others.
- `TaskSet::abort_all` and its `Drop`, which mark entries as the abort sweep does.
- Overflow panics of date arithmetic outside the representable range.
- The JSON payload of an enqueued job, apart from the missed fire it records.
- Job execution, leases, terminal observers, and the logging of drained results in the worker.
- Terminal rendering, key handling and view state around the fetch lifecycle.
- `settlement/report.rs`, `supervisor/driver`, the signal task's owner and `jobs/queue` are not part of this model.
