# StreamGate: registry, statistics, pools and authorisation cache

StreamGate is a stream authorisation gateway. Media servers ask it whether a client may publish or
play a stream; it keeps the live tasks in Redis, reclaims tasks that stop sending heartbeats, caches
authorisation rows, and runs on a thread pool and a database connection pool. This project models the
parts where those pieces have to agree with each other, and proves what every run keeps.

Check the whole project with `dafny verify dfyconfig.toml`.

| file | what it holds |
|---|---|
| `Text.dfy`, `StreamTask.dfy`, `TaskCodec.dfy` | decimal text, the task record, the Redis hash of a task |
| `Registry.dfy` | the six linked Redis structures and every state-manager call as a function on them |
| `StateManager.dfy` | the manager and the scheduler as classes with the program's loops, proved against `Registry` |
| `Scores.dfy` | the timestamp scores against the activity times |
| `Cleanup.dfy`, `PassRuns.dfy` | what a cleanup round leaves, and the cut pass against it |
| `ScanEffect.dfy`, `ScanProtocol.dfy`, `ScanRefinement.dfy` | the timeout scan in one piece, cut at its Redis commands among other scanners, and the link between the two |
| `Registration.dfy`, `Agreement.dfy`, `PlayerCount.dfy`, `Rollback.dfy` | what a registration accepts and leaves, and what each call keeps, counts and undoes |
| `Gateway.dfy`, `Teardown.dfy`, `TtlRace.dfy` | runs of calls, failing registrations, expiries, and cleanup passes and callbacks cut at every access: agreement, player account, lost publishers, late callbacks, TTL against timeout |
| `Stats.dfy`, `Seqlock.dfy`, `Aggregate.dfy`, `AggregateAlone.dfy`, `Overlap.dfy`, `SlotRegistry.dfy` | statistics slots, their sequence lock, aggregation and the slot mask |
| `ThreadPool.dfy` | submit, worker loop and drain-on-stop |
| `ConnectionPool.dfy`, `PoolUse.dfy`, `PoolAssertions.dfy` | the database connection pool, its counters, what its users get, and the assertion that loads two counters |
| `AuthCache.dfy`, `AuthStaleness.dfy`, `AuthCounters.dfy` | cache-aside authorisation, alone and under concurrency, and its statistics |
| `UrlParams.dfy` | the query-string parser |

Whatever is shared between threads or nodes is a machine of small steps: a step is one access to shared
state (or one whole critical section whose inside nobody can see), any enabled step may come next, and
the theorems speak of every run. Calls of the state manager are atomic, as its header says
(include/RedisStreamStateManager.h:27), except the scan. Clocks, database contents, command failures and
connection outcomes are parameters of the steps.

## Where the code differs from what it says

- The double check of the scan is described as protection against reclaiming a live task. It protects a
  heartbeat that lands before the hash is read (`HeartbeatBeforeReadSaves`); one that lands between the
  read and the removal is lost (`HeartbeatAfterReadIsLost`).
- A put-back by the scan can overtake a heartbeat: it then leaves a score older than the task's last
  activity, so the next scan looks at the task too early (`OvertakenRun`, `ScoresExact`). The double check
  makes that harmless.
- A task key is `task:<stream>:<client>` without escaping, so names with a colon can collide. The index
  agreement holds exactly for names whose keys do not collide (`PublisherAgreement`).
- The cleanup thread deregisters expired tasks a second time, in a later call than the scan. If another
  client has published the stream in between, it loses its lock (`IntruderLosesLock`, `BatchExact`).
- An end-of-publish callback checks who is calling and then clears the stream in a second call. If the
  stream has changed hands in between, the newcomer is torn down (`StaleCallback`, `LateClearExact`).
- That second deregistration also lowers the player counter twice; the reading of the counter wraps a
  negative total to an enormous one (`CleanupMiscounts`).
- `TASK_TTL_SEC` and the default scan timeout are both 60 s. A scan can see a vanished task as timed out
  only in the short delay between taking an activity time and setting the TTL (`TtlBeatsScan`,
  `ScanIsBlind`), and scans are 30 s apart. When none falls into it, nothing removes the indices of a
  publisher that vanished, and its stream cannot be published by anyone else
  (`LostPublisherBlocksStream`).
- `registerTask` promises that a failure has undone all side effects. `FailureRestoresExactly` says for
  every store and every fault when that is so; it never is for a client that reconnects
  (`ReconnectFailureLosesOld`).
- A heartbeat for an unknown task creates a hash with one field that no reader accepts (`TouchHash`).
- `acquireSlot` loads mask word 0 in both rounds: without contention the upper 64 of the 128 slots are never
  given out (`AcquireSlot`). Slots are exclusive all the same.
- Two releases that merge into the history at the same time lose counts (`OverlapRun`, `ConservesExactly`).
- The connection pool counts each prefilled connection twice and subtracts idle ones twice at shutdown
  (`Prefill`, `DrainIdle`, `AssertionAfterShutdown`).
- `markConnectionAcquired` asserts that the active count is at most the total, but loads the two one after
  the other while others move, so the assertion can fail in a pool whose counters are right. It cannot
  exactly when there is at most one more thread than prefilled connections or the pool can lend at most
  one more (`AcquireAssertionExact`); with 5 prefilled and a limit of 20 it can from seven threads on.
  `getPoolStats` loads its two numbers in the same way, so its idle number is what `CountersAtOneMoment`
  says only if nobody moves in between.
- The pool's limit is not a limit on connections: a dead one is uncounted before it is destroyed. It is a
  limit exactly when there are no more threads than it allows, or the pool never grows
  (`ObjectsWithinLimit`).
- A cached authorisation is not bounded by the TTL alone, because the TTL starts when the record is written
  and not when it was read (`StalenessExact`).
- The `__EMPTY__` marker of the authorisation cache is read back as a plain miss (`CacheGet`), so negative
  caching does not spare the database.

## Model

| member | source | states |
|---|---|---|
| `ScanProtocol.AlwaysSupervised` | src/repository/RedisStreamStateManager.cpp:395-436 | in every interleaving of any number of scanners cut at each Redis command with register, registrations failing at any command, deregister, touch, batch, clear and TTL expiry, every readable task hash is in the timestamp set or in the hands of a scanner that still owes it a decision |
| `ScanProtocol.SupervisedWhenQuiet` | src/repository/RedisStreamStateManager.cpp:407-434 | from the empty store, whenever no scanner is between claim and decision, every readable task is in the timestamp set |
| `ScanProtocol.ClaimsAreExclusive` | src/repository/RedisStreamStateManager.cpp:409-412 | every insertion into the timestamp set carries its own stamp, and no stamp is ever claimed twice, by whichever scanner |
| `ScanProtocol.ReportsAreStale` | src/repository/RedisStreamStateManager.cpp:420-433 | in every run, whatever a scan reports was last active at or before that scan's cutoff when it was read, and whatever it puts back after it |
| `ScanProtocol.HeartbeatBeforeReadSaves` | src/repository/RedisStreamStateManager.cpp:414-428 | a heartbeat newer than the cutoff that lands before the scan's hash read, with any steps between that write no activity time at or before the cutoff for that task, is not reported; if the task is still there it goes back with its last-active time as score |
| `ScanRefinement.HeartbeatAfterReadIsLost` | src/repository/RedisStreamStateManager.cpp:414-433 | from the empty store, for every readable task, every scan that finds it timed out and every heartbeat, however new: if it arrives between the read of the hash and the removal, the task is removed and reported all the same |
| `ScanRefinement.ScanAlone` | src/repository/RedisStreamStateManager.cpp:395-436 | from every system, a scan that nobody interrupts is a run of the step machine and ends in the store, and with the reports, of the sequential scan loop; other scanners are left as they were |
| `ScanEffect.ScanIs` | src/repository/RedisStreamStateManager.cpp:395-436 | the scan loop over distinct keys equals a closed form of the store and of the expired list |
| `ScanEffect.UninterruptedScan` | src/repository/RedisStreamStateManager.cpp:395-436 | an uninterrupted scan returns exactly the readable candidates last active at or before the cutoff, removes their hashes and index entries, leaves other tasks alone, and leaves no score in [0, cutoff] |
| `ScanEffect.SecondDeregistration` | src/scheduler/StreamTaskScheduler.cpp:221-238 | deregistering the scan's result again does exactly one thing: it lowers the player counter once more per expired player |
| `Gateway.AgreementExact` | src/repository/RedisStreamStateManager.cpp:193-593 | for every run, with times in range and names whose keys do not collide, of calls, failing registrations, expiries, callbacks and cleanup passes cut at every Redis command of the scan and every call after it: all its stores have at most one readable publisher task per stream, which its lock, its members set and the active list name, if and only if none of its batches takes the lock of a stream that has a publisher the batch does not deregister |
| `Gateway.PublisherAgreement` | src/repository/RedisStreamStateManager.cpp:626-629 | that equivalence holds of all runs over given names if and only if no two (stream, client) pairs of them share a task key |
| `Gateway.BatchExact` | src/scheduler/StreamTaskScheduler.cpp:237-238 | the second deregistration of reported tasks, whenever it comes, keeps one publisher with its lock per stream if and only if it strands nobody |
| `Gateway.NoIntruderNoStrand` | src/scheduler/StreamTaskScheduler.cpp:219-245 | if nobody publishes a stream while a pass still owes the deregistration of another client as its publisher, no batch of the run strands anybody |
| `Gateway.IntruderLosesLock` | src/scheduler/StreamTaskScheduler.cpp:219-245 | for every stream and any two clients, a run from the empty store in which the second client publishes between scan and batch and is left without its lock |
| `Agreement.CollisionBreaks` | src/repository/RedisStreamStateManager.cpp:626-629 | for every pair of colliding keys, a concrete run that leaves a publisher task without its lock |
| `Agreement.ColonFreeIsSeparable` | src/repository/RedisStreamStateManager.cpp:626-629 | stream names without colons, or client ids without colons, are enough for distinct keys |
| `Gateway.PlayerAccountFromStart` | src/repository/RedisStreamStateManager.cpp:512-593 | after every run with times in range, over any names, with registrations failing and passes cut anywhere, the global player counter is the number of live player tasks plus exactly the charges of the run: TTL losses, overwritten players, failed counter writes, and each target of a batch against what is there when the batch comes |
| `PlayerCount.CleanupMiscounts` | src/repository/RedisStreamStateManager.cpp:444-460 | from a right counter, the reported count after a cleanup pass is right if and only if no player expired, and otherwise wraps modulo 2^64 when it falls below zero |
| `PlayerCount.CleanupDrift` | src/scheduler/StreamTaskScheduler.cpp:212-261 | a cleanup pass moves the counter away from the truth by exactly the number of players it found |
| `Teardown.PublishDoneTearsDown` | src/scheduler/StreamTaskScheduler.cpp:106-121 | with nothing between its check and its clearing: from the stream's publisher, exactly that stream disappears from every structure but the timestamps and the counter falls by exactly its player tasks; from anyone else nothing changes |
| `Teardown.CallbackAlone` | src/scheduler/StreamTaskScheduler.cpp:106-121 | with nobody in between, the check passes if and only if the caller's readable task is a publisher, and check and clearing together are the callback in one piece |
| `Teardown.LateClearExact` | src/scheduler/StreamTaskScheduler.cpp:110-115 | whenever the clearing comes after the check, it removes exactly the stream as it is then, and hits another client's publisher task if and only if there is one |
| `Teardown.StaleCallback` | src/scheduler/StreamTaskScheduler.cpp:110-115 | for every stream and any two clients, a run in which the first's callback passes its check and then clears the second's publication |
| `Teardown.FreeAfterTeardown` | src/repository/RedisStreamStateManager.cpp:200-215 | after a teardown any client may publish the stream |
| `Teardown.ExpiryLosesLock` | src/repository/RedisStreamStateManager.cpp:237-242 | when a publisher's hash expires, its lock stays and no publisher task of the stream is left |
| `Teardown.LostPublisherBlocksStream` | src/repository/RedisStreamStateManager.cpp:200-208 | after any further run over names whose keys do not collide, with passes and callbacks cut and registrations failing anywhere and whatever happens to other streams, in which that client does not publish again, such a stream refuses every other publisher |
| `TtlRace.TtlBeatsScan` | include/RedisStreamStateManager.h:32 | in every timed run whose calls set the TTL at most `delay` after taking their time, a scan finds a task expired only with a timeout of at most TTL + delay, and only until TTL + delay after its last activity |
| `TtlRace.ScanIsBlind` | include/StreamTaskScheduler.h:22-26 | the scans of all such runs find nothing at all if and only if the timeout exceeds TTL + delay |
| `Rollback.WithoutFaults` | src/repository/RedisStreamStateManager.cpp:193-291 | the fault-injected registration with no fault is the registration of the registry |
| `Rollback.FailureRestoresExactly` | src/repository/RedisStreamStateManager.cpp:193-291 | over every store and every fault, with any prefix of the index pipeline applied, a failed registration leaves the whole store as it was if and only if `Restorable` holds: a conflict, or nothing to clean first and, by the step that failed, the hash never written, no hash there before, or an undo that can read the task and removes only what was added |
| `Rollback.FailureRestores` | src/repository/RedisStreamStateManager.cpp:231-285 | for a client with no hash, membership or lock in the store that means exactly `Undoable`: times in range and, for a player, the counter raised before it is lowered, or a failure before the indices |
| `Rollback.PublisherFailureRestores` | src/repository/RedisStreamStateManager.cpp:474-509 | for publishers with times in range it always does |
| `Rollback.PlayerFailureUndercounts` | src/repository/RedisStreamStateManager.cpp:512-524 | a player whose member entry or counter could not be written leaves the counter one too low and nothing else changed |
| `Rollback.ReconnectFailureLosesOld` | src/repository/RedisStreamStateManager.cpp:210-285 | a reconnecting client whose registration fails at any step has lost its old one |
| `Registration.AcceptsExactly` | src/repository/RedisStreamStateManager.cpp:200-215 | for every store, task and clock, a registration succeeds if and only if the clock is in range and it is not that of a publisher of a stream whose readable lock names another client; so a publisher may always register again over its own lock |
| `Registration.PublisherRegistered` | src/repository/RedisStreamStateManager.cpp:193-291 | the whole store after a publisher was registered, field by field: hash, score, membership, lock and active entry are there, and nothing else changes but the counter, by a live player of the same client under its own lock |
| `Registration.PlayerRegistered` | src/repository/RedisStreamStateManager.cpp:216-291 | the whole store after a player was registered: hash, score and membership are there, it is counted once, and only a client that was the live publisher gives up lock and active entry |
| `Registration.RefusalChangesNothing` | src/repository/RedisStreamStateManager.cpp:203-208 | a refused publisher leaves the store as it was |
| `Registration.BadClockLeavesNothing` | src/repository/RedisStreamStateManager.cpp:271-276 | with a clock out of range a readable task is undone: no hash, no membership, and for a publisher no lock and no active entry |
| `Registration.AcceptsWithFaults` | src/repository/RedisStreamStateManager.cpp:231-285 | with any fault a registration succeeds if and only if it would without and its hash, expiry, score and index or member entry could be written; a counter that could not be raised does not stop it |
| `Registration.AcceptedWithFaults` | src/repository/RedisStreamStateManager.cpp:512-524 | and then it leaves what it would have left without, except for the count that was not raised |
| `StateManager.RedisStreamStateManager.RegisterTask` | src/repository/RedisStreamStateManager.cpp:193-291 | the command sequence computes `Register`, including refusal, pre-cleaning and undo |
| `StateManager.RedisStreamStateManager.DeregisterTask` | src/repository/RedisStreamStateManager.cpp:293-308 | the command sequence computes `Deregister` and reports success in both branches |
| `StateManager.RedisStreamStateManager.DeregisterTasksBatch` | src/repository/RedisStreamStateManager.cpp:554-593 | the loop computes `DropAll` and returns the number of targets; the timestamp set is untouched |
| `Scores.TouchReach` | src/repository/RedisStreamStateManager.cpp:360-392 | a heartbeat sets the score and the hash's last-active time of its own key to its time and changes nothing else |
| `Scores.TouchOffers` | src/repository/RedisStreamStateManager.cpp:372-374 | the next range query offers the task if and only if its cutoff is not before the heartbeat, and every other key exactly when it would have before |
| `Scores.ScoresExact` | src/repository/RedisStreamStateManager.cpp:407-428 | in every interleaving, every readable task in the timestamp set has a score of at least its last activity throughout, if and only if no scanner puts a key back with a score that a heartbeat has overtaken |
| `Scores.OvertakenRun` | src/repository/RedisStreamStateManager.cpp:414-427 | from the empty store, for every task, scan and pair of heartbeats, a run in which that happens |
| `StateManager.RedisStreamStateManager.TouchTask` | src/repository/RedisStreamStateManager.cpp:360-392 | computes `Touch`, also on a missing task |
| `StateManager.RedisStreamStateManager.DeregisterAllMembers` | src/repository/RedisStreamStateManager.cpp:527-552 | collecting, batch and deletion compute the closed form `ClearStream`, in whatever order members are listed |
| `StateManager.RedisStreamStateManager.ScanTimeoutTasks` | src/repository/RedisStreamStateManager.cpp:395-436 | the scan loop computes `Scan` over an answer of the range query |
| `StateManager.ClearStreamByBatch` | src/repository/RedisStreamStateManager.cpp:538-550 | the member-by-member batch equals the closed form for every listing of the members |
| `StateManager.RangeByScore` | src/cache/CacheManager.cpp:391-407 | every member with a score in the closed interval, once, by ascending score |
| `StateManager.StreamTaskScheduler.OnPublishDone` | src/scheduler/StreamTaskScheduler.cpp:106-121 | computes `PublishDone` |
| `StateManager.StreamTaskScheduler.OnPlayDone` | src/scheduler/StreamTaskScheduler.cpp:183-187 | computes `Deregister` |
| `Cleanup.CleanupExact` | src/scheduler/StreamTaskScheduler.cpp:219-245 | after a round on a store whose indices agree: a hash is gone if and only if it timed out or belongs to a stream whose publisher did; a member entry, if and only if its task did or its stream's publisher did; exactly those streams lose lock and active entry; everything else is as it was |
| `PassRuns.PassAlone` | src/scheduler/StreamTaskScheduler.cpp:219-245 | from every state, a cut pass that nobody disturbs ends and has done to the store what the round in one piece does |
| `PassRuns.PassClears` | src/scheduler/StreamTaskScheduler.cpp:241-245 | in every run, whoever moves in between, a pass that is over has cleared each stream whose publisher it reported |
| `PassRuns.ClearingClears` | src/repository/RedisStreamStateManager.cpp:527-552 | at the step that does it the stream loses all its member entries, and nobody who had one has a readable task of the stream any more |
| `StateManager.StreamTaskScheduler.CleanupRound` | src/scheduler/StreamTaskScheduler.cpp:212-248 | one round computes `CleanupPass`, clears each stream with an expired publisher once, and counts the cleaned tasks |
| `Registry.RegisterReach` | src/repository/RedisStreamStateManager.cpp:193-291 | registering touches no other task key; afterwards the task is stored and timed, or the store is unchanged, or the key is unreadable |
| `TaskCodec.RoundTrip` | src/repository/RedisStreamStateManager.cpp:37-166 | for every task, reading its stored fields gives it back with millisecond times, no task id, no shared counters and an empty region as none, if and only if both times are in the accepted range |
| `TaskCodec.StrippedSameFields` | src/repository/RedisStreamStateManager.cpp:37-62 | what was lost is not stored: serialising the read task gives the same fields |
| `TaskCodec.ReadIsStable` | src/repository/RedisStreamStateManager.cpp:64-166 | whatever text a hash holds, what is read from it is a fixed point of storing and reading |
| `TaskCodec.ReadsExactly` | src/repository/RedisStreamStateManager.cpp:64-140 | whatever text a hash holds, it is read if and only if the five required fields are there, the type is one of the two, and both times are numbers in range |
| `TaskCodec.ReadsDefaults` | src/repository/RedisStreamStateManager.cpp:75-165 | and then each field has its own text, or its default when it is missing or no number |
| `TaskCodec.StoredTexts` | src/repository/RedisStreamStateManager.cpp:44-61 | each plain field of the task is stored under its own name |
| `TaskCodec.StoredNumbers` | src/repository/RedisStreamStateManager.cpp:44-61 | and each number and flag |
| `TaskCodec.ViewTouches` | src/repository/RedisStreamStateManager.cpp:372-374 | a heartbeat changes exactly the last-active field, and creates a one-field hash when there is none |
| `TaskCodec.ViewReads` | src/repository/RedisStreamStateManager.cpp:64-166 | the two-shape view of a hash used by the registry is read exactly as its field text is |
| `TaskCodec.ViewOverwrites` | src/repository/RedisStreamStateManager.cpp:231-235 | writing a task over whatever hash is there leaves exactly the task's fields |
| `StreamTasks.EnumTexts` | include/StreamTask.h:84-150 | type, state and protocol texts are read back as the value they came from, protocols in any letter case |
| `StreamTasks.OtherTexts` | include/StreamTask.h:84-150 | any other text is read as the default |
| `StreamTasks.MsTruncates` | src/repository/RedisStreamStateManager.cpp:39-42 | stored times are cut toward zero to whole milliseconds |
| `Text.ParsePrinted` | src/repository/RedisStreamStateManager.cpp:48-52 | decimal printing and parsing are inverse exactly for numbers that fit the target type |
| `Text.ParsePadded` | src/repository/RedisStreamStateManager.cpp:118-127 | blanks and a plus sign before a number and text behind it do not matter |
| `Seqlock.ReadsAreAtomic` | src/metrics/ServerMetricsProvider.cpp:12-42 | in every interleaving of one writer and any readers, each read that leaves its retry loop returns the triple of one single update, no older than the last one completed when the read began |
| `Seqlock.ReadTakesEffectAtOnce` | src/metrics/ServerMetricsProvider.cpp:25-42 | at some moment between the beginning and the end of a read, what it returns is the triple of the update completed last, so a read can be taken as one step |
| `Seqlock.ReadsDoNotGoBack` | src/metrics/ServerMetricsProvider.cpp:25-42 | a reader's later call never returns an older update than its earlier one |
| `Seqlock.UpdateAlone` | src/metrics/ServerMetricsProvider.cpp:12-23 | an update that nobody interrupts completes and the slot holds its triple |
| `Seqlock.ReadAlone` | src/metrics/ServerMetricsProvider.cpp:25-42 | a read that no update interrupts returns at the first try, with the triple completed last |
| `Aggregate.AggregateIsBounded` | src/metrics/ServerMetricsProvider.cpp:75-116 | no aggregate ever exceeds the total recorded, in every interleaving; and it misses nothing recorded before it began, if no release was under way while it ran and no two releases have ever overlapped |
| `Aggregate.CountsAreConserved` | src/metrics/ServerMetricsProvider.cpp:75-92 | in every run, history, slots, counts in flight and what overlapping merges have overwritten add up to the total ever recorded; what was overwritten is never negative and is nothing as long as releases do not overlap; a free slot is always zero |
| `AggregateAlone.AggregationAlone` | src/metrics/ServerMetricsProvider.cpp:94-116 | from every state, an aggregation that nobody disturbs ends and returns the history plus every slot whose bit is set |
| `Overlap.OverlapRun` | src/metrics/ServerMetricsProvider.cpp:85-87 | from the start, for any two slots and any counts, a run whose overlapping releases lose exactly the first slot's counts |
| `Overlap.ConservesExactly` | src/metrics/ServerMetricsProvider.cpp:75-92 | all runs with at most `n` releases between reading and writing the history lose nothing if and only if `n` is at most one |
| `SlotRegistry.SlotsAreExclusive` | src/metrics/ServerMetricsProvider.cpp:51-92 | in every interleaving of searches and releases a bit is set exactly when one thread, and only one, holds the slot |
| `SlotRegistry.SearchAlone` | src/metrics/ServerMetricsProvider.cpp:51-73 | from every state, a search that nobody disturbs claims the lowest clear bit of word 0, or nothing if word 0 is full |
| `SlotRegistry.LostRaceGoesOn` | src/metrics/ServerMetricsProvider.cpp:67-68 | a search that loses the race for a bit goes on behind it with a fresh copy of the word it claims in |
| `SlotRegistry.ThreadLocalRegistry.AcquireSlot` | src/metrics/ServerMetricsProvider.cpp:51-73 | the lowest clear bit of word 0 is claimed and its slot cleared, or none if word 0 is full; the reported sum stays |
| `SlotRegistry.ThreadLocalRegistry.ReleaseSlot` | src/metrics/ServerMetricsProvider.cpp:75-92 | the slot is emptied into the history and its bit cleared; the reported sum stays |
| `SlotRegistry.ThreadLocalRegistry.Update` | src/metrics/ServerMetricsProvider.cpp:12-23 | an owner's new counts move the reported sum by exactly the difference |
| `SlotRegistry.ThreadLocalRegistry.Aggregate` | src/metrics/ServerMetricsProvider.cpp:94-116 | the lowest-bit scan returns history plus the sum over all set bits, and ends because the bits left decrease |
| `ThreadPool.NothingLostNothingTwice` | src/util/ThreadPool.cpp:41-103 | throughout every run tasks are taken in acceptance order, each accepted task is queued, in one worker's hands or finished once, and accepted = queued + running + completed + failed |
| `ThreadPool.NothingAfterExit` | include/ThreadPool.h:64-92 | once any worker has returned the queue is empty and nothing is accepted in any continuation |
| `ThreadPool.DrainedWhenJoined` | src/util/ThreadPool.cpp:109-163 | once the workers are joined every accepted task has run exactly once, and at most one was accepted after the stop flag rose |
| `ThreadPool.StopCanComplete` | src/util/ThreadPool.cpp:45-163 | from every reachable state with the stop flag up there is a way on in which the workers run what is left, leave and are joined |
| `ThreadPool.AdmissionExact` | include/ThreadPool.h:64-86 | in every run a limited queue never exceeds its limit; exactly the submissions whose check found the pool stopping or the queue full were rejected and exactly the others admitted; every submission begun is accepted, rejected, or the one still holding the lock |
| `ThreadPool.OutcomesCounted` | src/util/ThreadPool.cpp:78-101 | the completed and failed counters are the numbers of tasks that ended well and badly |
| `ConnectionPool.Prefill` | src/db/DBManager.cpp:32-52 | the prefill loop pools each successful connection and counts it twice |
| `ConnectionPool.Construct` | src/db/DBManager.cpp:32-52 | the constructor leaves the start state of the runs below, with as many prefilled connections as attempts succeeded |
| `ConnectionPool.TotalIsExact` | src/db/DBManager.cpp:153-262 | in every interleaving before shutdown, with failed validations and creations, the total counter is pooled + lent + validated + created + returned + the number prefilled, so no more than `maxSize` connections are counted |
| `ConnectionPool.ObjectsWithinLimit` | src/db/DBManager.cpp:167-205 | the connections that exist, dead ones not yet destroyed included, stay within `maxSize` in every run if and only if there are no more threads than `maxSize` or the pool starts full and never grows |
| `ConnectionPool.ObjectsBounded` | src/db/DBManager.cpp:187-205 | in every run they stay within the larger of the prefilled number and the number of threads, and within the prefilled number when the pool starts full |
| `ConnectionPool.CountersAtOneMoment` | include/DBManager.h:137-142 | at every moment active is between zero and total, total is at least the pooled number (the assertions on one counter, and the one made under the lock), and total less active is the pooled number plus the prefilled one plus what is between pool and user |
| `PoolAssertions.AcquireAssertionExact` | include/DBManager.h:131-135 | with the two loads of the assertion at different moments, in either order: it passes in all runs if and only if threads <= prefilled + 1 or maxSize <= 2 * prefilled + 1 |
| `PoolAssertions.LoadsFail` | include/DBManager.h:131-135 | otherwise, for either order, a run from the start in which it fails |
| `ConnectionPool.OneHomeFromStart` | src/db/DBManager.cpp:167-185 | no connection is ever in two places: twice in the pool, in the pool and lent, or with two threads |
| `PoolUse.PoolIsFifo` | src/db/DBManager.cpp:168-171 | in every interleaving, what was pooled and what was given back since is what was taken, in that order, followed by what is pooled now |
| `PoolUse.WaitsOnlyWhenEmpty` | src/db/DBManager.cpp:187-231 | a thread begins to wait only with the pool empty, and grows the pool only when it is empty and the number it read is current and below the limit |
| `PoolUse.AcquirePooled` | src/db/DBManager.cpp:168-178 | with nobody else moving, a live pooled connection: the first one is lent |
| `PoolUse.AcquireNew` | src/db/DBManager.cpp:188-201 | an empty pool below its limit: a new one is lent and counted |
| `PoolUse.AcquireWaits` | src/db/DBManager.cpp:209-231 | an empty pool at its limit: the thread waits and nothing has changed |
| `PoolUse.CreationFails` | src/db/DBManager.cpp:202-204 | a connection that cannot be made is uncounted again |
| `PoolUse.WokenTakes` | src/db/DBManager.cpp:223-235 | a waiting thread woken with a live connection in the pool gets the first one |
| `PoolUse.DeadIsSkipped` | src/db/DBManager.cpp:180-185 | a dead pooled connection is uncounted and the search goes on with the next |
| `PoolUse.GiveBack` | src/db/DBManager.cpp:238-262 | a connection given back is the last in the pool and no longer active |
| `ConnectionPool.ObjectsReachThreads` | src/db/DBManager.cpp:180-184 | for every growing pool and at least as many threads as prefilled connections, a run from the start in which every thread has an object, whatever `maxSize` is |
| `ConnectionPool.DrainIdle` | src/db/DBManager.cpp:74-80 | the shutdown loop subtracts every idle connection twice |
| `ConnectionPool.AssertionAfterShutdown` | include/DBManager.h:151-155 | after it, read at one moment, the total is at least the active count if and only if there were no more idle connections than prefilled ones and connections on their way |
| `AuthCache.DirectExact` | src/repository/HybridAuthRepository.cpp:139-185 | the database allows data exactly as its row says: the row of this very stream, client and token, with the row's own flag, and no empty name |
| `AuthCache.AnswersAreRows` | src/repository/HybridAuthRepository.cpp:54-92 | with a fixed database and whatever keys, data answered in any run is the query's own row |
| `AuthCache.RequestCaches` | src/repository/HybridAuthRepository.cpp:105-122 | a miss leaves a marker for 30 s without a row and 5 s after an error, or the row's record for the configured time; no other key changes |
| `AuthCache.MarkersAreInert` | src/cache/CacheManager.cpp:178-184 | a marker, or a record whose time is over, answers and counts as if it were not there |
| `AuthCache.AuthRepository.GetAuthData` | src/repository/HybridAuthRepository.cpp:43-93 | computes `Request`: result, cache and statistics |
| `AuthStaleness.ConcurrentRefinement` | src/repository/HybridAuthRepository.cpp:43-93 | with a fixed database, every answer to every caller in every interleaving is the database's own, if and only if no two answered queries share a cache key |
| `AuthCache.CacheRefinesDatabase` | src/repository/HybridAuthRepository.cpp:43-93 | the same of the sequential function that the method computes: every request from every reachable cache and under any expiry |
| `AuthCache.OneTokenKeepsApart` | src/repository/HybridAuthRepository.cpp:187-196 | one token per stream and client, and client ids without colons, are enough for that |
| `AuthCache.AskAgain` | src/repository/HybridAuthRepository.cpp:64-68 | a request refused because of another record under its key is answered by the database when repeated |
| `AuthCounters.StatisticsBalance` | src/repository/HybridAuthRepository.cpp:54-125 | in every interleaving of callers raising the atomic counters one by one: requests = hits + misses + not yet counted, misses = dbHits + dbMisses + dbErrors + in the database, hits + dbHits - validationFailures = results + not yet decided; exact whenever nobody is at work |
| `AuthCounters.CountersMean` | src/repository/HybridAuthRepository.cpp:56-122 | in every interleaving each counter rises by exactly the steps taken from the points it is named for |
| `AuthCache.StatisticsAddUp` | src/repository/HybridAuthRepository.cpp:54-125 | for calls one after the other, over every run and whatever the database does: requests = hits + misses, misses = dbHits + dbMisses + dbErrors, results = hits + dbHits - validationFailures |
| `AuthCache.CountersMean` | src/repository/HybridAuthRepository.cpp:56-122 | over every run each counter is the number of requests that met what it is named for |
| `AuthStaleness.AnswersAreRecent` | src/repository/HybridAuthRepository.cpp:43-93 | with concurrent callers, a changing database and any ids, data returned for (stream, client, token) was that very query's answer, from its own row, at a moment no further back than the TTL plus the delay with which that very record was cached |
| `AuthStaleness.RequestAlone` | src/repository/HybridAuthRepository.cpp:43-93 | from every state, a caller that nobody disturbs gets the answer, and leaves the cache, of the sequential request |
| `AuthStaleness.StalenessExact` | src/repository/HybridAuthRepository.cpp:71-92 | the answers of all runs whose records are cached within `lag` of being read were true at some moment in the last `age` if and only if `age` is at least TTL + `lag` |
| `UrlParams.ParseUrlParams` | src/util/ZlmHookCommon.cpp:93-111 | the loop ends on every text and stores the pairs the text holds, in order, over what the map held |
| `UrlParams.ParsingUndoesJoining` | src/util/ZlmHookCommon.cpp:93-111 | for every list of pairs with no `=` in keys and no `&` in values, with or without a trailing text that holds no `=`, parsing the joined text gives the list back |
| `UrlParams.EveryQueryDecomposes` | src/util/ZlmHookCommon.cpp:93-111 | every text is such a joined list followed by such a trailing text: nothing else is ever dropped |
| `UrlParams.JoinedPairsAnswer` | src/util/ZlmHookCommon.cpp:105-107 | after parsing, a key has the value of its last pair, and a key that no pair names is as before |

## Left out

- HTTP server, hook controller and use case, `main`: sockets and wiring with little logic of their own.
- redis++, MariaDB, JSON and Boost calls: taken by their documented meaning; cached authorisation records are taken to survive their JSON form, whose text is never `__EMPTY__`, and cache writes that fail silently are not modelled.
- C++ memory orders and fences, and wrap of 64-bit counters and sequence numbers: the step machines are sequentially consistent and count without bound.
- `onPublish` and `onPlay` before `registerTask`: request checks, asynchronous authorisation, node selection and callbacks only decide whether and with which task the modelled call is made.
- The non-empty names asserted by `registerTask`: the model accepts empty names too.
- Interleavings inside manager calls other than the scan: the header leaves their synchronisation to the caller.
- Storage failures other than in `registerTask`: elsewhere every Redis command succeeds.
- Timestamps as doubles: scores are whole milliseconds, which a double represents exactly in the accepted range.
- Thread pool, connection pool and sequence lock are step machines rather than classes, because what is promised of them is about interleavings; the loops and updates of each call are its steps. Mask words are 64 booleans.
- Thread pool: `reset_stats`, queue-size warnings, the drain timeout and its log messages; a task that throws may be counted as failed or completed.
- Connection pool: liveness, timeouts, fairness and the waiting-thread counter; a waiter may give up at any time. After shutdown only the idle loop and its effect on the assertion are stated. `ConnectionGuard` is construct and destroy only.
- AggregateIsBounded: takes each read and update of a slot and of the history as one step, which `ReadTakesEffectAtOnce` shows for one writer at a time; two overlapping releases are two writers of the history, so for them the bound holds of this idealised step only.
- TtlBeatsScan: assumes one clock for Redis and the gateways.
- `deregisterPublisherIndices`, `deregisterPlayerIndices`, `getPlayerTasks`, `getPlayerCount`: the first two are unused, and the set the others read is never written.
- `StreamTaskSerializer`, `EnumToString`, configuration loading, health checks, logging and the other metrics providers: a second codec the registry does not use, file input or formatting.
- Metadata and expiry time of authorisation records, and `maskToken`: not used in any decision modelled here.
