# StoneMason: a verified model of its hard cores

StoneMason is a C++ game engine. Most of it wraps graphics, audio and network libraries. This project
models the parts that carry state machines or arithmetic of their own, and proves what they promise:

| files | part of StoneMason |
|---|---|
| `EditScripts`, `Levenshtein`, `EditDistance` | the edit distance of two words, as a rolling row and as the least number of edits |
| `LogPipeline`, `LogSink` | the asynchronous log queue: any number of logging threads, any pool, hooks that log or throw |
| `EscapeStripping` | the hook that removes terminal formatting, with the 64-bit arithmetic of `std::string` |
| `PoolRegions`, `PoolRuns`, `PoolTasks`, `PoolOwner`, `PoolPops`, `PoolRestarts`, `PoolPending`, `PoolProgress`, `ThreadPool` | the thread pool: workers, queue, counter, stop request, and the calls of its owner |
| `SchedulerModel`, `Scheduler` | timeouts and intervals on a 64-bit tick counter that wraps around |
| `ServerModel`, `SslServer` | the client table, dead queue and read tasks of the TLS server |
| `RetryLoops` | the retry loops that fulfil promises, in plain UDP, TLS client and TLS server |
| `Quaternions`, `Camera` | rotating vectors by quaternions, over the reals |
| `Hex`, `Uuid`, `UuidBits` | hexadecimal text, UUID text and the bits that a version 4 UUID forces |

Objects that the source updates in place are classes here, and each of their methods is proved against a
function on values; what the source promises is then proved about runs of those functions. Code that runs on
several threads is a transition system: a region under a mutex, or one access to an unguarded flag, is one
step, and the theorems hold for every interleaving.

Sockets, OpenSSL, clocks and random numbers are parameters: what the n-th `SSL_write` answers, what a tick
finds out about a client, what time it is, and the 128 random bits of a UUID are arbitrary.

## Where the code and its documentation differ

The model follows the code. Each of these is stated as a theorem.

- Up to the owner's next call, a `popThread`, blocking or not, is reliable exactly if the worker it pops is not the
  last. The pop of the last one can leave its request behind, which ends the next worker 1 at once.
- After a pop that did not block, a call made before its request has been taken can go wrong. Another `popThread` or a
  `pushThread` is safe exactly if the request has been taken: the next pop overwrites it, or the worker that is already
  leaving clears the new one, or the pushed worker, which gets the same number, takes it. A restart with n workers is
  safe exactly if the request has been taken or n is smaller than that number; so is any run of stops, starts and
  pushes that starts no worker of that number. A worker whose request is gone works on until the pool goes off or some
  later request carries its number.
- After `stop(false)`, which `quitLogging` calls, a `start` or `pushThread` is clean exactly if all former workers had
  exited when it was called. The others go on beside the new ones, unlisted and perhaps under the same numbers.
- `unfinishedTasks` is an unsigned short: the pool looks idle with tasks outstanding exactly at the multiples of 65536.
- `start(0)` subtracts one from the core count before it looks for zero, so a machine that reports no cores
  asks for 2^32 - 1 workers, not for 8 (`PoolRegions.ThreadCount`).
- A log hook that throws ends logging for good: the flag stays set and nothing resubmits the consumer.
- The formatting hook never returns on a line whose visible text is empty and whose last escape code is open.
- `toHex` stops at an interior zero digit, so digits can be lost.
- `SSLClient::send` and `SSLServer::send` set their promise twice if the connection breaks on the last try;
  `SSLServer::send` to an unknown client does not free the copy of the message.
- `setNewUuid` onto the id of another client loses that client without a disconnect callback. A kick follows the
  id: a client renamed before the next tick stays connected exactly if its new id is not in the dead queue.
- An interval fires at most once per tick. It is on time exactly if after no earlier tick it was too far behind to
  catch up by firing at every tick since. Up to a length of 2^63 it always is if no tick is longer than it.
- A timeout is missed at the first tick at which it is due exactly if the ticks since `setTimeout`, modulo 2^64, are
  fewer than its length. That takes a full turn of the clock since it was set.

## Model

| member | source | states |
|---|---|---|
| EditDistance.EditDistance | src/stms/util/compare.cpp:10-50 | the result is the least number of insertions, removals and replacements, for all words whose lengths the 32-bit counters can reach; no cell overflows |
| EditDistance.CellRecurrence | src/stms/util/compare.cpp:30-44 | equal characters take the diagonal cell, different ones one more than the least of three neighbours, and no cell exceeds the larger prefix length |
| Levenshtein.DiagonalShortcut | src/stms/util/compare.cpp:34-38 | on equal last characters the diagonal alone decides |
| Levenshtein.NoScriptBeats | include/stms/util/compare.hpp:126-133 | every script of edits from one word to the other is at least as long as the distance |
| Levenshtein.Attained | include/stms/util/compare.hpp:126-133 | some script of edits is exactly as long |
| Levenshtein.LevIsEditDistance | include/stms/util/compare.hpp:126-133 | the recurrence is the edit distance |
| Levenshtein.Symmetric | src/stms/util/compare.cpp:12-20 | the distance does not depend on which word is taken as the short one |
| Levenshtein.ZeroExactlyOnEqualWords | include/stms/util/compare.hpp:126-133 | the distance is zero exactly for equal words |
| Levenshtein.Triangle | include/stms/util/compare.hpp:126-133 | the triangle inequality |
| Levenshtein.Bounds | include/stms/util/compare.hpp:126-133 | the distance lies between the difference of the lengths and the larger length |
| LogPipeline.StepKeepsInv | src/stms/logging.cpp:123-186 | every step of every thread keeps the invariant: one duty to consume while the flag is set, and records and hook calls in order |
| LogPipeline.OneConsumer | src/stms/logging.cpp:123-186 | in every reachable state the flag is set exactly if there is one consumer, submitted, queued or running, unless a hook threw; then it stays set with none |
| LogPipeline.OneRecordAtATime | src/stms/logging.cpp:147-149 | hooks never run for two records at once |
| LogPipeline.InsertedInOrder | src/stms/logging.cpp:167-184 | in every run the records inserted are those of its insert calls, in order, whatever the flag says |
| LogPipeline.CallsInOrder | src/stms/logging.cpp:123-186 | in every run the hook calls made so far are a prefix of those that a sequential logger makes on the records of its insert calls |
| LogPipeline.CallsForAt | src/stms/logging.cpp:147-149 | the sequential logger's call number i * hooks + j is that of hook j on record i, and there are no others |
| LogPipeline.NothingLost | src/stms/logging.cpp:123-186 | in every run the hooked records, at most one in hand, and the queue together are the records of its insert calls, in order |
| LogPipeline.FlagDownMeansAllHooked | src/stms/logging.cpp:160-164 | when a run has come to the flag being down the queue is empty and every hook has seen every record of its insert calls |
| LogPipeline.CanGoOn | src/stms/logging.cpp:123-186 | while the flag is up and no hook threw, some thread can take a step |
| LogPipeline.Drains | src/stms/logging.cpp:123-165 | after any run, without further inserts every schedule is finite, and at its end all records of the run's insert calls are hooked after exactly n + 1 consumer runs for a queue of n |
| LogPipeline.HookCanThrow | src/stms/logging.cpp:147-154 | with any hook at all, a state in which one threw is reachable |
| LogPipeline.ThrowingHookEndsLogging | src/stms/logging.cpp:147-154 | after a hook threw no record is ever hooked again |
| LogSink.Logger.LockedInsert | src/stms/logging.cpp:168-184 | the locked region of an insert queues the record and tells the first inserter to submit a consumer |
| LogSink.Logger.LockedConsume | src/stms/logging.cpp:125-132 | the locked region of a consumer run takes the oldest record, or clears the flag |
| LogSink.Logger.ConsumeLogs | src/stms/logging.cpp:123-165 | on `InstaPool` one run with its nested runs empties the queue in order, in n + 1 runs |
| LogSink.Logger.InsertImpl | src/stms/logging.cpp:167-186 | on `InstaPool` an insert returns with its record hooked, or queued if it came from a hook |
| LogSink.InTurnIsInOrder | src/stms/async.cpp:38-48 | the nested runs make exactly the hook calls that every schedule must make |
| EscapeStripping.StripEscapes | src/stms/logging.cpp:48-56 | on every text that is not endless the loop ends, and its result is the one-pass stripping and has no ESC |
| EscapeStripping.TurnErases | src/stms/logging.cpp:52-53 | what one turn erases, including the wrap-around of `npos - start + 1` |
| EscapeStripping.LoopEndsUnlessEndless | src/stms/logging.cpp:50-55 | the loop ends exactly if the text has visible characters or no open code |
| EscapeStripping.VisibleStartEnds | src/stms/logging.cpp:70-71 | texts that start with a visible character, as log lines and the header do, are never endless |
| EscapeStripping.LoneEscIsEndless | src/stms/logging.cpp:50-55 | a lone ESC makes the loop run for ever |
| EscapeStripping.ClosedSpan | include/stms/logging.hpp:133-135 | a closed code disappears and the rest is stripped in turn |
| EscapeStripping.OpenSpan | include/stms/logging.hpp:133-135 | an open code disappears to the end of the text |
| EscapeStripping.StripIsIdempotent | src/stms/logging.cpp:48-56 | stripping twice is stripping once |
| PoolTasks.StepKeepsTasks | src/stms/async.cpp:10-35 | every step keeps the books on queued, held and executed tasks |
| PoolTasks.QueuedInOrder | src/stms/async.cpp:132-138 | in every run the tasks queued are those of its submissions, in order, and the submitters between counting and queueing are the difference of the two numbers |
| PoolTasks.StartedInOrder | src/stms/async.cpp:23-28 | in every run the popped tasks followed by the queue are the tasks of its submissions in the order of queueing |
| PoolProgress.WorkerDrainsQueue | src/stms/async.cpp:10-34 | whatever it is doing, a worker that is not asked to stop can run the whole queue by its own steps, front first, counting each task off |
| PoolTasks.EachRunsOnce | src/stms/async.cpp:23-33 | no task runs twice, and a popped task has run or is running on one worker that has not exited |
| PoolTasks.CounterExact | src/stms/async.cpp:30-32 | the counter is the number of outstanding tasks modulo 65536, is that number exactly below 65536, and there never underflows |
| PoolTasks.IdleMeansDone | src/stms/async.cpp:232-244 | when `waitIdle(0)` sees zero with fewer than 65536 outstanding, everything counted has run; and back, once every worker has counted off |
| PoolTasks.IdleUnlessMultiple | src/stms/async.cpp:232-244 | the counter is zero with tasks outstanding exactly at the multiples of 65536, and only there can `waitIdle(0)` return too early |
| PoolTasks.FalseIdle | include/stms/async.hpp:131 | at each such multiple a reachable pool has a zero counter and nothing run |
| PoolOwner.BetweenCalls | src/stms/async.cpp:63-181 | between the calls of one owner the pool runs exactly if it has workers, and worker k has index k + 1 |
| PoolOwner.StoppedPoolIgnores | src/stms/async.cpp:86-159 | any number of `stop` and `popThread` calls on a stopped pool change nothing |
| PoolOwner.CarefulOwner | src/stms/async.cpp:63-181 | with blocking calls that never pop the last worker, between calls no request is left and the live threads are exactly the workers |
| PoolPops.PopOfManyKept | src/stms/async.cpp:155-181 | after any careful run a pop of one of several workers, blocking or not, takes away that worker alone under every schedule: the others stay at work, and its request is pending until it has exited, as it has when a blocking call returns |
| PoolPops.PopReliableUnlessLast | src/stms/async.cpp:155-181 | up to the owner's next call, a pop, blocking or not, is reliable under every schedule exactly if the popped worker is not the last |
| PoolPops.LastPopCanLeaveRequest | src/stms/async.cpp:165-173 | after any careful run that leaves one worker, some schedule of its pop leaves the request set and no thread for it |
| PoolPops.LeftoverEndsNextWorker | src/stms/async.cpp:11-15 | from any such state, the request left over can end the worker that is pushed next, while the pool goes on listing it |
| PoolPops.NextPopSafeIfTaken | src/stms/async.cpp:163-180 | after a pop that did not block, the next pop loses neither request under any schedule exactly if the first has been taken, which is when its worker has exited |
| PoolPops.RequestCanBeTaken | src/stms/async.cpp:11-34 | a pending request can always be taken by its worker's own steps |
| PoolPops.PopsInTurnKept | src/stms/async.cpp:155-181 | any number of pops, each after the request before was taken, end exactly the last workers |
| PoolPops.QuickPopsLoseRequest | src/stms/async.cpp:163-180 | of two pops that do not block, one right after the other, the second overwrites the request of the first, whose worker then never exits under any schedule until the owner's next call |
| PoolPops.LiveUnlessAsked | src/stms/async.cpp:11-15 | in any run of any calls, a worker that no request names stays at work while the pool is on |
| PoolPops.EndsIfAsked | src/stms/async.cpp:11-34 | a worker that is asked to stop, or whose pool is off, can end by its own steps |
| PoolPops.PushSafeIfTaken | src/stms/async.cpp:142-153 | a push after a pop that did not block ends no listed worker and loses no request exactly if the request has been taken |
| PoolRestarts.StartedPool | src/stms/async.cpp:63-84 | a careful run leads to a running pool of any size, its workers numbered from 1 |
| PoolRestarts.RestartCleanIfExited | src/stms/async.cpp:63-153 | after `stop(false)` and then `start` or `pushThread`, under every schedule, the threads at work are the new workers and the former ones that had not exited when the second call was made; so the restart is clean exactly if all had |
| PoolRestarts.CleanStopStaysCareful | src/stms/async.cpp:86-117 | if all former workers have exited after `stop(false)`, any careful run from there keeps exactly the workers alive |
| PoolRestarts.RestartKeepsDetached | src/stms/async.cpp:86-117 | in some run all former workers are still at work after the restart, unlisted and with the numbers of new ones |
| PoolPending.TakenStaysCareful | src/stms/async.cpp:163-180 | once the request of a pop that did not block has been taken, any careful run from there keeps exactly the workers alive |
| PoolPending.OtherNumbersSafe | src/stms/async.cpp:63-153 | taken or not, any run of stops, starts and pushes that starts no worker of the popped one's number ends no listed worker while the pool is on, and does not lose the request |
| PoolPending.RestartSafeIfTakenOrFewer | src/stms/async.cpp:63-117 | a restart with n workers, by `start` alone or after `stop(true)`, is safe under every schedule exactly if the request has been taken or n is smaller than the popped worker's number |
| PoolPending.LeftoverEndsFirstWorker | src/stms/async.cpp:11-15 | the request that the pop of an only worker can leave behind can end the first worker of the next `start` |
| PoolRegions.ThreadCount | src/stms/async.cpp:70-75 | `start` creates at least one worker, and as many as asked for, else one less than the cores, else 8 on a single core; on a report of no cores it creates 2^32 - 1 |
| ThreadPool.Pool.SubmitPackagedTask | src/stms/async.cpp:126-140 | the task becomes the last of the queue, the others stay, and the count goes up by one or from 65535 to 0, whether or not the pool runs |
| ThreadPool.Pool.TakeNext | src/stms/async.cpp:17-26 | what is taken followed by what is left is the old queue, and nothing is taken exactly from an empty one |
| ThreadPool.Pool.CountOff | src/stms/async.cpp:30-31 | the count goes down by one, or from 0 to 65535 |
| ThreadPool.Pool.WorkerFunc | src/stms/async.cpp:10-35 | a worker alone on a queue runs all its tasks in order and counts each off, modulo 65536; if it is asked to stop or the pool is off it exits without taking any, and clears the request only in the first case |
| ThreadPool.Pool.Start | src/stms/async.cpp:63-84 | all former workers are gone and the new ones are fresh threads numbered from 1 |
| ThreadPool.Pool.Stop | src/stms/async.cpp:86-117 | workers are given up front first until none is left |
| ThreadPool.Pool.PushThread | src/stms/async.cpp:142-153 | one fresh worker with the next number; a stopped pool starts |
| ThreadPool.Pool.PopThread | src/stms/async.cpp:155-181 | the request carries the number of the thread that is removed; the pool stops with its last worker |
| SchedulerModel.IdsNeverCollide | include/stms/scheduler.hpp:135-161 | below 2^64 of them ids are never reused, within or between timeouts and intervals |
| SchedulerModel.TimeoutFiresOnceSeen | include/stms/scheduler.hpp:101-127 | a timeout is submitted once, by the first tick that sees its length pass modulo 2^64, and is then gone |
| SchedulerModel.TimeoutFiresOnTime | include/stms/scheduler.hpp:101-141 | across wrap-around a timeout is submitted exactly once, at the first tick at which its length has really passed |
| SchedulerModel.FirstDueTickFires | include/stms/scheduler.hpp:113-127 | the first tick at which a timeout is due submits it exactly if the ticks since it was set, modulo 2^64, are still its length or more; otherwise the timeout stays |
| SchedulerModel.FullTurnMissesTimeout | include/stms/scheduler.hpp:113-127 | a scheduler whose timeout is past due, not submitted and still held |
| SchedulerModel.GoneStaysGone | include/stms/scheduler.hpp:121-149 | a timeout that fired or was cleared is never submitted again |
| SchedulerModel.ClearedNeverFires | include/stms/scheduler.hpp:143-149 | a cleared timeout is never submitted, and the others stay |
| SchedulerModel.ClearedIntervalNeverFires | include/stms/scheduler.hpp:163-169 | a cleared interval never fires again, and the others stay |
| SchedulerModel.IntervalFollowsTicks | include/stms/scheduler.hpp:105-111 | in any run of calls an interval depends on the ticks since it was set alone |
| SchedulerModel.TicksConserved | include/stms/scheduler.hpp:105-111 | the ticks passed are those of the firings plus what `time` holds exactly if `time` never wrapped around, and more otherwise |
| SchedulerModel.FiresClosedForm | include/stms/scheduler.hpp:105-111 | the number of firings after n ticks is the least of S_j / length + (n - j) |
| SchedulerModel.OnTimeExactly | include/stms/scheduler.hpp:105-111 | the number of firings is S_n / length exactly if that is at most S_j / length + (n - j) for every j |
| SchedulerModel.IntervalSubmissions | include/stms/scheduler.hpp:105-111 | in any run of calls of less than 2^64 ticks in all, an interval is submitted as often as the closed form says, and on time exactly under that condition |
| SchedulerModel.ShortTicksFireOnTime | include/stms/scheduler.hpp:105-111 | if no tick exceeds the length the number of firings is S_n / length |
| SchedulerModel.ShortTicksNoOverflow | include/stms/scheduler.hpp:105-111 | ticks no longer than an interval of at most 2^63 never make `time` wrap around |
| SchedulerModel.LongIntervalOverflows | include/stms/scheduler.hpp:105-111 | for any longer interval two such ticks can |
| SchedulerModel.ShortTicksSubmissions | include/stms/scheduler.hpp:105-111 | in any run of calls without ticks longer than an interval of at most 2^63, it is submitted once for each length that has passed, beyond 2^64 ticks too |
| SchedulerModel.LongTickFiresLate | include/stms/scheduler.hpp:105-111 | an interval of 1 fires once on a single tick of 3 |
| SchedulerModel.ZeroLengthFiresAlways | include/stms/scheduler.hpp:105-111 | an interval of length zero fires at every tick |
| Scheduler.Scheduler.SetTimeout | include/stms/scheduler.hpp:135-141 | the timeout starts at the current tick under the next id |
| Scheduler.Scheduler.ClearTimeout | include/stms/scheduler.hpp:147-149 | the id is gone, every other timeout stays as it was, and nothing else changes |
| Scheduler.Scheduler.SetInterval | include/stms/scheduler.hpp:157-161 | the interval starts from zero under the next id |
| Scheduler.Scheduler.ClearInterval | include/stms/scheduler.hpp:167-169 | the id is gone, every other interval stays as it was, and nothing else changes |
| Scheduler.Scheduler.Tick | include/stms/scheduler.hpp:101-127 | in whatever order the maps are walked, the intervals due and the timeouts due are submitted once each and exactly the latter are erased |
| Scheduler.TimedScheduler.Tick | src/stms/scheduler.cpp:8-16 | the tick counter follows the clock without drift; a clock that has not advanced changes nothing |
| ServerModel.StepAccounted | src/stms/net/ssl_server.cpp:120-124 | a step keeps every connection accounted for exactly if it gives nobody an id in use |
| ServerModel.EveryConnectionAccounted | src/stms/net/ssl_server.cpp:404-430 | over any such run each connection is in the table or has had its one disconnect task, never both, and the numbers add up |
| ServerModel.RenameAccounted | src/stms/net/ssl_server.cpp:606-617 | a rename loses a client exactly if it takes the id of another |
| ServerModel.ReapTakesTheDead | src/stms/net/ssl_server.cpp:404-430 | whatever the dead queue held, afterwards it is empty, exactly the clients it named are gone, and each got one disconnect task |
| ServerModel.KickTakesEffect | src/stms/net/ssl_server.cpp:619-622 | a kicked client is gone after the next reaping, with its disconnect task |
| ServerModel.KickSparesOthers | src/stms/net/ssl_server.cpp:619-622 | a kick and the next reaping leave every other client that was not in the dead queue in the table, with no disconnect task |
| ServerModel.KickFollowsId | src/stms/net/ssl_server.cpp:404-430 | after a kick and any proper steps before the next reaping, renames among them, the client stays connected exactly if the id it has by then is not in the dead queue; otherwise it gets its disconnect task |
| ServerModel.RenameEscapesKick | src/stms/net/ssl_server.cpp:606-622 | a client renamed once between its kick and the next reaping stays connected exactly if its new id is a different one that is not in the dead queue |
| ServerModel.SurvivesKick | src/stms/net/ssl_server.cpp:606-622 | a run from an empty server after which a kicked client is still there |
| ServerModel.OneReadAtATime | src/stms/net/ssl_server.cpp:355-399 | in every run a connection has at most one read task, and one exactly while `isReading` is set |
| ServerModel.ReadTaskEnds | src/stms/net/ssl_server.cpp:361-398 | every turn brings a read task closer to its end, where it clears `isReading` |
| ServerModel.ReadOutcome | src/stms/net/ssl_server.cpp:361-398 | what an uninterrupted read task changes: its flag, and as many dead marks as its answers earn |
| ServerModel.SparedIfRead | src/stms/net/ssl_server.cpp:361-398 | a read task spares its client exactly if some try within the limit reads data before any fatal error |
| SslServer.SSLServer.AddClient | src/stms/net/ssl_server.cpp:120-124 | a new connection enters the table under its id, and every other id keeps its client |
| SslServer.SSLServer.KickClient | src/stms/net/ssl_server.cpp:619-622 | the dead queue grows by that one id and nothing else changes |
| SslServer.SSLServer.SetNewUuid | src/stms/net/ssl_server.cpp:606-617 | the client moves to its new id, or nothing changes if there is none |
| SslServer.SSLServer.OnStop | src/stms/net/ssl_server.cpp:210-229 | every client gets one disconnect task with its id and connection, in some order, and the table is empty |
| SslServer.SSLServer.RunReadTask | src/stms/net/ssl_server.cpp:361-398 | the read loop has the effect of its turns in the transition system: its flag and task are gone, its client is marked dead unless some answer brought data before any fatal error, and twice exactly on a fatal last try |
| SslServer.SSLServer.ReapDead | src/stms/net/ssl_server.cpp:404-430 | the loop over the dead queue has the effect of reaping its entries one by one |
| SslServer.SSLServer.Tick | src/stms/net/ssl_server.cpp:334-433 | after a tick exactly the clients that were marked dead, or were found shut down or timed out, are gone, each with one disconnect task, and the dead queue is empty; each client with data that was not being read has one new read task, and no other has; a tick of a stopped server changes nothing |
| SslServer.ScanMarksTheDying | src/stms/net/ssl_server.cpp:337-347 | the scan marks exactly the clients that have shut down or timed out |
| SslServer.ScanStartsReads | src/stms/net/ssl_server.cpp:349-360 | the scan starts one read task for each client with data that was not being read, and for no other |
| RetryLoops.UdpSendTo | src/stms/net/plain_udp.cpp:80-132 | the promise is set exactly once, to the first size sent within the limit, to -3, or to -1 when stopped; a copy is freed exactly once |
| RetryLoops.SSLClient.Send | src/stms/net/ssl_client.cpp:204-267 | the promise is set to the first positive number of bytes written, to -2 on a fatal error that comes first, to -3 at the limit; whether the client survives; and a copy is freed exactly once |
| RetryLoops.SSLClient.ReadTask | src/stms/net/ssl_client.cpp:124-161 | the flag is cleared on every path; the client is stopped unless data was read within the limit, and `doShutdown` is withdrawn from a running client; also for a task that starts on a stopped client |
| RetryLoops.SentOnceUnlessLastTryFatal | src/stms/net/ssl_client.cpp:243-263 | the promise is set once exactly if no fatal error comes first on the last allowed try |
| RetryLoops.LastTryFatalSetsTwice | src/stms/net/ssl_client.cpp:243-263 | a fatal error on the only try sets the promise to -2 and then to -3 |
| RetryLoops.SendMeans | src/stms/net/ssl_client.cpp:226-263 | the value set and the number of tries, from the first answer that is a fatal error or a positive number of bytes |
| RetryLoops.ServerSend | src/stms/net/ssl_server.cpp:435-512 | the promise is set as by the client, to -1 when stopped, or to 0 for an unknown client; how often the client is marked dead; and that the copy is freed exactly if the client is known |
| Camera.Sandwich | src/stms/camera.cpp:38-46 | the formula is the vector part of q p q* |
| Camera.DotScaled | src/stms/camera.cpp:38-46 | every dot product is multiplied by the fourth power of the quaternion's length |
| Camera.CrossScaled | src/stms/camera.cpp:38-46 | cross products are kept up to the square of that length |
| Camera.Composes | src/stms/camera.cpp:38-46 | rotating twice is rotating by the product |
| Camera.ConjugateUndoes | src/stms/camera.cpp:38-46 | the conjugate undoes a rotation up to that fourth power |
| Camera.QuarterTurn | src/stms/camera.cpp:38-46 | the sense of a rotation: a quarter turn about u takes v to u x v |
| Camera.TransformInfo.BuildVecs | src/stms/camera.cpp:15-19 | for a unit rotation the three vectors are orthonormal and right-handed, and rotate back to the axes |
| Hex.ToHex | src/stms/util/util.cpp:28-44 | the text is the lowest k digits, k the least position at or after `places` with a zero digit |
| Hex.LosslessWhenNoZeroInside | include/stms/util/util.hpp:46-54 | digits are lost exactly if a zero stands inside the number at or after `places` |
| Hex.ValueShown | src/stms/util/util.cpp:37-40 | the lowest k digits stand for the number modulo 16^k |
| Hex.ValueOfLowDigits | include/stms/util/util.hpp:46-54 | exactly the numbers below 16^k can be read back from k digits |
| Hex.LowDigitsOfValue | include/stms/util/util.hpp:43 | reading hexadecimal text and writing it again gives the text |
| Hex.FitsPlaces | include/stms/util/util.hpp:48-49 | a number that fits is padded to exactly that many places |
| Hex.StopsBelow60Bits | src/stms/util/util.cpp:37-40 | below 16^15 the loop always finds its stop within 15 digits |
| Hex.TruncatesInteriorZero | include/stms/util/util.hpp:50-51 | 0x101 with no places is shown as 1 |
| Uuid.BuildStr | src/stms/util/uuid.cpp:16-34 | the text is the fields in canonical layout, each at its own place as a hexadecimal number |
| Uuid.ParseText | src/stms/util/uuid.cpp:16-34 | the text is canonical and reading it back recovers every field |
| Uuid.TextParse | src/stms/util/uuid.cpp:16-34 | every canonical text is the text of what it reads as |
| Uuid.TextInjective | src/stms/util/uuid.cpp:16-34 | different UUIDs have different texts |
| UuidBits.GenUUID4 | src/stms/util/uuid.cpp:79-114 | six bits are forced, the other 122 are the random ones, and characters 14 and 19 show version and variant |
| UuidBits.VersionBits | src/stms/util/uuid.cpp:102-103 | bits 12 to 15 of the field become 0100, the others stay |
| UuidBits.VariantBits | src/stms/util/uuid.cpp:110-111 | bits 6 and 7 of the field become 10, the others stay |

## Left out

- EditDistance.EditDistance: words of 2^32 - 1 characters or more, on which the 32-bit loop counter never reaches the length.
- Hex.ToHex: numbers with no zero digit from `places` to position 15, for which the source converts 16^16 to 64 bits, which C++ leaves undefined.
- EscapeStripping.StripEscapes: the endless texts, on which the loop does not return; which these are is stated exactly.
- ThreadPool.Pool.Stop: `join` and `detach`; waiting for a thread to exit is a step of `PoolRuns`.
- ThreadPool.Pool.WorkerFunc: other threads that use the pool meanwhile, which are steps of `PoolRuns`; it ends where the worker would wait.
- ThreadPool.Pool.Start: the up to one second of `waitIdle` before a restart.
- LogSink.Logger.ConsumeLogs: hooks that log or throw, which are steps of `LogPipeline`.
- LogSink.Logger.InsertImpl: the same; an insert by a hook that is already running only queues its record.
- SslServer.SSLServer.Tick: accepting a new connection and its handshake, of which only the final insertion is modelled; and a pool that runs tasks inline, which would lock `clientsMtx` twice.
- SslServer.SSLServer.RunReadTask: interleaving with other threads, which is part of `ServerModel`.
- RetryLoops.SSLClient.Send: other threads that stop the client meanwhile, and the wait between two tries.
- RetryLoops.ServerSend: for an unknown client the job sets the promise through a reference to a local variable of `send`, so the 0 is what it is set to only while `send` has not returned; after that the source's behaviour is undefined.
- Camera.TransformInfo.BuildVecs: floating-point rounding; the numbers are real.
- SchedulerModel.TimeoutFiresOnTime: tasks that call the scheduler from within a tick, and tick types other than `uint64_t`.
- Memory-model races: reads and writes of `running`, `stopRequest`, `isReading` and `logConsuming` are atomic steps.
- Calls other than `start` and `pushThread` made after `stop(false)` while former workers are alive: only `PoolOwner.BetweenCalls` and `PoolTasks` cover them.
- More than one owner: calls of `start`, `stop`, `pushThread` and `popThread` come from one thread.
- Condition variables: a waiting worker may wake at any time, which covers notifications, time-outs and spurious wake-ups.
- Moving pools, schedulers, servers and clients.
- `initLogging`, `quitLogging`, text formatting, log files and the choice of log pool.
- Graphics, audio, fonts, windows and downloads, which wrap libraries that cannot be seen.
- `SSL_shutdown` retries, cookies, certificates, address selection and polling.
- `UUID` hashing and comparison, random number quality, `Stopwatch`, `Cmp`, `readFile`.
