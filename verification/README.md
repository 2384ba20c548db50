# Verified model of the interface scheduler

This project models the concurrent core of the interface scheduler, and the three hard algorithms of the test
library bundled with it, in Dafny 4.11, and proves what they guarantee. `dafny verify dfyconfig.toml` checks
everything.

## The scheduler

**One worker.** `WorkerProtocol.dfy` is a state machine of one `AsyncWorker`: the worker thread, any number of client
threads in `doJob`, `doSyncJob` and `cancelJobsFor`, and one thread in `stop`. Each region between two operations on a
lock, an atomic or a condition variable is one step, with a program counter per thread. Spurious wakeups are steps too.
The histories (`accepted`, `cancelled`, `executed`, `log`, `returned` and so on) record what happened.

- `WorkerSafety.dfy` proves that every step of every thread keeps the invariant.
- `WorkerTheorems.dfy` draws the conclusions for all runs, with any number of threads, and for *any* predicate given to
  `remove_if` by a cancel.
- `WorkerProgress.dfy` proves deadlock freedom, and that threads run out of internal steps whichever is scheduled;
  `WorkerCalls.dfy` says exactly which blocking calls return.
- `WorkerSchedules.dfy` looks at one thread among all the others: a schedule is a list of turns, ours and theirs, and
  every run of the protocol, with its spurious wakeups and polls, is proved to be some schedule of each thread in it.
- `WorkerAlone.dfy` says what an operation does when nobody gets in its way: so many turns, and this state.
- `AsyncWorker.dfy` is the worker as a class, with the source's methods, loops and fields. A method takes a `schedule`
  and is proved to leave the object exactly where the turns it has taken lead in the protocol, and to end with the
  turn that finishes its operation. So the theorems hold of the class, under every interleaving.

**The dispatcher.** `Dispatcher.dfy` has the class (least-loaded choice, strands, cancel on every worker, statistics)
and the balance of loads that the choice keeps over whole runs of dispatches and completions, each of which is tied to
a step of the classes.

**The registry.** `Registry.dfy` says what re-entrant registrations and subscriptions do to the two maps, by playing an
agenda of operations and callbacks; callbacks are finite trees of further operations. `InterfaceScheduler.dfy` is the
class with the two maps and the loop over a list of callbacks that may come back in; its methods are proved to do what
the agenda does. `RegistryCalls.dfy` proves that nobody is called back twice or forgotten, and `RegistryOrder.dfy` in
which order callbacks are made, at every moment of every history and at any depth of re-entry: watchers of one id keep
their places for ever, and a new one comes last, except that it overtakes those whom a notification under way has still
to reach.

**All three layers.** `SchedulerSystem.dfy` puts the recursive registry lock, the strand table and a pool of workers
together with any number of threads that call, register, unregister and watch, under every interleaving. Registrations
run their watchers' callbacks under the lock, and these do all of the same again.

- `SchedulerOperations.dfy` follows one thread through whole calls, registrations, notifications and unregistrations, and
  says what has happened when they are over.
- `SchedulerProgress.dfy` says what the whole comes to rest in, that its threads run out of internal steps, and when the
  registry lock is lost for ever.
- `SchedulerDeadlock.dfy` says exactly which programs can come to that, with the run that does it.

## The algorithms

- `Matching.dfy`: maximum bipartite matching by augmenting paths, in place on `left_`, `right_` and `seen`.
- `EditScript.dfy`: the table of edit costs, the path traced back through it, and the table of string numbers.
- `UnifiedDiff.dfy`: hunks with regrouped lines, and a patch function that applies hunks independently. `DiffText.dfy`:
  the text of hunks, and a reader for it that is written independently.
- `Filter.dfy`: wildcard patterns, pattern lists and the positive and negative parts of a filter.
- `Sharding.dfy`: filtering, disabling and sharding, recorded in the test objects.

## Where the code differs from what is written about it

- `src/AsyncDispatcher.h:17` announces that a cancel removes the outstanding jobs of the given service. The predicate at
  `src/Worker.cpp:120` is true of every job, so a cancel empties the whole queue. The model follows the code;
  `WorkerTheorems.CancelMeetsItsPromise` says when the two agree.
- `src/Worker.h:47` calls the counter the number of undone jobs. A `doJob` that has pushed but not yet counted while a
  cancel stores the length leaves the counter too high for good: `WorkerTheorems.LoadDrifts` is such a run, and
  `WorkerTheorems.QuietLoadIsQueueLength` says exactly when the counter is right.
- The wait at `src/Worker.cpp:118` is meant to wait out a running job, and does so by taking `executingLock_`, not by
  sleeping. It happens only at a queued job of the cancelled name: `WorkerTheorems.CancelNeverSleeps`.
- A blocking call whose job is cancelled, or is still in the queue when the worker has exited, never returns
  (`WorkerTheorems.CancelledCallNeverReturns`, `WorkerCalls.LateCallNeverReturns`), both can happen
  (`WorkerCalls.CancelledCallBlocks`, `WorkerCalls.LateCallBlocks`), and at rest nothing else keeps one from returning
  (`WorkerCalls.BlockingCallsAtRest`).
- The lock taken at `src/InterfaceScheduler.cpp:56` is held while a cancel waits for the running job at
  `src/Worker.cpp:116`. If that job asks the registry anything (`src/InterfaceScheduler.cpp:66`), neither ever goes on:
  `SchedulerDeadlock.DeadlocksIffAsks`. Watchers must never block (`include/InterfaceScheduler.hpp:23`): a blocking call
  from one can lose the lock too, `SchedulerDeadlock.BlockingWatcherDeadlocks`.
- An exception from a watcher leaves the whole list behind (`src/InterfaceScheduler.cpp:49-51`): once the id has been
  unregistered, all of its watchers wait again, those already called back among them
  (`InterfaceSchedulers.InterfaceScheduler.UnRegisterInterface`).
- `gtest/gmock-gtest-all.cc:2476` calls the edits optimal. On a tie of adding and removing, line 2512 replaces even when
  replacing is dearer: `EditScripts.TiesCanCost`. `EditScripts.OptimalIffNoTies` says exactly when no cell is affected.
- `gtest/gmock-gtest-all.cc:2651` with a context of zero gives no hunk at all; `UnifiedDiffs.CreateUnifiedDiff` says so.

## Assumptions

Locks, atomics and condition variables have their usual semantics. Type names are unique per type. The pool has at
least one worker. One thread at most calls `stop` on a worker. Jobs take no scheduler lock where progress of one worker
is claimed; in the whole scheduler they may ask the registry.

## Model

| member | source | states |
|---|---|---|
| WorkerSafety.InvInit | src/Worker.h:18-19 | A new worker satisfies the invariant: locks, queue, histories, flags, load, wakeups and stop. |
| WorkerSafety.InvKept | src/Worker.cpp:22-123 | Every step of every thread, for any removal predicate, keeps the whole invariant. |
| WorkerSafety.SurvivorsErase | src/Worker.cpp:114-121 | Erasing from the queue removes exactly the erased jobs from the accepted, uncancelled ones and keeps the order of the rest. |
| WorkerSafety.SurvivorsExact | src/Worker.cpp:62-70 | The survivors are the accepted jobs outside the cancelled set, strictly in the order of acceptance. |
| WorkerTheorems.ReachableInv | src/Worker.cpp:22-123 | The invariant holds in every state any run can reach. |
| WorkerTheorems.ContinuesGrows | src/Worker.cpp:22-123 | Acceptances, cancellations, executions, the log and returned calls are never undone. |
| WorkerTheorems.FifoConservation | src/Worker.cpp:22-70 | Without the cancelled ones, the accepted jobs are the executed, then the one in hand, then the queued, in order; a job is cancelled exactly when it is none of these. |
| WorkerTheorems.RunsAreSerial | src/Worker.cpp:37-60 | Actions and callbacks of different jobs never overlap or repeat: the log is strictly ordered by acceptance and then by stage. |
| WorkerTheorems.CallbackFollowsAction | src/Worker.cpp:55-60 | An action's end comes right behind its start, a callback right behind its action, and an action starts behind all earlier jobs only. |
| WorkerTheorems.ExecutedIsWhole | src/Worker.cpp:55-60 | An executed job has its action logged to the end, and its callback if and only if it has one. |
| WorkerTheorems.EarlierRunsFirst | src/Worker.cpp:37-60 | Whatever is logged for a job, every earlier accepted and uncancelled job has its complete run logged before. |
| WorkerTheorems.BlockingCallSafety | src/Worker.cpp:72-89 | A returned blocking call has had its own action and its callback run to the end, once. |
| WorkerTheorems.CancelledCallNeverReturns | src/Worker.cpp:72-89 | A blocking call whose job was cancelled returns in no continuation of the run. |
| WorkerTheorems.DrainingStop | src/Worker.cpp:91-110 | When `stop` has returned the worker has exited, and every job accepted before the deactivation has run exactly when it was not cancelled. |
| WorkerTheorems.DeactivatesOnlyWhenEmpty | src/Worker.cpp:95-99 | `active_` falls only by the stopper, with the queue lock in its hands and the queue empty. |
| WorkerTheorems.LoadLaw | src/Worker.cpp:41 | Whenever the queue lock is free the counter is, modulo the word size, the queue length less the uncounted calls plus those uncounted at the last cancel. |
| WorkerTheorems.QuietLoadIsQueueLength | src/Worker.cpp:62-70 | With no call half-way the counter is the queue length if and only if no increment overtook the last cancel. |
| WorkerTheorems.LoadWithoutCancels | src/Worker.h:28 | In any run without cancels, a quiet counter is the queue length, whatever underflow there was on the way. |
| WorkerTheorems.LoadDrifts | src/Worker.cpp:122 | A reachable run that ends with nothing queued, nothing half-way and a load of one. |
| WorkerTheorems.NoLostWakeup | src/Worker.cpp:26-29 | A worker asleep without a notification under way has an empty queue and is active. |
| WorkerTheorems.CancelNeverSleeps | src/Worker.cpp:115-119 | `executing_` is up only under the executing lock, so a cancel holding that lock finds it down and never sleeps. |
| WorkerTheorems.LockOrder | src/Worker.cpp:22-123 | A thread that waits for a lock holds none but the queue lock, and that only when it waits for the executing lock. |
| WorkerTheorems.CancelMeetsItsPromise | src/Worker.cpp:114-121 | A cancel empties the queue, which is what is announced if and only if every queued job has the given name. |
| WorkerProgress.DeadlockFreedom | src/Worker.cpp:22-123 | When no thread can move, all locks are free, the worker sleeps on an empty queue or has stopped, every job accepted in time has run or was cancelled, and only calls with no job to come are asleep. |
| WorkerProgress.InternalDescends | src/Worker.cpp:22-123 | Every internal step of every thread lowers the rank of the state. |
| WorkerProgress.InternalStepsRunOut | src/Worker.cpp:22-123 | However threads are scheduled, an infinite run has infinitely many external steps: new calls, spurious wakeups or polls of `stop`. |
| WorkerCalls.UnreturnedHasCaller | src/Worker.cpp:72-89 | In every reachable state a blocking call that has not returned is still some client's. |
| WorkerCalls.BlockingCallsAtRest | src/Worker.cpp:72-89 | When no thread can move, a blocking call has not returned if and only if its client sleeps, and if and only if its job was cancelled or is left in the queue of an exited worker. |
| WorkerCalls.LateCallNeverReturns | src/Worker.cpp:91-102 | A blocking call whose job is queued when the worker has exited returns in no continuation of the run. |
| WorkerCalls.CancelledCallBlocks | src/Worker.cpp:114-121 | A reachable state in which a blocking call sleeps for a cancelled job. |
| WorkerCalls.LateCallBlocks | src/Worker.cpp:91-102 | A reachable state in which a blocking call sleeps for a job left behind by a stop. |
| WorkerSchedules.EveryRunIsASchedule | src/Worker.cpp:22-123 | Every run of the protocol in which a thread is in one operation is some schedule of that thread, turn by turn: no interleaving, spurious wakeup or poll is missing. |
| WorkerSchedules.TurnsContinue | src/Worker.cpp:22-123 | Conversely, whatever the schedule, its turns lead along a run of the protocol. |
| WorkerSchedules.OthersRespect | src/Worker.cpp:22-123 | Others leave a thread's program point alone but for waking it, leave the queue alone while it holds the lock, and never reactivate the worker. |
| WorkerAlone.SubmissionAlone | src/Worker.cpp:62-70 | With the queue lock free, three turns append the call, wake a sleeping worker and count up, and nothing else changes. |
| WorkerAlone.CancelAlone | src/Worker.cpp:112-123 | With both locks free, a cancel finishes after three turns and three or one more for every job, by its name, and leaves queue and counter empty and nothing else changed. |
| WorkerAlone.RunAlone | src/Worker.cpp:22-53 | With the locks free, a worker runs all it finds in its queue, in order, by its own turns, so many for every job. |
| WorkerAlone.BlockingAlone | src/Worker.cpp:72-89 | With an idle worker a blocking call finishes right after the worker's turns for it, with its own run and no other added to the log. |
| WorkerAlone.StopAlone | src/Worker.cpp:91-102 | An idle worker is stopped by four turns of the stopper, five of the worker and one more. |
| AsyncWorkers.AsyncWorker.constructor | src/Worker.h:18-19 | A new worker is in the initial state. |
| AsyncWorkers.AsyncWorker.AwaitTurn | src/Worker.cpp:22-123 | The turns before ours are taken as they come, and the object is where they lead; our turn comes at once if it is first and we can move, and fails to come only when the schedule ends. |
| AsyncWorkers.AsyncWorker.Meanwhile | src/Worker.cpp:22-123 | Whatever happens on a worker while a thread is elsewhere is exactly what the schedule says. |
| AsyncWorkers.AsyncWorker.Run | src/Worker.cpp:22-34 | Ends exactly where the turns taken lead, with the exit of an inactive worker or the end of the schedule; with the locks free and turns enough, all it found in the queue has been executed, in order. |
| AsyncWorkers.AsyncWorker.WaitForWork | src/Worker.cpp:25-29 | The wait comes back with the queue lock held and its predicate met: a job is queued or the worker is inactive. |
| AsyncWorkers.AsyncWorker.SleepOnce | src/Worker.cpp:29 | One round of the wait: releases the lock, sleeps until notified or spuriously woken, takes the lock again. |
| AsyncWorkers.AsyncWorker.ScheduleFirstOutstandingJob | src/Worker.cpp:37-53 | The job that was first in the queue has been executed with its complete run logged, and the queue lock is held again. |
| AsyncWorkers.AsyncWorker.FetchJob | src/Worker.cpp:39-47 | Takes the first job, counts down, and exchanges the queue lock for the executing lock. |
| AsyncWorkers.AsyncWorker.PopCall | src/Worker.cpp:39-40 | Removes the first job, as the protocol's step. |
| AsyncWorkers.AsyncWorker.CountDownAndUnlock | src/Worker.cpp:41-44 | Counts down with wrap-around and frees the queue lock, as the protocol's step. |
| AsyncWorkers.AsyncWorker.RunTheCall | src/Worker.cpp:55-60 | Action, then callback if there is one; afterwards the job is executed, its run logged and a blocking caller's flag raised. |
| AsyncWorkers.AsyncWorker.MarkExecuted | src/Worker.cpp:77-84 | When action and callback are over, the completion wrapper raises the flag of a blocking caller and wakes it. |
| AsyncWorkers.AsyncWorker.FinishRun | src/Worker.cpp:49-52 | Lowers the flag, notifies, frees the executing lock and takes the queue lock back. |
| AsyncWorkers.AsyncWorker.DoJob | src/Worker.cpp:62-70 | Ends exactly where the turns taken lead; the accepted job carries this call and is later than all before; if nobody interferes, three turns put it at the end of the queue, wake the worker and count up. |
| AsyncWorkers.AsyncWorker.PushCall | src/Worker.cpp:63-66 | Under the queue lock, the call goes to the end of the queue. |
| AsyncWorkers.AsyncWorker.NotifyQueue | src/Worker.cpp:67 | Notifies outside the lock: only a sleeping worker is woken. |
| AsyncWorkers.AsyncWorker.CountUp | src/Worker.cpp:68 | Counts up with wrap-around, outside the lock. |
| AsyncWorkers.AsyncWorker.DoSyncJob | src/Worker.cpp:72-89 | Ends exactly where the turns taken lead; when it returns, the complete run of its own job lies in the log, none of it before the call; with an idle worker it returns right after that run. |
| AsyncWorkers.AsyncWorker.SleepOnFlag | src/Worker.cpp:86-87 | One round of the wait for the flag: sleeps until notified or spuriously woken, and comes back to the test. |
| AsyncWorkers.AsyncWorker.CancelJobsFor | src/Worker.cpp:112-123 | Ends exactly where the turns taken lead; when it returns, queue and counter are empty and the drift is the number of calls half-way; with the locks free it returns after its own turns, whose number the queue tells, and changes nothing else. |
| AsyncWorkers.AsyncWorker.ScanQueue | src/Worker.cpp:114-121 | Meets every queued job once; the queue is the same afterwards. |
| AsyncWorkers.AsyncWorker.ProbeExecution | src/Worker.cpp:115-119 | At a job of the name, takes the executing lock, finds nothing executing and frees it. |
| AsyncWorkers.AsyncWorker.EraseRemoved | src/Worker.cpp:114-121 | Erases what the predicate asks for, which is all of the queue. |
| AsyncWorkers.AsyncWorker.StoreLength | src/Worker.cpp:122 | Stores the length; the calls half-way become the drift. |
| AsyncWorkers.RemoveIf | src/Worker.cpp:114-121 | Keeps, in order, exactly the jobs the predicate does not ask for, for any predicate. |
| AsyncWorkers.AsyncWorker.Stop | src/Worker.cpp:91-110 | Ends exactly where the turns taken lead; when it returns the worker has exited, and every job accepted before the call has run or was cancelled; an idle worker is stopped at once. |
| AsyncWorkers.AsyncWorker.WaitForOutstandingJobsToFinish | src/Worker.cpp:104-110 | Polls until it finds the queue empty, and then holds the lock. |
| AsyncWorkers.AsyncWorker.Deactivate | src/Worker.cpp:97 | The deactivation marks how many jobs were accepted by then, as the protocol's step. |
| Dispatching.LoadCeiling | src/AsyncDispatcher.cpp:19-29 | Over every run of dispatches and completions, no load exceeds its rounded-up share of the peak total. |
| Dispatching.TrafficGrows | src/AsyncDispatcher.cpp:19-29 | A run of traffic goes on with what the pool does next, so the ceiling holds after every step. |
| Dispatching.PopCompletes | src/Worker.cpp:41 | A worker's count-down for a job it has taken is a completion in the traffic of the pool. |
| Dispatching.LoadCeilingFromIdle | src/AsyncDispatcher.cpp:19-29 | From an idle pool of n workers no load exceeds the peak total divided by n, rounded up. |
| Dispatching.RoundRobin | src/AsyncDispatcher.cpp:19-29 | Without completions job k goes to worker k mod n, and loads stay within one of each other. |
| Dispatching.AsyncDispatcher.CreateWorkersIfNotInitialized | src/AsyncDispatcher.cpp:45-51 | An empty pool gets that many distinct new workers; a pool handed in stays. |
| Dispatching.AsyncDispatcher.LeastLoaded | src/AsyncDispatcher.cpp:20-23 | Finds the first worker with the least load. |
| Dispatching.AsyncDispatcher.GetWorkerForSchedule | src/AsyncDispatcher.cpp:19-29 | The least loaded worker without a strand, and otherwise the strand's worker, which the least loaded one becomes if there was none. |
| Dispatching.AsyncDispatcher.GetStrandWorkerForSchedule | src/AsyncDispatcher.cpp:31-37 | Binds a strand the first time only. |
| Dispatching.AsyncDispatcher.ScheduleJob | src/AsyncDispatcher.cpp:9-17 | The call goes to the first least loaded worker, or to the strand's, which is bound if it was not; that worker is exactly where the submission and the turns taken lead, and no other changes; once returned, the job is accepted, and has run to the end if the call waits; if nobody interferes, a call without a strand is exactly one dispatch in the traffic of the pool. |
| Dispatching.AsyncDispatcher.CancelJobsFor | src/AsyncDispatcher.cpp:71-75 | Round by round, each worker is exactly where its cancel and the turns of its schedule lead, and all workers where the turns meanwhile lead; a round is the last one only if its cancel does not return; when all have, each worker has passed through a state with its queue and counter empty. |
| Dispatching.AsyncDispatcher.LetAllRun | src/AsyncDispatcher.cpp:71-75 | While a thread cancels on one worker, every worker goes exactly where the turns of its threads lead. |
| Dispatching.RoundsPass | src/AsyncDispatcher.cpp:71-75 | Whatever the turns, all workers go on by runs of their protocol, each through the state in which its cancel ended. |
| Dispatching.AsyncDispatcher.GetStatistics | src/AsyncDispatcher.cpp:64-69 | The number of workers and the sum of the loads modulo the word size. |
| Registry.PlayGrows | src/InterfaceScheduler.cpp:27-53 | Re-entrant operations forget nothing, never leave an id both registered and awaited, and leave no more waiting than there was to do. |
| RegistryCalls.CalledBackAtMostOnce | src/InterfaceScheduler.cpp:27-53 | However deep callbacks re-enter, every subscription is called back once, or still waits once, or is due once. |
| RegistryCalls.CalledBackInOrder | src/InterfaceScheduler.cpp:47-53 | Callbacks that are due are made in the order in which they are due, whatever they do. |
| RegistryCalls.WatcherCalledOnce | src/InterfaceScheduler.cpp:27-63 | Over every history of subscribing, registering and unregistering, a watcher is called at most once, and has not been called exactly when it waits for an id that is not registered. |
| RegistryOrder.OrderIsFixed | src/InterfaceScheduler.cpp:27-63 | Watchers of one id keep their order, among those called back, due and waiting, through every event that follows, at any depth of re-entry. |
| RegistryOrder.WaitersCalledInOrder | src/InterfaceScheduler.cpp:27-53 | Of two that wait for one id at any moment the first has the lower ticket and stays ahead ever after: it is called back first. |
| RegistryOrder.HistoriesCallInOrder | src/InterfaceScheduler.cpp:27-63 | The same over whole histories of users' operations: before, and after, whatever they are. |
| RegistryOrder.RegistrationNotifiesInOrder | src/InterfaceScheduler.cpp:35-53 | A registration, inside a callback or not, has called back everybody who waited for it, in the order of their tickets, when the operation is over. |
| RegistryOrder.SubscriberComesLast | src/InterfaceScheduler.cpp:27-33 | A new subscriber comes behind an earlier one of the same id, for ever, if and only if the earlier one's callback is not due at that moment. |
| RegistryOrder.OutsideSubscriberComesLast | src/InterfaceScheduler.cpp:27-33 | A subscription made outside callbacks comes behind all earlier ones of its id. |
| RegistryOrder.LateSubscriberOvertakes | src/InterfaceScheduler.cpp:29-30 | A reachable history in which the third subscriber of an id is called back before the second. |
| Registry.PlayJoin | src/InterfaceScheduler.cpp:47-53 | Two parts of an agenda played one after the other do what the whole does, exceptions included. |
| Registry.DoneInOrder | src/InterfaceScheduler.cpp:47-53 | What a callback does is done in the order in which it is listed. |
| InterfaceSchedulers.InterfaceScheduler.SubscribeForRegistration | src/InterfaceScheduler.cpp:27-33 | Calls back at once if the id is registered, else appends the watcher to those that wait and does no more; lists under iteration do not change. |
| InterfaceSchedulers.InterfaceScheduler.RunCallback | src/InterfaceScheduler.cpp:49-50 | A callback's operations are done in order, re-entering, until one throws. |
| InterfaceSchedulers.InterfaceScheduler.RegisterInterface | src/InterfaceScheduler.cpp:35-45 | Refuses an empty action and a duplicate without a change, and otherwise stores action and type name and calls back the waiting watchers; if a callback throws, what was done by then stays done. |
| InterfaceSchedulers.InterfaceScheduler.NotifySubscribers | src/InterfaceScheduler.cpp:47-53 | The loop over the list makes exactly the calls that were waiting, and drops the list; an exception leaves the list as it was. |
| InterfaceSchedulers.InterfaceScheduler.UnRegisterInterface | src/InterfaceScheduler.cpp:55-63 | Removes the id, asking for a cancel exactly if it was registered; no watcher is forgotten, and those that an exception has left behind wait again. |
| InterfaceSchedulers.InterfaceScheduler.FetchStoredCallbackByServiceId | src/InterfaceScheduler.cpp:90-99 | The stored action and type name, or nothing. |
| InterfaceSchedulers.InterfaceScheduler.IsCallRegisteredAndTypesMatch | src/InterfaceScheduler.cpp:79-88 | Three outcomes: unknown id, wrong type with both names, or the stored action. |
| SchedulerSystem.SystemInvKept | src/InterfaceScheduler.cpp:27-99 | Every step of callers, of the callbacks they run, and of workers keeps the invariant of the whole scheduler. |
| SchedulerSystem.StrandBoundForEver | src/AsyncDispatcher.cpp:31-37 | In no continuation of a run does a bound strand change its worker. |
| SchedulerSystem.StrandIsSequential | src/AsyncDispatcher.cpp:9-37 | Two jobs of one strand are on one worker, where the earlier, unless cancelled, has run to the end before the later starts. |
| SchedulerSystem.CastsMeetTheirType | include/Helper.hpp:33-46 | Every action that is queued or has run gets arguments of the type it casts to, though its service may have been registered anew with another type in between. |
| SchedulerSystem.SystemLockOrder | src/InterfaceScheduler.cpp:27-63 | Over all workers, a caller takes locks in the order mapping lock, queue lock, executing lock, the latter two of one worker, also in calls that watchers make under the mapping lock. |
| SchedulerSystem.MappingTakenAgain | src/InterfaceScheduler.cpp:27-99 | A thread about to take the mapping lock holds it already if and only if it is running callbacks, and then goes on without waiting. |
| SchedulerOperations.UnregistrationCancelsEverywhere | src/AsyncDispatcher.cpp:71-75 | Between the start and the end of an unregistration, on every worker a step ends its cancel with the queue empty and the counter at zero. |
| SchedulerOperations.UnregistrationLeavesNothing | src/InterfaceScheduler.cpp:55-63 | When an unregistration is over, whatever any worker had accepted before is in no queue: it has been executed, is in hand or was cancelled. |
| SchedulerOperations.UnregisteredMeanwhile | src/InterfaceScheduler.cpp:55-63 | Until it is over an unregistration keeps the mapping lock, and the service stays unregistered. |
| SchedulerOperations.SyncCallRunsOnce | src/InterfaceScheduler.cpp:70-77 | A synchronous call that passes the type check is run once, by the thread that makes it, and queued nowhere. |
| SchedulerOperations.AsyncCallIsQueuedOnce | src/InterfaceScheduler.cpp:70-77 | An asynchronous call that passes the type check is put at the end of one worker's queue, that of its strand if it has one, once; a call that waits has returned with its job. |
| SchedulerOperations.RefusedCallDoesNothing | src/InterfaceScheduler.cpp:79-88 | A call of an unregistered service, or with other types, is neither run nor queued. |
| SchedulerOperations.RegistrationStarts | src/InterfaceScheduler.cpp:35-45 | A registration stores the type with its name and has its callbacks to run before all others; a duplicate changes nothing. |
| SchedulerOperations.SubscriptionStarts | src/InterfaceScheduler.cpp:27-33 | A subscription to a registered service has its callback to run at once; another has nothing to do. |
| SchedulerOperations.ExceptionLeavesAll | src/InterfaceScheduler.cpp:79-88 | An exception leaves all callbacks under way and changes nothing else. |
| SchedulerOperations.EveryCallbackIsRun | src/InterfaceScheduler.cpp:47-53 | Unless something throws, every waiting callback is started before the lock is given up, in order, whatever the callbacks do themselves. |
| SchedulerProgress.SystemDeadlockFreedom | src/InterfaceScheduler.cpp:27-99 | When nobody can move, these are equivalent: every worker is at rest with all it accepted in time run or cancelled, and every thread is out of the scheduler but for blocking calls that no job will wake; the mapping lock is free; nobody holds it for ever. |
| SchedulerProgress.HolderStands | src/InterfaceScheduler.cpp:55-63 | When nobody can move and the mapping lock is taken, its holder cancels on a worker whose job asks for that lock, or makes a blocking call from a callback. |
| SchedulerProgress.HeldForEverKept | src/InterfaceScheduler.cpp:55-63 | No step of anybody changes what such a holder waits for. |
| SchedulerProgress.LockIsLost | src/InterfaceScheduler.cpp:55-63 | In no continuation of a run does the mapping lock leave such a holder. |
| SchedulerProgress.OnlyAskersDeadlock | include/InterfaceScheduler.hpp:22-24 | If watchers never block, only a cancel on a worker whose job asks for the lock keeps it for ever. |
| SchedulerProgress.PoliteProgramsRest | include/InterfaceScheduler.hpp:22-24 | If watchers never block and no job asks the registry, the scheduler is at rest whenever nobody can move. |
| SchedulerProgress.SystemInternalDescends | src/InterfaceScheduler.cpp:27-99 | Every internal step of every caller, callback and worker lowers the rank of the whole scheduler. |
| SchedulerProgress.SystemStepsRunOut | src/InterfaceScheduler.cpp:27-99 | However all threads are scheduled, an infinite run has infinitely many new operations, spurious wakeups or polls of `stop`. |
| SchedulerDeadlock.AskingDeadlocks | src/InterfaceScheduler.cpp:55-68 | For every call that passes the type check and asks the registry there is a run, on one worker with three threads, that loses the mapping lock. |
| SchedulerDeadlock.BlockingWatcherDeadlocks | include/InterfaceScheduler.hpp:22-24 | A run in which a watcher's blocking call, to a worker that has been stopped, loses the mapping lock, whatever jobs do. |
| SchedulerDeadlock.DeadlocksIffAsks | src/InterfaceScheduler.cpp:55-68 | A program whose watchers never block can lose the mapping lock if and only if some call that passes the type check asks the registry. |
| Matching.MaxBipartiteMatchState.TryAugment | gtest/gmock-gtest-all.cc:11025-11051 | On success the node and all matched before are matched and the arrays refer to each other; on failure nothing but marks has changed, and the marks are dead ends. Closed sets are never escaped. |
| Matching.MaxBipartiteMatchState.FollowEdge | gtest/gmock-gtest-all.cc:11031-11047 | The same for one edge: free, freed by moving its owner, or a dead end. |
| Matching.MaxBipartiteMatchState.Compute | gtest/gmock-gtest-all.cc:10973-11004 | The edges listed are a matching without repetition, and no matching has more. |
| Matching.MaxBipartiteMatchState.Visit | gtest/gmock-gtest-all.cc:10988-10996 | After its one try a left node is matched, or all its edges lead into a closed set, for ever. |
| Matching.MaxBipartiteMatchState.Edges | gtest/gmock-gtest-all.cc:10997-11003 | Lists exactly the matched pairs, each once. |
| Matching.CoverBoundsMatching | gtest/gmock-gtest-all.cc:10973-10987 | No matching is larger than a set of nodes that touches every edge. |
| Matching.ClosedSetBounds | gtest/gmock-gtest-all.cc:10978-10987 | What the failed searches leave behind yields such a set no larger than the matching found. |
| Matching.FindMaxBipartiteMatching | gtest/gmock-gtest-all.cc:11073-11076 | The result lists edges of the graph, no node is in two of them, and no set of edges with that property is larger, for every graph. |
| Matching.MatchingMeans | gtest/gmock-gtest-all.cc:10973-10987 | A matching is a set of edges of the graph, within its bounds, of which no two share a node. |
| Matching.FindPairing | gtest/gmock-gtest-all.cc:11094-11123 | True if and only if the matchers can be given different elements, each one that it accepts; then the pairs do so. |
| EditScripts.TraceIsScript | gtest/gmock-gtest-all.cc:2521-2530 | The traced path consumes both prefixes exactly once in order, pairing equals at every match. |
| EditScripts.CheapestNeighbourTaken | gtest/gmock-gtest-all.cc:2505-2518 | Between unequal elements the strictly cheapest of adding and removing is taken at one more; otherwise replacing, at 1.00001 more; a cheaper neighbour is passed over for more than the difference only if adding and removing tie. |
| EditScripts.EqualsAndBorders | gtest/gmock-gtest-all.cc:2484-2502 | Equal elements are matched for nothing; at the borders everything is added or removed. |
| EditScripts.ShiftedList | gtest/gmock-gtest-all.cc:2476-2531 | A list shifted by one is mended by a removal, matches and an addition, for 2. |
| EditScripts.TraceWeighsTheCost | gtest/gmock-gtest-all.cc:2521-2530 | In exact arithmetic the traced path weighs what its cell says. |
| EditScripts.CostBound | gtest/gmock-gtest-all.cc:2484-2519 | No cell is dearer than replacing all that can be paired and adding or removing the rest. |
| EditScripts.NoTiesOptimal | gtest/gmock-gtest-all.cc:2503-2518 | Without ties no script is cheaper than the table. |
| EditScripts.OptimalIffNoTies | gtest/gmock-gtest-all.cc:2503-2518 | The table is optimal for all pairs of prefixes if and only if no cell has a tie that hides a cheaper move. |
| EditScripts.TiesCanCost | gtest/gmock-gtest-all.cc:2512-2518 | Three replacements, for 3.00003, are chosen where an addition and a removal would do for 2. |
| EditScripts.CalculateOptimalEdits | gtest/gmock-gtest-all.cc:2476-2531 | The result is a valid script, weighs what the table says, and keeps the bound. |
| EditScripts.FillCell | gtest/gmock-gtest-all.cc:2496-2518 | One cell is filled as specified and no other changes. |
| EditScripts.TraceBack | gtest/gmock-gtest-all.cc:2521-2530 | The path comes out in order from the end of the table, without leaving it. |
| EditScripts.InternalStrings.GetId | gtest/gmock-gtest-all.cc:2538-2543 | Equal strings get equal numbers and different strings different ones; numbers never change. |
| EditScripts.TraceOfNumbers | gtest/gmock-gtest-all.cc:2552-2566 | Numbering the strings changes neither the table nor the path. |
| EditScripts.CalculateStringEdits | gtest/gmock-gtest-all.cc:2552-2566 | The path traced for the string lists themselves: a valid script with the weight of its table and the bound; equal lists give nothing but matches. |
| UnifiedDiffs.Hunk.PushLine | gtest/gmock-gtest-all.cc:2585-2600 | However lines are regrouped, each side grows at its end by this line if it is on it; counts and context move with it. |
| UnifiedDiffs.Hunk.PrintTo | gtest/gmock-gtest-all.cc:2602-2635 | The text of header and lines, with removals before additions, under fields that tell their true number on each side. |
| UnifiedDiffs.Hunk.FlushEdits | gtest/gmock-gtest-all.cc:2615-2618 | Regrouping changes nothing of what will be printed. |
| UnifiedDiffs.CreateUnifiedDiff | gtest/gmock-gtest-all.cc:2651-2711 | An independent reader of the text gets right from left if and only if context was asked for or the lists are equal, for lines without newline and NUL; the text says the hunks if and only if their lines are such; what is removed is in the left list, what is added in the right one, what is common in both; hunks are in order, disjoint, grouped, and framed by the context asked for. |
| UnifiedDiffs.FramedMeans | gtest/gmock-gtest-all.cc:2667-2686 | At most as much context as asked for on either end, less only where a list starts or ends, and less than twice as much between two edits of a hunk. |
| UnifiedDiffs.ShapeMeans | gtest/gmock-gtest-all.cc:2585-2600 | What is counted as context is what stands in the lines: the common ones in front, behind, and the most between two edits. |
| DiffTexts.HeaderReadsBack | gtest/gmock-gtest-all.cc:2620-2635 | The header line is read back to the fields it was written from, whichever sides it has. |
| DiffTexts.DecimalIsCanonical | gtest/gmock-gtest-all.cc:2623-2634 | Numbers are written without leading zeros, digit by digit. |
| DiffTexts.HeaderReads | gtest/gmock-gtest-all.cc:2620-2635 | The header line in full, with both sides and with either alone. |
| DiffTexts.TextIffHunks | gtest/gmock-gtest-all.cc:2602-2635 | A text without NUL is read as certain hunks if and only if it is their text, character by character, and they are fit to be written. |
| DiffTexts.ReadsBackIffClean | gtest/gmock-gtest-all.cc:2602-2610 | The text of hunks is read back to exactly these hunks if and only if no line holds a newline or a NUL. |
| UnifiedDiffs.BuildHunk | gtest/gmock-gtest-all.cc:2667-2708 | A hunk covers exactly the slices its fields name; it has edits if and only if one is left and context was asked for. |
| UnifiedDiffs.SkipMatches | gtest/gmock-gtest-all.cc:2660-2665 | Stops at the first edit, past equal slices. |
| UnifiedDiffs.PushPrefix | gtest/gmock-gtest-all.cc:2667-2672 | The lines before the edit become context on both sides. |
| UnifiedDiffs.PushEdits | gtest/gmock-gtest-all.cc:2674-2702 | Both sides grow by contiguous slices; the hunk ends only with a full context behind it and none but matches near ahead, or at the end. |
| UnifiedDiffs.Enough | gtest/gmock-gtest-all.cc:2678-2686 | The hunk ends exactly at a full context, with the next edit at least as far away again. |
| UnifiedDiffs.PassEdit | gtest/gmock-gtest-all.cc:2688-2701 | One edit moves each index past exactly the line it pushed. |
| Filters.MatchesAsGlob | gtest/gmock-gtest-all.cc:1910-1925 | The recursive matcher says yes if and only if the text can be cut into one fitting piece per pattern character. |
| Filters.MatchesFilter | gtest/gmock-gtest-all.cc:1927-1946 | True if and only if some segment between colons matches in that sense. |
| Filters.OnePattern | gtest/gmock-gtest-all.cc:1927-1946 | A filter without a colon is one pattern. |
| Filters.TwoLists | gtest/gmock-gtest-all.cc:1927-1946 | A colon joins two lists of patterns: the name has to match one of them. |
| Filters.FilterMatchesTest | gtest/gmock-gtest-all.cc:1950-1976 | The full name is selected before the first dash and not rejected behind it; nothing before the dash means everything. |
| Filters.SelectsBothSides | gtest/gmock-gtest-all.cc:1965-1975 | With patterns on both sides of the first dash, a name is selected exactly if one in front matches it and none behind does. |
| Filters.SelectsWithoutDash | gtest/gmock-gtest-all.cc:1962-1964 | A filter without a dash rejects nothing but the empty name. |
| Filters.SelectsAllBut | gtest/gmock-gtest-all.cc:1965-1970 | A filter with a leading dash selects exactly what the rest does not match. |
| Filters.DisabledNames | gtest/gmock-gtest-all.cc:1608 | The filter for disabled tests means: starts with DISABLED_, or holds /DISABLED_ somewhere. |
| Sharding.EarlierExact | gtest/gmock-gtest-all.cc:6246-6275 | The tests counted before a test are exactly the runnable ones before it. |
| Sharding.IdIsPlace | gtest/gmock-gtest-all.cc:6269-6275 | The id of a runnable test is its place among all runnable tests, which are listed in the order of cases and of tests in them, each once. |
| Sharding.ChosenByPlace | gtest/gmock-gtest-all.cc:6226-6228 | A test is chosen exactly if the remainder of its place among the runnable ones is the index of the shard. |
| Sharding.RunnableMeans | gtest/gmock-gtest-all.cc:6250-6267 | A test is runnable exactly if the filter selects its full name and, unless disabled tests are wanted, neither its case nor itself starts with DISABLED_ or holds /DISABLED_. |
| Sharding.MarksMean | gtest/gmock-gtest-all.cc:6250-6285 | What the four marks of each test, and the mark of each case, say when all are made. |
| Sharding.AllChosenExact | gtest/gmock-gtest-all.cc:6269-6275 | The chosen set holds exactly the runnable tests whose id falls on the shard. |
| Sharding.ChosenCount | gtest/gmock-gtest-all.cc:6276-6287 | The number of chosen tests is the even share, plus one on the first shards. |
| Sharding.ShardsPartition | gtest/gmock-gtest-all.cc:6226-6228 | A test is runnable if and only if a shard chooses it, and no two shards choose the same test. |
| Sharding.ShardsAreEven | gtest/gmock-gtest-all.cc:6226-6228 | No two shards differ by more than one test. |
| Sharding.FilterTests | gtest/gmock-gtest-all.cc:6237-6288 | Every test and case object is marked as it should be, a case exactly if one of its tests is, and the count returned is the number of chosen tests. |
| Sharding.FilterTest | gtest/gmock-gtest-all.cc:6253-6281 | One test is disabled, matched, runnable and selected exactly when it should be. |

## Left out

- WorkerTheorems.BlockingCallSafety: safety only; which blocking calls return is said at rest, by `WorkerCalls.BlockingCallsAtRest`.
- WorkerProgress.DeadlockFreedom: for jobs and callbacks that take no lock of the scheduler; those that ask the registry are in `SchedulerDeadlock.DeadlocksIffAsks`.
- SchedulerDeadlock.DeadlocksIffAsks: jobs ask the registry; jobs that call, register or unregister services, or stop workers, are not covered.
- SchedulerSystem.SystemInvKept: any callbacks may run at a registration, none catches an exception, and each does finitely much.
- WorkerProgress.InternalStepsRunOut: makes no fairness assumption, so polls of `stop` and spurious wakeups may go on for ever.
- SchedulerSystem.CastsMeetTheirType: takes type names to be injective and the arguments of a call to be one tagged value.
- SchedulerSystem.StrandIsSequential: a worker chosen without a strand is any worker, since `min_element` reads loads that change under it.
- Dispatching.LoadCeiling: for dispatches one at a time with exact loads and no strands; with strands or stale loads the ceiling does not hold.
- Dispatching.AsyncDispatcher.ScheduleJob: the worker is chosen in one step, before the others go on; a choice while loads change is in the system model.
- InterfaceSchedulers.InterfaceScheduler.UnRegisterInterface: not for an id whose own notification is under way; registering it again from there would erase the list being iterated.
- RegistryOrder.OrderIsFixed: histories in which no callback throws.
- EditScripts.OptimalIffNoTies: exact for all pairs of prefixes; for two whole lists alone, freedom from ties is shown to suffice.
- EditScripts.CalculateOptimalEdits: exact arithmetic in place of doubles.
- Matching.FindMaxBipartiteMatching: the graph is a set of edges; how a matrix packs its bits is not modelled.
- Sharding.FilterTests: unbounded counters, and a shard index within the number of shards, which the caller has validated from the environment.
- A job fetched from the registry before an unregistration can still be queued and run after it; the model allows this, and no property forbids it.
- Threads, locks, sleeping and `blockUntilReady` are the operating system's; the time between polls does not matter.
- `AsyncDispatcher::stop`, which stops the workers one after the other, and what `start` waits for.
- Two threads stopping one worker at once, a pool without workers, and destruction of objects still in use.
- `SyncWorker::doJob`: an inline call is one step of the system model.
- The global scheduler object, profiling, dumping the load, mocks, tests and the demo.
- The rest of the bundled test library.
