# Verified model of the mocker coroutine scheduler, its log patterns and its configuration

`mocker` is a small C++ framework: N worker threads run `Scheduler::run` over one shared list of coroutines
and callbacks, a logging system compiles user patterns such as `%d{%H:%M}%T%m%n`, and a YAML tree is loaded
into typed configuration variables with change listeners. This project models those parts and proves what
they promise, for every input, every run and every interleaving. `dafny verify dfyconfig.toml` checks it.

## What is modelled

**The scheduler** (`Protocol.dfy` and the other `Protocol*.dfy`, `Scheduler.dfy`). `SchedulerProtocol` is a
transition system with any number of workers. The scan is one event, because the source holds `m_mutex` over
it; entering `run`, `swapIn`, the end of a slice, the decrement of `m_activeThreadCount`, the re-queue and the
evaluation of `stopping()` are separate events, so that every other thread can act in the gaps, in particular
between the decrement and the re-queue, where a READY coroutine is neither queued nor counted. Each coroutine
carries its saved context, and each worker the thread-locals and the contexts of its thread, so that switching
is part of the same interleaved runs. `Possible` is what the code lets happen. `Disciplined` adds what a
well-behaved client does. `ProtocolInvariant` and `ProtocolContexts` hold the two invariants, `ProtocolTheorems`
exclusive execution, conservation and shutdown, `ProtocolService` which entries are served, `ProtocolLifetime`
the shared pointers, `ProtocolProgress` what some run can still reach, and `ProtocolScenarios` single runs that show
where the promises end.
`SchedulerObject.Scheduler` is the code itself, an object whose list, counter and flags are updated in place by
the scan loop, the pushes, the worker loop and `stop`; each method is proved to take exactly the events of the
transition system, with other threads interfering at every gap, so that the theorems about runs hold of it.
`WorkerTraces` says which events of a trace are a worker's own, and that the tasks it runs do what their scripts
say, where a script chooses each action in the state it finds. The
log of pushes (one record per `push_back`, with where its entry is and how often it was swapped in), the token
of a coroutine and the chain of switches are history added for the proofs; no branch looks at them.

The promises hold under these assumptions, all written in `Disciplined`, `Possible` and `Init`:

- (a) a coroutine is pushed only while it is parked, never while it is queued or with a worker
  (`DisciplineNeeded` gives a run with one push that breaks this, in which a worker runs a coroutine that is not
  in EXEC);
- (b) threads outside the scheduler push before `stop`, and `stop` is called once per `start` (`LatePushStrands`);
- (c) the idle coroutine of the base class does not throw;
- (d) a finished coroutine is not pushed again (`DeadPushStrands` gives a run with one such push that strands
  unpinned work).

A pin holds for one slice. Whoever pushes and whenever, a push is served exactly if some worker that may take it
will scan again (`PushServedIff`, `PushCanRunIff`). Before `stop` that means exactly that it is unpinned or pinned to
the thread of a worker, and any other push keeps `stop` from ever returning (`ClientPushServedIff`). In general
`stop` can return exactly if nothing is queued that nobody will take, or else every idle coroutine has ended or never
starts, and in the second case it leaves that entry behind (`StopReturnsIff`). Both failing outcomes occur
(`OrphanReachable`, `StopLeavesPinned`).

**Contexts on one thread** (`CoroutineContexts.dfy`): coroutine objects and thread-locals, with `swapIn`,
`swapOut`, `call`, `back`, `Yield`, `Sleep` and the two main functions updating them in place, each tied to the
step of the transition system, and a whole thread composed of them. A saved machine context is represented by
the point where resuming it would continue.

**Log patterns** (`LogPattern.dfy`, `LogFormatter.dfy`, `LogPatternTheorems.dfy`). The class runs the nested
loops of `LogFormatter::init` with their rewinds; `Items` and `IsError` say as functions what they compute; the
theorems say what those functions mean. README.md of the repository says at line 73 that `%%` outputs one `%`.
The code does not skip the second `%` (mocker/log.cpp:269-272), so it does not; the code is followed, and
`DoublePercentIsNotOne` and `DoublePercentMeaning` say what is the case.

**Configuration** (`ConfigTree.dfy`, `ConfigVar.dfy`, `Config.dfy`): flattening a tree to dotted names, one
variable with its listeners, and the registry into which a tree is loaded, used by one thread at a time.

**Loggers** (`Logger.dfy`, `LockOrder.dfy`): which formatter an appender uses, and freedom from deadlock of the
locks of scheduler, manager, loggers and appenders together with the semaphore handshake in the `Thread`
constructor.

## Model

| member | source | states |
|---|---|---|
| SchedulerProtocol.FirstEligible | mocker/schedule.cpp:165-187 | the scan stops at an entry it may take, and everything before it was pinned elsewhere or executing |
| ProtocolInvariant.InitInv | mocker/schedule.cpp:51-66 | after `start` the invariant holds: tokens, hands, list, history, the counter, and "an unpinned queued entry means some worker will scan again" |
| ProtocolInvariant.Keeps | mocker/schedule.cpp:72-246 | every event of any thread keeps the invariant |
| ProtocolInvariant.RunKeeps | mocker/schedule.cpp:72-246 | so does every run |
| ProtocolInvariant.ReachableInv | mocker/schedule.cpp:149-246 | every reachable state satisfies the invariant |
| ProtocolContexts.InitContexts | mocker/schedule.cpp:20-66 | after construction and `start` every thread and context is as the second invariant says |
| ProtocolContexts.KeepsContexts | mocker/coroutine.cpp:98-246 | every event of any thread keeps it: on each thread a well-formed chain, and for each coroutine a context that fits its state |
| ProtocolContexts.SwitchAndBack | mocker/coroutine.cpp:114-128 | `swapIn` and `swapOut` lead from the loop into a frame and back, and undo each other |
| ProtocolContexts.ChainIsStack | mocker/coroutine.cpp:114-144 | on every thread of every reachable state the top of the chain is current and on the processor, everything below is saved, and nothing is on it twice |
| ProtocolContexts.LoopIsCurrent | mocker/schedule.cpp:149-246 | whenever a worker is in its loop with nothing swapped in, the scheduling coroutine is the current one |
| ProtocolContexts.LiveIsRunning | mocker/coroutine.cpp:114-121 | a coroutine is on a processor exactly while a worker has it swapped in, and then only one |
| ProtocolContexts.DeadStaysDead | mocker/schedule.cpp:193-226 | in no run is a finished coroutine that was dropped resumed, reset or otherwise changed, on any thread |
| ProtocolTheorems.AssertionsHold | mocker/coroutine.cpp:79-144 | at every event of every run the assertions of `swapIn`, `reset`, `call` and the destructor hold, the counter is positive before a decrement, and each switch (task, idle, root) saves the context that was running and resumes one that is saved and not past its end |
| ProtocolTheorems.OneHolder | mocker/schedule.cpp:175-226 | a coroutine is with at most one worker, and never with a worker and in the list at once |
| ProtocolTheorems.QueuedOnce | mocker/schedule.h:71-80 | a coroutine has at most one list entry |
| ProtocolTheorems.RunningExecutes | mocker/coroutine.cpp:114-121 | the coroutine a worker has swapped in is in EXEC |
| ProtocolTheorems.ActiveIsPlaced | mocker/schedule.cpp:175-226 | a coroutine in EXEC or READY is in the hand of a worker, or READY with its entry in the list |
| ProtocolTheorems.ExecutingIsHeld | mocker/coroutine.cpp:114-121 | every coroutine in EXEC is the job of a worker |
| ProtocolTheorems.CounterAccurate | mocker/schedule.cpp:183-230 | `m_activeThreadCount` is the number of workers between erasing an entry and the matching decrement, on all three branches |
| ProtocolTheorems.StoppingMeansWindow | mocker/schedule.cpp:136-140 | when `stopping()` is true, outstanding work is in the window of exactly one worker, and nothing is outstanding exactly if no worker settles a coroutine in READY or EXEC |
| ProtocolTheorems.EveryPushIsSomewhere | mocker/schedule.cpp:181-226 | every push ever made, re-queues included, is in exactly one place: once in the list, in one worker's hand, or done with |
| ProtocolTheorems.NothingInvented | mocker/schedule.h:71-80 | list and hands hold only entries that were pushed, unaltered |
| ProtocolTheorems.AtMostOneSlice | mocker/schedule.cpp:193-226 | a push is swapped in at most once, never before it leaves the list, and exactly once by the time it is done with |
| ProtocolTheorems.HistoryOnlyGrows | mocker/schedule.h:71-80 | no run changes a push, undoes a slice, or puts an entry back under the same push |
| ProtocolTheorems.ScanTakesFirst | mocker/schedule.cpp:165-187 | in any state, rules kept or not, a scan takes the first entry that is neither pinned to another thread nor of an executing coroutine and counts it, and finds no work exactly if there is none |
| ProtocolTheorems.BoundedBypass | mocker/schedule.cpp:165-187 | an entry at index k that is still queued has seen at most k scans by workers that may take it |
| ProtocolTheorems.QuietStep | mocker/schedule.cpp:142-147 | with both flags set, nothing queued, counted or to be re-queued, every event keeps it so and every worker event lowers the sum of ranks by one |
| ProtocolTheorems.ShutdownTerminates | mocker/schedule.cpp:227-244 | from there the workers take exactly as many further events as their ranks add up to, at most 7 each |
| ProtocolTheorems.ShutdownProgress | mocker/schedule.cpp:94-126 | each worker that has not left can always move, and when all have left the joins return |
| ProtocolService.LeftOverIff | mocker/schedule.cpp:149-246 | when all workers have left, an entry is still there exactly if no worker that may take it was going to scan again, and has run exactly once otherwise |
| ProtocolService.OpenAwaitedIff | mocker/schedule.cpp:168-173 | before `stop` that condition is: unpinned, or pinned to the thread of a worker |
| ProtocolService.PushServedIff | mocker/schedule.h:40-80 | a push by anybody at any time, before or after `stop`, has run exactly once when all workers have left exactly if a worker that may take it was going to scan again |
| ProtocolService.NobodyTakes | mocker/schedule.cpp:227-234 | once no worker will scan again, entries only come and none is ever taken, in any run |
| ProtocolService.TaskPushServedIff | mocker/schedule.h:40-52 | the same for a push by a running task, for which its own worker always will |
| ProtocolService.NoUnpinnedStranded | mocker/schedule.cpp:136-246 | when all workers have left `run`, every entry still in the list is pinned, although `stopping()` can be true while work is outstanding |
| ProtocolService.JoinFindsOnlyPinned | mocker/schedule.cpp:118-126 | the same at the moment the joins of `stop` can return |
| ProtocolService.UnpinnedRanExactlyOnce | mocker/schedule.cpp:149-246 | when all workers have left, every unpinned push has run exactly once |
| ProtocolService.NothingPinned | mocker/schedule.cpp:193-226 | a run in which no client pins an entry never contains a pinned one, re-queues included |
| ProtocolService.UnpinnedRunDrains | mocker/schedule.cpp:136-246 | if nothing is ever pinned the list is empty when all workers have left |
| ProtocolService.OrphanStays | mocker/schedule.cpp:168-173 | an entry that no worker will scan for stays in the list in every run, `stopping()` stays false and no idle coroutine ends |
| ProtocolLifetime.TokenIsThePointer | mocker/schedule.cpp:157-226 | the list and the locals of all workers together hold one shared pointer to a coroutine that is out, and none to one that is parked |
| ProtocolLifetime.PointerCount | mocker/coroutine.cpp:160-200 | the shared-pointer count of every coroutine in every reachable state, summed over list, worker locals, clients and its own stack, which holds two while it waits in `Yield` or `Sleep`, one while it runs or after a bare `swapOut`, and none before and after |
| ProtocolLifetime.EndSlicePointers | mocker/coroutine.cpp:160-210 | a slice that ends in `Yield` or `Sleep` leaves one pointer more, one that ends the coroutine one less, a bare `swapOut` as many |
| ProtocolLifetime.SwapInPointers | mocker/coroutine.cpp:160-200 | swapped in, `MainFunc` takes a pointer the first time, and `Yield` or `Sleep` lets its pointer go |
| ProtocolLifetime.ClientsChange | mocker/coroutine.cpp:150-158 | the pointers clients hold change only when a client copies or drops one or a task takes one to itself, by one |
| ProtocolLifetime.UnfinishedKeepsItself | mocker/coroutine.cpp:160-200 | a coroutine has a pointer to itself on its own stack exactly while it is started and unfinished, so its count is positive and it cannot be destroyed |
| ProtocolLifetime.DestroyableIff | mocker/coroutine.cpp:79-96 | the destructor can run exactly on coroutines that have not started or have finished and that neither clients, list nor workers have |
| ProtocolProgress.CanRunIff | mocker/schedule.cpp:149-246 | some run serves a queued entry exactly if a worker that may take it will scan again, wherever that worker is and whatever is queued before |
| ProtocolProgress.PushCanRunIff | mocker/schedule.h:40-80 | the same for whatever anybody pushes at any time |
| ProtocolProgress.ClientPushServedIff | mocker/schedule.h:40-52 | what a client pushes before `stop` can run exactly if it is unpinned or pinned to a worker; if so it has run once in every run at whose end all workers have left, and if not, in no run do all workers leave or the joins of `stop` return |
| ProtocolProgress.OpenOrphanBlocks | mocker/schedule.cpp:142-147 | before `stop`, an entry pinned to no worker's thread stays in the list, keeps some worker from leaving and the joins from returning, in every run |
| ProtocolProgress.OrphanBlocksStop | mocker/schedule.cpp:118-126 | at any time an entry that nobody will take does so if some worker's idle coroutine has not ended and will be run |
| ProtocolProgress.UnblockedReturns | mocker/schedule.cpp:227-244 | if every idle coroutine has ended or never starts, some run brings `stop` to its end, whatever is queued and running |
| ProtocolProgress.NoOrphansReturns | mocker/schedule.cpp:72-246 | if every queued entry is awaited, some run raises the flags, drains the list, ends all tasks and brings `stop` to its end: the normal shutdown, from any state |
| ProtocolProgress.QuietReturns | mocker/schedule.cpp:94-126 | from a state with nothing left to do some run lets all workers leave and the joins return |
| ProtocolProgress.StopReturnsIff | mocker/schedule.cpp:72-130 | from every reachable state in which it has not returned, `stop` can return exactly if nothing is queued that nobody will take, or every idle coroutine has ended or never starts; such an entry is left behind in every run |
| ProtocolScenarios.HappensReachable | mocker/schedule.cpp:149-246 | a run of the code in which no client breaks the rules is a run of the system the promises are about |
| ProtocolScenarios.StoppingTooEarly | mocker/schedule.cpp:196-199 | a reachable state in which `stopping()` is true and a coroutine is outstanding |
| ProtocolScenarios.OrphanReachable | mocker/schedule.cpp:168-173 | an entry pinned to a thread that is no worker can be pushed within the rules, and nobody will take it |
| ProtocolScenarios.StopLeavesPinned | mocker/schedule.cpp:118-126 | a run within the rules at whose end `stop` returns with a pinned entry in the list |
| ProtocolScenarios.DeadEntryHarms | mocker/schedule.cpp:227-234 | a worker whose idle coroutine has ended and that takes a finished coroutine leaves; another entry is then awaited exactly if a different worker that may take it will scan again |
| ProtocolScenarios.DeadPushStrands | mocker/schedule.cpp:227-234 | a run with exactly one push of a finished coroutine at whose end all workers have left and an unpinned entry remains, so assumption (d) is needed |
| ProtocolScenarios.LatePushStrands | mocker/schedule.cpp:94-126 | the same with exactly one push from outside after `stop`, so assumption (b) is needed |
| ProtocolScenarios.SelfPushOverwritten | mocker/schedule.cpp:196-203 | from any state in which a task has pushed itself and gone to sleep, `setState(HOLD)` can hit the coroutine while another worker executes it |
| ProtocolScenarios.DisciplineNeeded | mocker/schedule.cpp:196-203 | such a state is reached from the start with exactly one push that breaks the token discipline, so assumption (a) is needed |
| SchedulerObject.BatchAppends | mocker/schedule.h:54-69 | a batch appends its non-null arguments in order and unpinned, and changes neither counter nor workers |
| SchedulerObject.BatchAt | mocker/schedule.h:54-69 | the k-th element of a batch, if not null, comes right behind what the elements before it became, with the next ticket |
| ProtocolInvariant.LeavesLocals | mocker/schedule.cpp:157-164 | no event of another thread touches a worker's locals |
| SchedulerObject.Scheduler.constructor | mocker/schedule.cpp:20-66 | the started scheduler is an initial state of the transition system |
| SchedulerObject.Scheduler.IsStopping | mocker/schedule.cpp:136-140 | true exactly if both flags are set, the list is empty and nobody is counted |
| SchedulerObject.Scheduler.ScheduleNoLock | mocker/schedule.h:71-80 | the push event, nothing for a null argument; a tickle is asked for exactly if the list was empty |
| SchedulerObject.MovedIsRun | mocker/schedule.h:107-113 | within the rules one element of a batch is a push followed by the client giving its pointer up |
| SchedulerObject.BatchIsRun | mocker/schedule.h:54-69 | a batch whose elements may each be pushed at their turn is a run |
| SchedulerObject.Scheduler.ScheduleBatch | mocker/schedule.h:54-69 | all pushes of the batch in order, a run of the transition system that keeps the invariant if they are within the rules; every element is swapped out of the caller's container, which holds only nulls afterwards |
| SchedulerObject.Scheduler.ScheduleSwapped | mocker/schedule.h:71-80 | one element: the push, the pointer moved, the slot null |
| SchedulerObject.Scheduler.ScanList | mocker/schedule.cpp:165-187 | the loop with its two `continue` branches is exactly the scan event; the tickle flag is set exactly if an entry pinned to another thread was passed |
| SchedulerObject.Scheduler.Dispatch | mocker/schedule.cpp:193-214 | choosing the branch and binding the callback is exactly the swap-in event |
| SchedulerObject.Scheduler.SwitchIn | mocker/coroutine.cpp:114-121 | the thread's contexts after `swapIn` |
| SchedulerObject.Scheduler.SwitchOut | mocker/coroutine.cpp:123-128 | the thread's contexts after `swapOut` |
| SchedulerObject.Scheduler.RunTask | mocker/schedule.cpp:195-195 | a slice of any well-behaved task, with others acting before each action: the task does the actions of its script in the states it finds, exactly so many, and swaps out as the script says; a run that leaves this worker's locals otherwise as they were |
| SchedulerObject.Scheduler.Acts | mocker/schedule.h:40-80 | one action of a task: the push event, or one more pointer to its own coroutine |
| SchedulerObject.Scheduler.EndsSlice | mocker/coroutine.cpp:160-210 | `Yield`, `Sleep`, a bare swap-out or the end: exactly the event that ends a slice |
| SchedulerObject.Scheduler.DecrementCounter | mocker/schedule.cpp:196-230 | the decrement event on each branch |
| SchedulerObject.Scheduler.SettleTask | mocker/schedule.cpp:198-226 | re-queue, drop, reset or park: exactly the settle event |
| SchedulerObject.Scheduler.FinishSlice | mocker/schedule.cpp:196-226 | decrement, interference in the window, then settling: exactly these two events of this worker, back to the top of the loop, and the push it served has then run exactly once |
| SchedulerObject.Scheduler.WorkOnce | mocker/schedule.cpp:193-230 | what the scan took is swapped in, runs along its script, and is settled, by exactly these events of this worker; that push has run exactly once and the worker is back at the top |
| SchedulerObject.Scheduler.TestIdle | mocker/schedule.cpp:231-237 | leave the loop or swap the idle coroutine in, exactly as the event |
| SchedulerObject.Scheduler.CheckIdle | mocker/schedule.cpp:142-147 | one evaluation of `stopping()` by the idle coroutine, exactly as the event |
| SchedulerObject.Scheduler.IdleOnce | mocker/schedule.cpp:231-243 | the worker leaves the loop exactly if its idle coroutine has ended, and gives it one slice with one evaluation of `stopping()` otherwise, with exactly these events of its own |
| SchedulerObject.Scheduler.RunOnce | mocker/schedule.cpp:161-245 | one round begins with one scan and no other; if the scan finds an entry it may take, the first such entry has run exactly once and is gone, along the script and with exactly the events of one slice; if not, the worker looks at the idle coroutine once, and leaves exactly if that has ended |
| SchedulerObject.Scheduler.Enters | mocker/schedule.cpp:149-164 | the thread-locals `run` sets up, on a thread of the pool and on the caller's |
| SchedulerObject.Scheduler.Leaves | mocker/coroutine.cpp:212-246 | the worker's locals are gone, and on the caller's thread control is back in the thread's own coroutine |
| SchedulerObject.Scheduler.Run | mocker/schedule.cpp:149-246 | enters, and then makes as many rounds as there are scripts, unless it leaves before and has exited; round by round the tasks do what the scripts say, with interference in every gap |
| SchedulerObject.Scheduler.RaiseFlags | mocker/schedule.cpp:72-97 | both flags are up afterwards, raised one after the other with others acting between |
| SchedulerObject.Scheduler.CallRoot | mocker/schedule.cpp:103-116 | unless all is drained the caller's worker is started and runs along the scripts until these are used up or it has exited; else nothing happens but the step to the joins |
| SchedulerObject.Scheduler.JoinAll | mocker/schedule.cpp:118-126 | the joins return exactly if every worker has left; nothing else happens to `stop` |
| SchedulerObject.Scheduler.StopUntilJoins | mocker/schedule.cpp:72-116 | both flags go up and then, in that very state, the caller's worker is called exactly if there is one and all is not drained |
| SchedulerObject.ServedAtEnd | mocker/schedule.cpp:72-130 | when all workers have left, every entry that was in the list before `stop` had a worker it could run on, has run exactly once and is gone |
| SchedulerObject.Scheduler.Stop | mocker/schedule.cpp:72-130 | both flags are up, the caller's worker was started if all was not drained when they went up, and the call returns exactly if all workers have left; then every entry that was in the list has run exactly once and is gone, and only pinned entries are left; with an entry pinned to no worker's thread in the list it never returns |
| WorkerTraces.PlaysFurther | mocker/schedule.cpp:161-245 | two traces along the scripts, one after the other, are a trace along the scripts |
| WorkerTraces.PlaysAmong | mocker/schedule.cpp:161-245 | a round along its own script is a round of the whole loop along all of them |
| CoroutineContexts.CoroutineObject.constructor | mocker/coroutine.cpp:54-77 | a new coroutine is in INIT with its context at the entry point |
| CoroutineContexts.CoroutineObject.ThreadMain | mocker/coroutine.cpp:43-52 | the thread's own coroutine is executing and has no stack |
| CoroutineContexts.CoroutineObject.Reset | mocker/coroutine.cpp:98-112 | back to INIT at the entry point with the new function |
| CoroutineContexts.ThreadLocals.constructor | mocker/thread.cpp:73-88 | a new thread has no current coroutine |
| CoroutineContexts.ThreadLocals.ForCaller | mocker/schedule.cpp:20-41 | on the caller's thread its own coroutine is current and the root is to schedule |
| CoroutineContexts.ThreadLocals.GetCurrent | mocker/coroutine.cpp:150-158 | the current coroutine; the first call makes the thread's own |
| CoroutineContexts.ThreadLocals.Switch | mocker/coroutine.cpp:114-128 | `swapcontext` saves the context on the processor and resumes one that was saved and is not past its end |
| CoroutineContexts.ThreadLocals.SwapIn | mocker/coroutine.cpp:114-121 | the thread's contexts step as in the transition system, and the coroutine is on top of the chain |
| CoroutineContexts.ThreadLocals.EndSlice | mocker/coroutine.cpp:123-210 | the same for the way back: the resumed context is the saved scheduling coroutine, which is current again, and state and context left behind fit the way the slice ended |
| CoroutineContexts.ThreadLocals.SwapOut | mocker/coroutine.cpp:123-128 | the current coroutine is saved whatever its state, the saved scheduling coroutine resumed and current, and the chain one shorter |
| CoroutineContexts.ThreadLocals.Enter | mocker/schedule.cpp:149-155 | `run` makes the thread's own coroutine the scheduling one, except on the caller's thread |
| CoroutineContexts.ThreadLocals.Call | mocker/coroutine.cpp:130-137 | the caller's root goes on top of the thread's own coroutine |
| CoroutineContexts.ThreadLocals.Back | mocker/coroutine.cpp:139-246 | and off again, finished and past its end |
| CoroutineContexts.ThreadLocals.Slice | mocker/schedule.cpp:195-195 | a slice leaves the thread as it was and moves only the coroutine's own context |
| CoroutineContexts.ThreadLocals.EntryRound | mocker/schedule.cpp:193-205 | one coroutine from the list, skipped if finished: the thread is as it was and the coroutine resumable or finished |
| CoroutineContexts.ThreadLocals.CallbackRound | mocker/schedule.cpp:206-226 | a callback in a new or a reset coroutine, which is kept for the next one exactly if it finished |
| CoroutineContexts.ThreadLocals.IdleRound | mocker/schedule.cpp:236-243 | one slice of the idle coroutine, which ends exactly if told to stop |
| CoroutineContexts.ThreadLocals.Loop | mocker/schedule.cpp:161-245 | any sequence of these rounds, with other threads running the same coroutines in between, never resumes a context past its end, so the "never reached" lines are not, and leaves what had finished alone |
| CoroutineContexts.ThreadLocals.RunThread | mocker/schedule.cpp:149-246 | the same from the start of a thread, through `call` and `back` on the caller's, with the chain back at the thread's own coroutine at the end |
| LogFormatterObject.LogFormatter.constructor | mocker/log.cpp:242-244 | after construction the items and the error flag are those of the pattern |
| LogFormatterObject.LogFormatter.Init | mocker/log.cpp:257-402 | both phases together compute exactly the items and the error flag of the pattern |
| LogFormatterObject.LogFormatter.OneDirective | mocker/log.cpp:276-345 | emits the directive found, pending text first, or an error token, and rewinds the index to match |
| LogFormatterObject.LogFormatter.ScanDirective | mocker/log.cpp:276-330 | the inner loop with its status 0 to 4 and its rewind finds exactly the directive `MatchDirective` describes |
| LogFormatterObject.LogFormatter.Tokenize | mocker/log.cpp:257-350 | the outer loop produces exactly the tokens of the pattern; on an error the pending text is not flushed first |
| LogFormatterObject.LogFormatter.BuildItems | mocker/log.cpp:366-397 | table lookup for each token, with the error flag raised exactly for an unknown name |
| LogFormatterObject.LogFormatter.FormatEvent | mocker/log.cpp:246-252 | the items rendered in order, each directive by its own key and format |
| LogPatternTheorems.ExactLanguage | mocker/log.cpp:257-402 | a pattern is accepted exactly if it is in the grammar: plain characters, `%` before `%`, `%K` not before a letter or brace, `%K{x...}`, with K in the table |
| LogPatternTheorems.PatternRoundTrip | mocker/log.cpp:257-402 | printing the items of an accepted pattern gives the pattern |
| LogPatternTheorems.FormatSpellsPattern | mocker/log.cpp:246-252 | formatting an accepted pattern with a renderer that spells each directive out gives the pattern: every directive reaches its renderer with its key and its format, in order, and all other text is kept |
| LogPatternTheorems.OneKey | mocker/log.cpp:365-383 | a percent sign and one character are accepted exactly for the twelve keys of the table |
| LogPatternTheorems.DefaultPattern | mocker/log.cpp:408-410 | the pattern every logger starts with is accepted, and its items one by one |
| LogPatternTheorems.StrayPercent | mocker/log.cpp:276-345 | a percent sign that starts no directive, or whose brace is never closed, puts one error item in front of the pending text, and all else compiles as if it were not there |
| LogPatternTheorems.UnknownDirective | mocker/log.cpp:385-397 | a directive that is not in the table is an error item in its place, and the rest is compiled |
| LogPatternTheorems.UnknownBraced | mocker/log.cpp:385-397 | the same with a format, which is lost |
| LogPatternTheorems.ListRoundTrip | mocker/log.cpp:257-402 | compiling the printed text of a canonical item list gives the list |
| LogPatternTheorems.CompilationsAreCanonical | mocker/log.cpp:257-402 | the compilations of accepted patterns are exactly the canonical lists, so the compiler is a bijection |
| LogPatternTheorems.SideBySide | mocker/log.cpp:257-402 | two accepted patterns compile side by side exactly if the first does not end in an unbraced directive that the second would prolong |
| LogPatternTheorems.FormatSideBySide | mocker/log.cpp:246-252 | and then every event is formatted as by the one followed by the other |
| LogPatternTheorems.NeverEndsInPercent | mocker/log.cpp:269-272 | no accepted pattern ends in a percent sign, so `%%` alone is an error |
| LogPatternTheorems.DoublePercentIsNotOne | README.md:73 | the documented meaning of `%%` holds before no accepted pattern at all |
| LogPatternTheorems.DoublePercentAccepted | mocker/log.cpp:267-273 | `%%q` is accepted exactly if `%q` is |
| LogPatternTheorems.DoublePercentMeaning | mocker/log.cpp:267-273 | and it then compiles to a literal percent sign joined to the compilation of `%q` |
| ConfigTree.ListAllMember | mocker/config.cpp:20-39 | appends exactly the preorder list of the node to the output passed by reference |
| ConfigTree.ListChildren | mocker/config.cpp:33-38 | the loop over a map appends the lists of its children in order |
| ConfigTree.NameCharacters | mocker/config.cpp:25-28 | the characters of a valid name are exactly those of the list the source gives |
| ConfigTree.JoinedName | mocker/config.cpp:34-37 | a dotted name is valid exactly if both of its parts are |
| ConfigTree.PathOrder | mocker/config.cpp:20-39 | the list is exactly the nodes whose dotted name is valid, each path once, in document order |
| ConfigTree.ListedIffValid | mocker/config.cpp:20-39 | listed are exactly the nodes whose dotted path is a valid name, under that name |
| ConfigTree.ListedNamesAreLower | mocker/config.cpp:49-51 | lowercasing never changes a listed name |
| ConfigTree.SameKey | mocker/config.cpp:34-37 | dot-free keys with a common dotted descendant are equal |
| ConfigTree.NamesAreDistinct | mocker/config.cpp:20-39 | if keys are non-empty, dot-free and distinct among siblings, no name is listed twice |
| ConfigVariable.WalkNotify | mocker/config.h:366-368 | one change takes a listener from the old value to the new one if it is reached and leaves it alone if not |
| ConfigVariable.SetChanges | mocker/config.h:359-373 | an equal value changes nothing; if no callback throws each is called once in order and the value is written; if one throws, it and those before it are called and the old value stays |
| ConfigVariable.SetStep | mocker/config.h:359-373 | after a change all live listeners agree with `getValue()` exactly if no callback threw; the chains have no gap either way |
| ConfigVariable.OtherStep | mocker/config.h:375-397 | adding, deleting and clearing listeners keep that, and a new id was never used before |
| ConfigVariable.ListenerMirror | mocker/config.h:359-397 | over any run without throwing callbacks ids are never reused, chains have no gap, and a mirror started at registration equals `getValue()` |
| ConfigVariable.ConfigVar.constructor | mocker/config.h:325-329 | the default value, no listeners |
| ConfigVariable.ConfigVar.GetValue | mocker/config.h:354-357 | the value last written |
| ConfigVariable.ConfigVar.SetValue | mocker/config.h:359-373 | the same of the object, and that it reports a throw exactly if a callback reached throws |
| ConfigVariable.ConfigVar.FromString | mocker/config.h:342-352 | a text that does not convert changes nothing; one that does is set; success is reported exactly if the value is the converted one afterwards |
| ConfigVariable.ConfigVar.AddListener | mocker/config.h:375-381 | the next id, placed last |
| ConfigVariable.ConfigVar.DelListener | mocker/config.h:383-386 | that id is gone and nothing else, order included |
| ConfigVariable.ConfigVar.ClearListener | mocker/config.h:394-397 | no listener is left |
| ConfigRegistry.LastWrite | mocker/config.cpp:41-63 | the value after a load is that of the last text with the variable's name that converts, or the old one if none does, exactly if no callback threw when that text was written |
| ConfigRegistry.NeverThrowsWrites | mocker/config.h:342-373 | callbacks that never throw meet that condition |
| ConfigRegistry.SecondLoadSilent | mocker/config.cpp:41-63 | loading the same texts again changes nothing, and calls nobody, exactly if the variable has no listener or the texts that convert agree and the last of them was written |
| ConfigRegistry.NoListeners | mocker/config.h:359-373 | without listeners a load writes the value of the last text that converts and does nothing else |
| ConfigRegistry.ReloadIsSilent | mocker/config.cpp:41-63 | for a tree with sound keys a second load changes nothing and calls nobody exactly if the first one wrote what it converted, as it does when callbacks do not throw |
| ConfigRegistry.OneTextEach | mocker/config.cpp:41-63 | a tree with sound keys addresses each variable at most once |
| ConfigRegistry.AtMostOneText | mocker/config.cpp:41-63 | with distinct names a load addresses a variable at most once |
| ConfigRegistry.TextsByPath | mocker/config.cpp:41-63 | for any tree: the texts a variable gets are those of the nodes whose dotted path is its name, in document order, a scalar's own text or the dump of any other node |
| ConfigRegistry.LoadByPath | mocker/config.cpp:41-63 | for sound keys the node at a path gives its text to the variable of that name, whose value is then the converted one if no callback throws; a variable that no path names keeps its state |
| ConfigRegistry.Config.LookupBase | mocker/config.cpp:14-18 | the variable of that name or none |
| ConfigRegistry.Config.Lookup | mocker/config.h:424-456 | found, wrong type, invalid name or created with the given name, type and callbacks, and the registry otherwise unchanged |
| ConfigRegistry.Config.ApplyNode | mocker/config.cpp:45-61 | one node gives its text, or its dump if it is no scalar, to the variable of its name and changes no other |
| ConfigRegistry.Config.LoadFromYaml | mocker/config.cpp:41-63 | for sound keys the node at a path sets the variable of that name to its converted text, and variables no path names keep their state; for any tree every variable has taken the texts addressed to it in preorder and the registry is untouched; its value is that of the last text that converts exactly if that was written; a variable that agrees with the tree stays as it is, and for sound keys every written one agrees afterwards |
| LoggerObject.WithoutRemovesOne | mocker/log.cpp:459-467 | `delAppender` removes one occurrence and keeps everything else |
| LoggerObject.Logger.constructor | mocker/log.cpp:408-410 | no appenders, a formatter of its own, of a pattern that is accepted |
| LoggerObject.Logger.AddAppender | mocker/log.cpp:446-457 | an appender without formatter inherits; inheritance survives exactly if the appender brings no stale foreign formatter |
| LoggerObject.Logger.DelAppender | mocker/log.cpp:459-467 | the first occurrence is gone |
| LoggerObject.Logger.ClearAppender | mocker/log.cpp:469-472 | no appender is left |
| LoggerObject.Logger.SetFormatter | mocker/log.cpp:474-484 | appenders without their own follow, the others keep theirs; all is well exactly if the new one is non-null and the own ones are |
| LoggerObject.Logger.SetPattern | mocker/log.cpp:486-494 | a pattern outside the grammar changes nothing, any other installs its compilation |
| LoggerObject.Logger.Log | mocker/log.cpp:412-424 | at or above its level a logger with appenders writes their lines, one without those of the root's appenders if the root's level allows it; something is written exactly if the levels are passed and some appender reached passes its own; no missing formatter is ever used |
| LoggerObject.LineAt | mocker/log.cpp:545-550 | each appender the event passes writes one line behind those of the appenders before it, and no other writes any |
| LoggerObject.InheritedLayout | mocker/log.cpp:545-550 | an appender without a formatter of its own writes the event in its logger's present layout |
| LoggerObject.LogAppender.constructor | mocker/log.cpp:523-525 | no formatter, and none of its own |
| LoggerObject.LogAppender.SetFormatter | mocker/log.cpp:527-534 | own formatter exactly if non-null |
| LoggerObject.LogManager.constructor | mocker/log.cpp:643-648 | one root logger with one appender, which has no formatter of its own and the root's instead |
| LoggerObject.LogManager.GetLogger | mocker/log.cpp:650-661 | the one logger of that name, made once and attached to the root |
| LoggerObject.LogManager.RunAll | mocker/log.cpp:446-661 | over any run on all loggers, ones made on the way included, that attaches no appender twice, every attached appender has a formatter, and one without its own has its logger's current one; each logger has the appenders its operations leave it with, no logger is replaced, and which appenders were ever attached is known for the next run |
| LockOrder.ProgramRanked | mocker/log.cpp:412-672 | every operation takes only locks ranked below all it holds and releases all of them |
| LockOrder.AppendersVisited | mocker/log.cpp:412-672 | which locks every operation holds while it takes an appender's: its logger's, child and root on the way through the root, manager and logger while everything is dumped; each appender in turn, twice if it reopens its file |
| LockOrder.StepKeeps | mocker/mutex.h:124-152 | mutual exclusion, the rank discipline and the handshake are kept by every step of every thread |
| LockOrder.DeadlockFree | mocker/log.cpp:412-672 | in every reachable state with an unfinished thread some thread can take its next action |
| LockOrder.NeverSelfBlocked | mocker/log.cpp:412-424 | no thread ever asks for a lock it holds; the root logger's own `m_root` is null |
| LockOrder.RunsFinish | mocker/mutex.h:124-152 | runs are bounded, and one that cannot go on has finished every started thread |
| LockOrder.LaunchIsInit | mocker/schedule.cpp:51-66 | a `start` of n threads beside any logging threads is such a system |
| LockOrder.StartNeverDeadlocks | mocker/thread.cpp:36-88 | so `start` may hold `m_mutex` across the `Thread` constructors: a run that cannot go on has started and finished every thread of the pool and every other; `Run` notifies before it calls the function |

## Left out

- `ucontext`, stacks, pthreads and `sem_t`: a context is the point where it would continue, a lock is its holder, a semaphore its count.
- Repeated `stop` or `start` on one scheduler; the early return of `stop` at mocker/schedule.cpp:75-85 has the effect of raising both flags, finding all drained and joining no thread, and is modelled as that.
- Overrides of `idle`, `tickle` and `stopping` in subclasses, and idle coroutines that throw.
- `swapIn` on a thread without a scheduler, as tests/test_coroutine.cpp does.
- Liveness before the state in which shutdown is certain: that needs fairness of the threads and termination of the client's functions.
- The tickle itself, `m_idleThreadCount`, coroutine and thread ids and names: nothing depends on them.
- The pointer in `coe` after a finished coroutine was skipped: it counts as dropped at the decrement instead of at the top of the next round; within the rules no finished coroutine is queued.
- Pointers a task's own function holds to other coroutines: they count as pointers of clients.
- yaml-cpp, the conversions between text and values, and the printing of a tree: a tree is a datatype, conversion and printing are parameters.
- Concurrent `setValue` and `Lookup`: both release the lock between their check and their write.
- Listeners that call back into their variable, and exceptions that are not `std::exception`.
- Wrap-around of the 64-bit listener id, variables of several types in one registry (one value type with a type name stands for them), `toString`, `Visit` and the lookup without a default.
- Rendering of a single field, time formats, colours, files and standard output: rendering is a parameter, and an appender's effect is the line it writes.
- The listener that applies a changed log configuration (mocker/log.cpp:822-878): it sets a level on a null logger for an unchanged definition, and `LogDefine::operator==` compares a list with itself, so the natural claim about it is false.
- LoggerObject.LogManager.RunAll: one thread at a time; what several threads do to the locks is in the lock model, which does not follow formatters.
- LockOrder.ProgramRanked: which appenders an operation visits is a parameter, so a list changed by another thread in between is covered, but not computed.
- SchedulerObject.Scheduler.Run: makes as many rounds as there are scripts; a worker still in its loop then goes on as one of the other threads, so a call of `stop` whose scripts run out has not returned.
