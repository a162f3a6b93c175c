# Verified model of cmsis_cpp

cmsis_cpp gives CMSIS-RTOS2 the interfaces of the C++ standard library. This project models
the parts of it that contain algorithms and proves what they guarantee. `dafny verify
dfyconfig.toml` checks all of it.

## The condition variable

`condition_variable` keeps a list of pointers to binary semaphores that live on the stacks of
the waiting threads, an internal mutex `m`, and uses the caller's mutex `u`.

- `CvProtocol.dfy` is the protocol as a transition system over any number of threads. A step is
  one kernel call or one change of the list; a run is any interleaving. Nothing is assumed away:
  an erase through a stale iterator, the release of a destroyed semaphore, the release of a full
  one, and a wait without the lock are steps that stop the run. `Stage` and `issued` are history
  that no step tests.
- `CvInvariant.dfy` has the inductive invariant. Its centre is one sequence, the semaphores
  released so far followed by the list nodes not yet signalled: it is strictly increasing in the
  order of registration, and every wait call is in it exactly once or not at all.
- `CvRuns.dfy` defines runs and says exactly when a step stops one. `CvErase.dfy`,
  `CvProperties.dfy` and `CvProgress.dfy` hold the theorems about whole runs.
- `CvRefinement.dfy` states the monitor of section 30.5.1 of ISO/IEC 14882:2011, in which
  releasing the mutex and starting to wait is a single event and each wakeup uses up its
  notification, and proves that every run of the protocol is a run of that monitor.
- `CvCalls.dfy` has the moves of one thread among the others: turns of the others, given by a schedule,
  and own steps. It proves that these are the runs of the protocol and that schedules miss none.
- `ConditionVariable.dfy` is the code itself: `NotifyOne`, `NotifyAll` and `WaitForUsec` execute
  their statements in order on mutable fields, each statement proved to be a step of the protocol,
  while a schedule given from outside lets the other threads do anything between two statements.
  Each contract names the exact moves of the call, turns of the others included. What a call does is
  thereby part of a run of the protocol, and the theorems about runs hold of it.
- `PredicateWait.dfy` has the deadline and predicate loops of the header on top of that code. Each
  round calls `WaitForUsec` under its own schedule; the answers of the predicate and the readings of
  the clock are given from outside, and the contracts name the moves of all rounds.

Three results are negative, and kept as such. A wait that times out and is notified before it erases
its node erases through a stale iterator: `StaleEraseExactly` gives the exact runs, `FaultingRun` one
of them for each duration, and `NeverReturnsOnceDoomed` puts the condition at the notification. `wait` passes `microseconds::max()`, whose tick product overflows at every
frequency above 1 Hz, and which is a finite timeout at 1 Hz, so the code's untimed wait is a timed
one: read as intended it is `Untimed`, and then `UntimedRunsNeverFault`; read as coded it is
`Usec(MAX_USEC)`, and `FaultingRun(MAX_USEC)` applies to it. `UntimedWaitExactly` says at which
frequencies a product that wraps around still gives what was meant.

A negative duration given to `wait_for` throws with the node still in the list. The model keeps
that path (`Throw`). `DeadReleaseExactly` gives the runs that then release a destroyed semaphore, and
`DeadReleaseRun` one of them for each negative duration. `wait_until` never takes it.

## The rest

- `Ticks.dfy`: microseconds to ticks and ticks to time, with the overflow of the signed 64-bit
  product, the cast to 32 bits and the dead clamp; the range in which the conversion is exact, its
  round trips, and when it saturates as meant. `Sleep.dfy`: what this makes of deadlines.
- `Semaphore.dfy`: the release loop, the acquires, and any sequence of them.
- `Thread.dfy`: ownership of kernel threads over any program that constructs, moves, swaps, joins,
  detaches and destroys `thread` objects.
- `MessageQueue.dfy`: where every object put into a queue of `std::unique_ptr` is, over any sequence
  of calls, errors and timeouts included.
- `Dispatch.dfy`: arbitrarily nested and sequenced scheduler locks.

Kernel calls are atomic. Which message a queue delivers first, how late a thread wakes, whether a
timeout or an error occurs, and what other threads do are parameters, so the theorems hold for every
choice. C++ exceptions are result values; `std::terminate` and undefined behaviour are outcomes.

## Model

| member | source | states |
|---|---|---|
| CvInvariant.InvKept | src/ConditionVariable.cpp:35-84 | every step of every thread keeps mutual exclusion, the pairing of live semaphores with wait calls, and the queue invariant |
| CvInvariant.LocalKeeps | src/ConditionVariable.cpp:65-84 | a step that is right at its own thread cannot break lock ownership or semaphore lifetime for any other thread |
| CvInvariant.SignalQueue | src/ConditionVariable.cpp:38-50 | releasing the next node moves it from the waiting to the issued ones without changing their common order |
| CvInvariant.EraseQueue | src/ConditionVariable.cpp:78-79 | erasing a timed-out node removes it and only it, and keeps the order |
| CvRuns.RunInv | src/ConditionVariable.cpp:35-84 | the invariant holds in every state of every run that has not stopped |
| CvRuns.StageStep | src/ConditionVariable.cpp:65-83 | a wait call moves only forward: registered, blocked, then exactly one of token, timeout or exception, then erased, and by which statement |
| CvRuns.HaltExactly | src/ConditionVariable.cpp:35-84 | a step stops the run if and only if it waits without the lock, erases a node already signalled, or signals the node of a wait that threw |
| CvErase.StaleEraseExactly | src/ConditionVariable.cpp:73-80 | a run ends in a stale erase of a node if and only if its last step is that erase and a notifier popped the node after the timeout and before it |
| CvErase.GoneForGood | src/ConditionVariable.cpp:38-51 | a node that has left the list never comes back, in any run |
| CvErase.NoTimeoutNoStaleErase | src/ConditionVariable.cpp:76-81 | runs without timeouts never erase through a stale iterator |
| CvErase.NeverReturnsOnceDoomed | src/ConditionVariable.cpp:73-80 | a wait signalled after its timeout and before its erase never returns: in every later state of the run it is still inside |
| CvErase.DoomedWaitIsInside | src/ConditionVariable.cpp:76-80 | and its erase is the step that stops the run |
| CvErase.FaultingRun | src/ConditionVariable.cpp:40-79 | for every duration there is a run of two threads that ends in the stale erase |
| CvErase.DeadReleaseExactly | src/Semaphore.cpp:97-106 | a notifier releases a destroyed semaphore if and only if it signals a node whose wait threw on a negative duration |
| CvErase.DeadReleaseRun | src/Semaphore.cpp:97-106 | for every negative duration there is a run of two threads that ends in the release of a destroyed semaphore |
| CvErase.NeverOverflows | src/ConditionVariable.cpp:35-52 | no notifier in any run releases a semaphore that already holds its token |
| CvErase.ReleasesAreSafe | src/ConditionVariable.cpp:35-52 | with no negative durations no release fails, although woken waiters may destroy their semaphores before their nodes are popped |
| CvErase.UntimedRunsNeverFault | src/ConditionVariable.cpp:54-57 | with untimed waits as intended, nothing but a wait without the lock stops a run |
| CvProperties.NoLostWakeup | src/ConditionVariable.cpp:65-74 | with `m` free a registered waiter is in the list without a token or out of it with one token, exactly one of the two |
| CvProperties.ParkedWaiterIsPending | src/ConditionVariable.cpp:72-73 | a waiter that cannot run is a node that notifiers have still to serve, whoever holds `m` |
| CvProperties.SignalledWaiterRuns | src/ConditionVariable.cpp:40-73 | a waiter whose semaphore was released and that has not timed out can take its token |
| CvProperties.RegistrationOrder | src/ConditionVariable.cpp:38-69 | in every reachable state the list is in registration order, and so are the tokens issued over the whole run, with every served wait registered before every waiting one |
| CvProperties.OvertakenAtMost | src/ConditionVariable.cpp:38-81 | a waiter is served, or has left, after at most as many further releases as there were nodes in front of it |
| CvProperties.HolderUndisturbed | src/ConditionVariable.cpp:37-51 | no other thread changes the list or the tokens issued while a thread holds `m` |
| CvProperties.NotifyAllSnapshot | src/ConditionVariable.cpp:45-52 | under any interleaving `notify_all` releases exactly the nodes present when it took `m`, each once and in order, and empties the list |
| CvProperties.NotifyOneSnapshot | src/ConditionVariable.cpp:35-43 | under any interleaving `notify_one` releases the oldest node present when it took `m` and only it, and nothing if there is none |
| CvProperties.NotifyAllWakesEveryone | src/ConditionVariable.cpp:45-52 | when a `notify_all` is done, a wait has its token if and only if it had one before or was registered when `m` was taken |
| CvProperties.TokensAccounted | src/ConditionVariable.cpp:38-83 | in every reachable state the number of tokens issued is the sum of those taken, ready, stranded by a timeout and burnt by an exception |
| CvProperties.TokensCounted | src/ConditionVariable.cpp:38-83 | the tokens issued and taken are as many as the release steps and the successful acquires of the run |
| CvProperties.TokenConservation | src/ConditionVariable.cpp:38-83 | over every run, releases = wakeups + ready + stranded + burnt tokens |
| CvProgress.TimeoutFreeConservation | src/ConditionVariable.cpp:38-83 | without timeouts and negative durations no token is stranded or burnt |
| CvProgress.HolderOfMRuns | src/ConditionVariable.cpp:37-79 | the owner of `m` never blocks, neither on `u` nor on a semaphore |
| CvProgress.MIsReleased | src/ConditionVariable.cpp:37-81 | each step of the owner brings the release of `m` closer, and no other thread defers it |
| CvProgress.UIsReleased | src/ConditionVariable.cpp:65-84 | each step of a wait call that holds `u` brings its release, or the return with it, closer by one, and no other thread defers it |
| CvProgress.BlockedThreadHasAHelper | src/ConditionVariable.cpp:37-79 | a thread held up by a mutex waits for an owner, or for the owner of `m` behind that owner, who can step; there is no longer chain |
| CvProgress.OnlyParkedThreadsAreStuck | src/ConditionVariable.cpp:35-84 | when nobody can step and user code does not hold `u`, both mutexes are free and every thread in a call awaits its notification in the list |
| CvRefinement.SignalNotifies | src/ConditionVariable.cpp:38-50 | releasing a node is the monitor's notification of the longest waiting thread, or of the one entering if nobody waits |
| CvRefinement.DropUEnters | src/ConditionVariable.cpp:68-73 | releasing `u` after registering is the monitor's atomic release-and-wait, or passes a notification that came first |
| CvRefinement.EraseLeaves | src/ConditionVariable.cpp:76-81 | the erase after a timeout takes the wait, which was never notified, out of the monitor |
| CvRefinement.ThrowIsInternal | src/Semaphore.cpp:99-106 | a wait that throws is invisible to the monitor, where it stays waiting as its node stays in the list |
| MonitorSpec.AllowedKeepsSound | src/ConditionVariable.cpp:65-84 | in the monitor, from the call of a wait the mutex stays with its owner until the event that releases it and starts the wait; no wait is queued twice, or queued and notified |
| MonitorSpec.OneWakeupPerNotification | src/ConditionVariable.cpp:38-73 | over every run of the monitor a wait resumes exactly as often as it was notified, but for a notification still pending |
| CvRefinement.StepRefines | src/ConditionVariable.cpp:35-84 | every step that does not stop the run is the one event of the monitor that belongs to it |
| CvRefinement.RunRefines | src/ConditionVariable.cpp:35-84 | every run is, until it stops, a run of the monitor; waits resume only when notified, parked waits are waiting in it, and what waits in it is blocked, timed out or has thrown on a negative duration |
| CvRefinement.RunIsMonitorRun | src/ConditionVariable.cpp:35-84 | the states and steps of a run, up to any point before it stops, map to one whole run of the monitor |
| CvRefinement.NotificationsAreTokens | src/ConditionVariable.cpp:38-73 | in that run a wait is notified at most once, exactly if its token was issued, and resumes at most once, exactly if it took its token |
| ConditionVariable.OthersRely | src/ConditionVariable.cpp:35-84 | whatever the other threads do, they keep the invariant and leave a thread its Pc, its locks, its semaphore's stage and, under `m`, the list |
| CvCalls.OthersMakeEveryStep | src/ConditionVariable.cpp:35-84 | every run of other threads' steps is the effect of a turn that lists them, so schedules reach every interleaving |
| CvCalls.OthersStepwise | src/ConditionVariable.cpp:35-84 | in a turn a step is made exactly if it is another thread's and enabled when it comes |
| CvCalls.OthersArePath | src/ConditionVariable.cpp:35-84 | a turn of the others is a run of some of the steps it lists, none of them the watched thread's |
| CvCalls.EveryRunIsPlayed | src/ConditionVariable.cpp:35-84 | every run, whatever the interleaving, is one of a thread's own steps and turns of the others |
| CvCalls.ScriptTurns | src/ConditionVariable.cpp:35-84 | before each own step of a call the others have had exactly the turn that the schedule gives them |
| CvCalls.CallExtendsRun | src/ConditionVariable.cpp:35-84 | the moves of calls made at the end of a run, turns of the others included, give a longer run, of which every theorem about runs speaks |
| CvCalls.CallStopsFor | src/ConditionVariable.cpp:35-84 | a run that stops during a call did so by a stale erase of a node signalled after its timeout, by the node of a wait that threw, or by another thread waiting without the lock; else the invariant holds |
| CvRuns.NotifyHalts | src/ConditionVariable.cpp:38-50 | a notifier that releases a semaphore finds it alive and empty, whatever the interleaving, unless the wait it belongs to threw |
| ConditionVariable.ConditionVariable.SignalFront | src/ConditionVariable.cpp:38-40 | the front node is signalled as the protocol's step |
| ConditionVariable.ConditionVariable.PopFront | src/ConditionVariable.cpp:41 | the signalled node, and no other, leaves the list |
| ConditionVariable.ConditionVariable.NotifyOne | src/ConditionVariable.cpp:35-43 | under any schedule, with the others' turn before each step: done with the oldest node served and nothing else, or waiting for `m`, or stopped by a stale erase or by a wait that threw, never by a full semaphore |
| ConditionVariable.ConditionVariable.SignalNext | src/ConditionVariable.cpp:48-49 | one round of the loop signals the next node of the snapshot |
| ConditionVariable.ConditionVariable.SignalAll | src/ConditionVariable.cpp:48-49 | the loop ends with exactly the snapshot signalled, however others interleave |
| ConditionVariable.ConditionVariable.Clear | src/ConditionVariable.cpp:51 | the list is emptied with the whole snapshot signalled |
| ConditionVariable.ConditionVariable.NotifyAll | src/ConditionVariable.cpp:45-52 | under any schedule, with the others' turn before each step: done with exactly the snapshot served and the list empty, after three turns more than nodes, or waiting for `m`, or stopped for the same causes |
| ConditionVariable.ConditionVariable.Build | src/ConditionVariable.cpp:62-65 | without the lock the program terminates; else a fresh semaphore without a token |
| ConditionVariable.ConditionVariable.InsertNode | src/ConditionVariable.cpp:69 | the node goes to the end of the list |
| ConditionVariable.ConditionVariable.UnlockUser | src/ConditionVariable.cpp:72 | the caller's mutex is released with the node registered |
| ConditionVariable.ConditionVariable.Throw | src/Semaphore.cpp:99-106 | a negative duration leaves the call without the mutex and with the node's semaphore destroyed |
| ConditionVariable.ConditionVariable.TakeToken | src/ConditionVariable.cpp:73 | a token that is there is taken |
| ConditionVariable.ConditionVariable.TimeOut | src/Semaphore.cpp:114-127 | a timed-out acquire leaves the count alone and goes on to retake the mutex with the node still to be erased |
| ConditionVariable.ConditionVariable.EraseNode | src/ConditionVariable.cpp:79 | the erase is stale exactly if the node's semaphore was released |
| ConditionVariable.ConditionVariable.Leave | src/ConditionVariable.cpp:76-84 | no_timeout means a token was issued for this wait; timeout means none was and its node is gone; either way the mutex is held and the semaphore destroyed |
| ConditionVariable.ConditionVariable.WaitForUsec | src/ConditionVariable.cpp:59-84 | under any schedule, with the others' turn before each step: its status tells the truth about its token, the acquire is decided after the others' turn and never times out on a token issued by then, the mutex is held on return, and otherwise it threw on a negative duration, is still blocked with its time not up, or the run stopped |
| ConditionVariable.ConditionVariable.AcquireAndResume | src/ConditionVariable.cpp:73-84 | a wait whose token has been issued before its acquire takes it, and neither times out nor stays at the acquire |
| PredicateWait.WaitFor | include/ConditionVariable.h:90-94 | exactly one wait, for the duration cast to microseconds; it throws only for durations of at most minus one microsecond, and then without the mutex; it returns only for others, and then with it |
| PredicateWait.RoundTurns | include/ConditionVariable.h:59-110 | in every round of a loop the others have their turn before the predicate and before every step of the wait |
| PredicateWait.WaitUntil | include/ConditionVariable.h:65-74 | a past deadline is a timeout without any step; every other one is exactly the wait that `Asked` describes, and never throws |
| PredicateWait.Asked | include/ConditionVariable.h:69-73 | there is no wait exactly if the deadline has passed; else the wait is for the time left, cut to whole microseconds and never negative |
| PredicateWait.Wait | include/ConditionVariable.h:59-63 | under any schedule it returns in the first round in which the predicate holds, with the mutex held and one whole wait made in each round before; it never throws or terminates |
| PredicateWait.WaitUntilPred | include/ConditionVariable.h:76-88 | under any schedule it returns in the first round in which the predicate holds or after the first wait that timed out, with the predicate's answer and the mutex held; each wait is the one asked for then |
| PredicateWait.WaitForPred | include/ConditionVariable.h:96-110 | the same with the deadline counted from the call |
| Ticks.CodeWraps | src/Semaphore.cpp:108-112 | without overflow the tick count is the floor modulo 2^32: the clamp never acts |
| Ticks.SaturatesExactly | src/Semaphore.cpp:108-112 | it is the saturating conversion if and only if the floor fits 32 bits or is congruent to 2^32-1 |
| Ticks.RangeIsExact | src/Semaphore.cpp:108-110 | in range nothing overflows and the result is short by less than one tick |
| Ticks.RangeIsMonotone | src/Semaphore.cpp:108-110 | in range longer durations never give fewer ticks |
| Ticks.UntimedWaitIsNeverForever | src/ConditionVariable.cpp:54-57 | the product for microseconds::max() overflows exactly above 1 Hz, and at 1 Hz the timeout is finite |
| Ticks.UntimedWaitExactly | src/Semaphore.cpp:108-112 | where the product wraps around, the untimed wait gets a timeout of zero if and only if the frequency is even and below 1 MHz, and waits forever as meant if and only if it is even and from 1 MHz to below 2 MHz |
| Ticks.ConvertDurationExact | src/Chrono.cpp:34-37 | no 32-bit count overflows 64 bits, at microseconds or nanoseconds |
| Ticks.TicksRoundTrip | src/Chrono.cpp:44-47 | ticks to microseconds and back gives the same ticks or one less, and the same if and only if the microseconds are exact |
| Ticks.TicksRoundTripExact | src/Chrono.cpp:44-47 | the round trip is exact at every frequency that divides one million |
| Ticks.UsecRoundTrip | src/Thread.cpp:346-348 | microseconds to ticks and back never grows and loses less than one tick plus one microsecond |
| Ticks.CastSign | include/ConditionVariable.h:93 | the cast to microseconds is negative exactly for durations of at most minus one microsecond, and positive exactly from one microsecond on |
| Ticks.CastRounds | include/ConditionVariable.h:93 | the cast to microseconds rounds towards zero by less than one microsecond |
| Sleep.DeadlineError | include/Thread.h:208-214 | a delay in range ends less than one tick plus one microsecond before the deadline, however late the kernel wakes the thread |
| Sleep.EarlyWake | src/Thread.cpp:346-350 | a delay out of range ends too early on a kernel that is not late |
| Sleep.DeadlineInTicks | include/Thread.h:208-214 | measured in ticks, a sleep in range ends less than one tick before the deadline |
| Sleep.Kernel.Now | src/Chrono.cpp:44-47 | the clock reads the time of its ticks in whole microseconds, rounded down |
| Sleep.Kernel.SleepForUsec | src/Thread.cpp:342-362 | no delay for durations of at most zero, else the kernel is asked for exactly the wrapped tick count, and an error leaves the clock alone |
| Sleep.Kernel.SleepUntil | include/Thread.h:206-214 | the kernel is asked once for the time left; in range, or with the deadline past, less than one tick is missing against the ticks themselves, and less than one tick plus one microsecond against the clock; on an exact kernel the latter if and only if the delay is in range |
| Sleep.Kernel.SleepUntilUnsteady | include/Thread.h:199-220 | on other clocks, of any period, it returns exactly at the first reading that reached the deadline, unless a sleep fails; each sleep is for the time left cut to whole microseconds, and the ticks that pass are those of the delays |
| Sleep.SleepsForTheTimeLeft | include/Thread.h:199-220 | each of its sleeps is for the time left by the last reading, cut to whole microseconds |
| Sleep.DelayPasses | include/Thread.h:199-220 | a sleep in range lets pass the time asked for, short by less than one tick, and the kernel's lateness |
| Sleep.SpinsBelowMicrosecond | include/Thread.h:199-220 | on a clock finer than a microsecond the loop spins without delay once less than a microsecond is left |
| Semaphore.Semaphore.Release | src/Semaphore.cpp:63-77 | the loop succeeds if and only if the tokens fit; otherwise it throws with the semaphore full |
| Semaphore.Semaphore.TryAcquire | src/Semaphore.cpp:92-95 | it takes a token if and only if there is one |
| Semaphore.Semaphore.TryAcquireFor | src/Semaphore.cpp:97-128 | negative durations throw and overflow is undefined, both without taking a token; else the kernel's answer, with a zero timeout never waiting |
| Semaphore.Semaphore.Execute | src/Semaphore.cpp:63-128 | any sequence of calls has the results and leaves the count that the theorems speak of |
| Semaphore.CountAfter | src/Semaphore.cpp:63-128 | the count stays within the maximum over every sequence of calls |
| Semaphore.TokensConserved | src/Semaphore.cpp:63-128 | over every sequence of calls, the count left and the tokens taken are the count at first, the tokens released and those that arrived for waiting acquires |
| Semaphore.AcquiresUndoRelease | src/Semaphore.cpp:63-95 | a release of n and n acquires give the count back |
| Thread.Thread.Join | src/Thread.cpp:165-188 | it fails on a thread that is not joinable, from the thread itself, or if the kernel refuses; else joinability is gone |
| Thread.Thread.Detach | src/Thread.cpp:195-209 | it fails on a thread that is not joinable or if the kernel refuses; else joinability is gone |
| Thread.Thread.MoveAssign | src/Thread.cpp:156-163 | it terminates exactly if the target is joinable, else the two exchange what they own |
| Thread.Thread.Swap | src/Thread.cpp:226-229 | the two threads exchange what they own |
| Thread.Thread.Destroy | src/Thread.cpp:150-154 | it terminates exactly if joinable, else what it owned is destroyed with its kernel thread |
| Thread.Program.Construct | src/Thread.cpp:138-140 | a new thread that owns nothing, and nothing else changes |
| Thread.Program.Spawn | src/Thread.cpp:142-144 | a new joinable thread that owns a new thread_impl |
| Thread.Program.MoveConstruct | src/Thread.cpp:146-148 | the new thread owns what the old one did, the old one owns nothing, and nothing else changes |
| Thread.Program.SwapHandles | src/Thread.cpp:226-229 | two threads of a program exchange what they own, and no other is touched |
| Thread.RunSound | src/Thread.cpp:72-229 | over any program each thread_impl has exactly one owner until it is destroyed, and none is destroyed while joinable |
| Thread.ExchangeSound | src/Thread.cpp:156-163 | a swap neither drops nor duplicates ownership, a self-swap included |
| Thread.DropSound | src/Thread.cpp:150-154 | destroying a thread that is not joinable ends exactly what it owned |
| Thread.ClaimedExactly | src/Thread.cpp:74-102 | over any program joinability is lost exactly by a successful join or detach through the owner, and never comes back |
| Thread.ClaimedOnce | src/Thread.cpp:165-209 | at most one join or detach ever succeeds for a thread_impl |
| Thread.DeadExactly | src/Thread.cpp:70-154 | over any program a kernel thread is terminated exactly by destroying the thread that owns it, after its join or detach |
| Thread.Program.Apply | src/Thread.cpp:142-229 | every operation on the objects has the outcome and the effect that the theorems speak of; it terminates exactly when a joinable thread is given up |
| Thread.Program.Execute | src/Thread.cpp:72-229 | any program on the objects, up to its termination, ends in the state and with the outcomes that the theorems speak of |
| MessageQueue.UniquePtrQueue.Put | include/MessageQueue.h:164-168 | the object leaves the variable at once; it is enqueued, stays with the blocked call, or is lost if the kernel fails |
| MessageQueue.UniquePtrQueue.ResumePut | src/MessageQueue.cpp:82-93 | a blocked put ends with its object enqueued as soon as there is room, or lost if the kernel fails |
| MessageQueue.UniquePtrQueue.PutFor | include/MessageQueue.h:170-182 | the object leaves the caller whatever happens, and is lost unless it was enqueued; full means a zero timeout on a full queue |
| MessageQueue.UniquePtrQueue.Get | include/MessageQueue.h:184-189 | the message moves to the variable, whose former object is freed |
| MessageQueue.UniquePtrQueue.GetFor | include/MessageQueue.h:198-205 | unless it throws, the variable's former object is freed, on a timeout too |
| MessageQueue.UniquePtrQueue.OsPut | src/MessageQueue.cpp:112-125 | the kernel's side of a put: its status and the queue after it |
| MessageQueue.UniquePtrQueue.Clear | include/MessageQueue.h:211-218 | the drain ends with an empty queue, as a bare reset leaves it, having deleted what it delivered in the kernel's order |
| MessageQueue.DrainedIsQueue | include/MessageQueue.h:211-218 | in whatever order the kernel delivers, a drain deletes each queued object exactly as often as it is queued |
| MessageQueue.UniquePtrQueue.DeleteQueue | src/MessageQueue.cpp:56-67 | the objects still queued are lost |
| MessageQueue.LostExactly | include/MessageQueue.h:164-182 | over any calls an object is lost if and only if a put did not enqueue it or its queue was deleted |
| MessageQueue.FreedExactly | include/MessageQueue.h:184-218 | over any calls an object is freed if and only if the variable that holds it is overwritten, dropped or emptied, or its queue is drained |
| MessageQueue.UniquePtrQueue.Execute | include/MessageQueue.h:164-218 | over any sequence of calls every object is in exactly one place and none is freed twice, and the ledger and the results are those that the theorems speak of |
| Dispatch.Dispatch.Lock | src/OS.cpp:166-177 | the kernel is locked and its former state saved, or it throws and nothing is locked |
| Dispatch.Dispatch.Unlock | src/OS.cpp:179-199 | the saved state is restored; it throws without one |
| Dispatch.FromLocked | src/OS.cpp:166-199 | a program entered locked stays locked at every point, and every object it uses ends up saving the locked state |
| Dispatch.LockedThroughoutScope | src/OS.cpp:166-199 | the kernel is locked at every point inside a scope, from any state |
| Dispatch.RestoredExactly | src/OS.cpp:166-199 | from an unlocked kernel the lock is given back if and only if no outermost scope's object is locked again inside its body |
| Dispatch.DistinctChainsRestore | src/OS.cpp:166-199 | with distinct objects on every chain of enclosing scopes the initial state is restored, whatever it was |
| Dispatch.LockedExactlyInside | src/OS.cpp:166-199 | where the lock is always given back, code finds the kernel locked exactly if it is inside a scope |
| Dispatch.Program.Execute | src/OS.cpp:162-199 | running a program of scopes on the objects never throws and ends in the state, and with the observations, that the theorems speak of |

## Left out

- CvProperties.RegistrationOrder: registration order is the order in which the semaphores are built; it is the order of insertion because all waits on one condition variable use one mutex `u`, as the standard requires of callers.
- Semaphore.Semaphore.Release: counts in unbounded integers; on a target with a 32-bit ptrdiff_t a negative argument can wrap before the semaphore is full.
- PredicateWait.WaitUntilPred: clock arithmetic does not overflow.
- PredicateWait.Wait: the rounds of a run are finitely many; a loop that has not returned by then is open.
- Sleep.Kernel.SleepUntil: assumes that the 32-bit tick counter does not wrap during the sleep, as the clocks do; what `osDelay(0)` returns is a parameter.
- MessageQueue.UniquePtrQueue.Clear: nobody else puts or gets during the drain; a put that is blocked then goes on afterwards.
- MessageQueue.UniquePtrQueue.Get: an untimed get that blocks takes place later in the run.
- The RTOS kernel: scheduling, priorities, message order and memory are parameters or atomic contracts.
- Condition variables used with several caller's mutexes at a time, and destruction of a condition variable in use.
- Mutex wrappers beyond acquire-when-free and release-by-owner; event flags, thread flags, timers, memory pools.
- Moving message queue handles, and the two `get` overloads at include/MessageQueue.h:191-196 and 267-272, which cannot be instantiated.
- Message queues of plain values and raw pointers, which have no ownership to account for.
- `to_time_t`, `from_time_t`, `_gettimeofday`, identifiers, hashing, printing and error texts: plain conversions without a property of their own.
- Running a detached thread after its `thread` object is gone: the destructor at src/Thread.cpp:70 terminates it, unlike the standard's `thread`, and the model follows the code.
