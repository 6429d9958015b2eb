# A verified model of the debugger's control core

This project models, in Dafny 4.11, the part of the Mono debugger that decides which thread runs,
which event goes where and who may wait for the debuggee, together with the self-contained
algorithms around it, and proves what every run of it keeps.

| file | what it models |
|---|---|
| `TargetEvents.dfy`, `Sequences.dfy` | the events of a debuggee thread; one fact about sequences |
| `ThreadLocks.dfy`, `ThreadLockProofs.dfy` | the global thread lock: one thread steps over a breakpoint while all others are stopped; events caught meanwhile are kept and replayed |
| `ThreadLockEffects.dfy` | what each step of the lock does to each thread, by event, marks and command |
| `ThreadMail.dfy`, `ThreadMailProofs.dfy` | the same as one thread sees it: a machine of its own that moves its events between kernel, lock record, pending table and engine |
| `LockedProcess.dfy` | the same as the process performs it, loops over its thread table that change one engine after the other |
| `ProcessOperation.dfy`, `OperationHost.dfy` | the process operation: a command result shared by many threads, completed by the first one that stops, which suspends the others and so re-enters the result |
| `ProcessEffects.dfy` | what starting, completing and stopping does to every thread, by flags and threading model |
| `SteppingEngine.dfy`, `SteppingEngineProofs.dfy` | one engine: the chain of operations an event is routed through, the runtime-invoke and nested-break stacks, the temporary breakpoint |
| `RoutingEffects.dfy` | which operation answers which event, when the engine stops, and what its acts leave |
| `OperationChain.dfy` | the chain as linked objects, each with a reference to its child |
| `Handshake.dfy` | the wait thread, the engine thread and a client: a manual-reset event, an auto-reset event, a monitor, two slots |
| `EarlyStop.dfy` | the kernel race in which a new thread's first stop overtakes its clone event |
| `PendingBreakpoints.dfy` | sorting out pending breakpoint requests, and the operation that carries out the queued ones |
| `Backtraces.dfy`, `BacktraceEffects.dfy` | unwinding over ordinary frames, callbacks and the LMF list; which frames a round and a whole backtrace find |
| `SymbolLookup.dfy`, `SourceStep.dfy` | finding the method at an address, and the step loop that relies on it |
| `BinaryAccess.dfy`, `Leb128.dfy` | fixed-width and LEB128 numbers in a buffer |
| `ParameterBlob.dfy` | packing the arguments of a method call, and the pointers the callee gets |

## How the model is built

Code that only computes is a function. Code that changes objects step by step is a class whose
methods are proved equal to a function of the old state; the properties of all runs are then proved
about those functions. Code that runs in two threads is a transition system with one step per access
to shared data, and a run is any interleaving.

The native server is an environment: a stopped thread reports nothing until it is resumed, stopping
a running thread yields one event, stopping a thread that is already stopped and whose event was
collected returns false without an event (`backend/Inferior.cs:1198-1220`), server calls do not fail,
and a client command is atomic with its `StartOperation`. What the kernel, the symbol tables, the
unwinder or the code of a particular operation answers is a parameter; every result holds for all
answers.

History that the program does not keep (which events were delivered, how often a host was called,
which operations saw an event, which threads are tainted) is recorded in extra fields that no decision
reads.

## What turned out to be false, and when it is true

* A lock round does not always restore `engine_stopped`. If a thread's event is parked when the lock
  is taken again, the thread stays marked as stopped (`LockRoundTrip` gives the exact condition), and
  a later lock can then disable a breakpoint while that thread runs through it
  (`RunningThreadCanEscapeTheLock`). The threads that the engine takes to be running when it takes the
  lock are stopped in every run; a thread that really runs is stopped in every run unless it was
  itself locked with a parked event, or suspended with an event on its way, before; such a thread is
  called tainted (`RunningThreadsStayStopped`). Conservation of events and of register sets holds in every run.
* The order of events can be lost, and the duplicate cases of `SetStopEvent` and `AddPendingEvent` can
  be met (`DuplicateIsReachable`). The step that upsets the order is exactly a command that starts a
  thread whose own event is still parked, which takes a held lock because the table is drained after
  every event and command (`OrderIsKeptUnlessStartedParked`); without such a step every run keeps the
  order and meets no duplicate.
* Suspending all threads does not always stop them, and a stopped process can have a running thread. A
  tainted thread can run with its operation although it is marked as stopped, with the lock free and
  nothing parked or on its way, and a suspension then passes it over
  (`SuspensionCanMissARunningThread`, `StoppedProcessMayHaveRunningThread`). After a suspension that
  raises nothing an affected thread runs if and only if it was marked as stopped and ran before, and
  has an operation if and only if it was marked as stopped and had one (`AllOthersAreSuspended`,
  `ThreadsOfStoppedProcess`); in every run an untainted thread is marked as stopped and does not run
  (`UntaintedIsStoppedBySuspension`). The loop ends normally if and only if no affected thread is
  locked or has exited: an exit changes the table that is being enumerated.
* Suspending a thread does not always keep it stopped either. After the next drain an orderly thread
  runs if and only if it ran although it was marked as stopped, or an event that sets it running was
  parked for it (`SuspendedRunsIffMarkedOrResumed`). A thread that is stopped with nothing on its way,
  which `SuspendMakesStill` says exactly when a suspension achieves, stays stopped until a command
  starts or resumes it (`StillUntilCommanded`).
* The exit of a thread other than the main thread that has StopOnExit uses up the shared command
  result without stopping the process (`CompletionStopsTheProcess`).
* A second process can break the handshake: its request raises the InternalError of `RequestWait`
  if and only if the wait thread is waiting, changes nothing if the wait event is set, and otherwise
  makes a second permit (`LaterCreation`). The handshake is safe in every run in which each later
  creation finds the wait event set; both kinds of run exist (`SecondCreationMayFail`,
  `SecondCreationMayBeHarmless`).
* Handling a clone event after a command, while the wait thread may wait, can leave the engine thread
  waiting for ever for a stop that the wait thread took, or make it give the new thread up because the
  wait thread is inside waitpid with the wait mutex; `DangerAtHandle` says exactly when, in terms of
  the state in which the handling starts.
* An insertion that raised an exception is dropped in the next round as if it had been carried out,
  because resolving a breakpoint already counts as activating it (`RetriedUnlessResolved`); a
  breakpoint removed by a round keeps its handle and is never inserted again by a later one
  (`RemovedBreakpointsStayActivated`, `ActivatedForEver`). The test of the module in the first loop
  (`classes/DebuggerSession.cs:720-722`) has no effect.
* A line step can complete inside the line it started in, but only after it has left it for an
  epilogue, which replaces its frame (`CompletesInsideOnlyAfterEpilogue`, `MayCompleteInsideItsLine`);
  where exactly it completes is `CompletesAtFirstLeaving`. Its loop goes round for ever exactly when a
  line table records a null end (`EndlessExactlyForNullEnd`).
* A null argument arrives in the callee as a pointer to the start of the block, not as null
  (`PointersMeanTheObjects`).
* `doc/README.threading-model` says that the stop event is sent after the threads were suspended; the
  code sends it first, and the model follows the code.

## Model

| member | source | states |
|---|---|---|
| `ThreadLockProofs.StepOverIsCovered` | backend/SingleSteppingEngine.cs:3240-3295 | over every run: a breakpoint taken out for a step-over is covered by the held lock, is back before any release, and every thread the engine took to be running when the lock was taken does not execute until release |
| `ThreadLockEffects.CommandStartsThread` | backend/SingleSteppingEngine.cs:763-806 | for every state: a command is refused unless the thread is marked as stopped without a record and, at a breakpoint, the lock can be taken; then the thread is set going, and at a breakpoint the lock is held, the breakpoint disabled and every other thread held and marked, otherwise nothing else changes |
| `ThreadLockEffects.StartEffect` | backend/SingleSteppingEngine.cs:3240-3255 | the same of the start itself, from whatever state it succeeds |
| `ThreadLockEffects.ResumeEffect` | backend/SingleSteppingEngine.cs:1792-1818 | a kept event goes back to the pending table, a thread not marked is left alone, any other is started as by a command, with the lock at a breakpoint |
| `ThreadLockEffects.DispatchEffect` | backend/SingleSteppingEngine.cs:175-333 | a collected event: an exit removes the thread whatever its locks say, a locked thread only remembers, otherwise it is delivered, ends a step over a breakpoint it reaches (breakpoint back, lock free, every record given up), and the reaction decides how the thread goes on |
| `ThreadLockEffects.DrainOfPlainStop` | backend/SingleSteppingEngine.cs:1732-1745 | replaying a plain stop only lets the operation go on, if there is one and it does not end |
| `ThreadLockEffects.DrainOfInterrupt` | backend/SingleSteppingEngine.cs:1747-1750 | replaying an interrupt sets the thread running and does nothing else |
| `ThreadLockEffects.DrainOfOtherEvent` | backend/SingleSteppingEngine.cs:1732-1755 | any other parked event is processed as if it had just been collected |
| `ThreadLockEffects.SuspendEffect` | backend/SingleSteppingEngine.cs:308-328 | which events a suspension delivers, which three kinds it keeps in a record, and which remove the thread |
| `ThreadLockProofs.RunningThreadsStayStopped` | classes/Process.cs:773-806 | in every run, each thread that really ran when the lock was taken is stopped or gone while the lock is held, whatever events, drains, starts, resumes and suspensions came in between, unless that very thread was locked with a parked event or suspended with an event on its way before |
| `ThreadMailProofs.EventsAreConserved` | backend/SingleSteppingEngine.cs:1672-1755 | in every run, each event a thread reported was delivered exactly once and is nowhere else, or was not delivered and is in exactly one of kernel, lock record and pending table; nothing else was delivered or is kept |
| `ThreadMailProofs.RegistersAreBalanced` | backend/SingleSteppingEngine.cs:2668-2673 | in every run, the registers of a live thread are saved exactly while its lock record says so |
| `ThreadMailProofs.OrderIsKeptUnlessStartedParked` | backend/ThreadManager.cs:393-421 | a step keeps every thread's events in order with at most one outstanding if and only if it does not start a thread whose own event is parked |
| `ThreadMailProofs.EventsComeInOrder` | backend/SingleSteppingEngine.cs:1672-1755 | in every run without such a step the events are delivered in order, at most one is outstanding, and delivered plus outstanding is all that was reported |
| `ThreadMailProofs.DuplicatesAreUnreachable` | backend/ThreadManager.cs:283-287 | no run without such a step ends in the duplicate cases of `SetStopEvent` and `AddPendingEvent`, whatever was locked, suspended or resumed in it |
| `ThreadLockProofs.DuplicateIsReachable` | backend/SingleSteppingEngine.cs:1711-1730 | a run with such a step that does end there |
| `ThreadMail.Projection` | backend/SingleSteppingEngine.cs:175-333 | to each thread every step of the process is a few moves of its own machine, and a start only if the step is a command to it |
| `ThreadLockProofs.RunsAreExact` | backend/SingleSteppingEngine.cs:1672-1790 | in every run the marks of an untainted thread (engine flag, record, registers, where its event is) are exact |
| `ThreadLockProofs.AcquireKeepsThreadExact` | backend/SingleSteppingEngine.cs:1672-1709 | a lock keeps the marks of a thread exact if and only if the thread is marked as stopped or has no event parked |
| `ThreadLockProofs.SuspendKeepsThreadExact` | backend/SingleSteppingEngine.cs:1757-1790 | a suspension keeps them exact if and only if no event of the thread is on its way |
| `ThreadLockProofs.LockedThreadsAreNotServed` | backend/ThreadManager.cs:393-421 | while the process holds the lock no step delivers an event of a held thread or takes a parked event, unless the thread has exited |
| `ThreadLockProofs.LockRoundTrip` | backend/SingleSteppingEngine.cs:1672-1730 | acquire, late event, release on any live thread with its events in order and its registers balanced gives everything back but the mail; `engine_stopped` comes back if and only if it was set already or the native thread was not yet stopped |
| `ThreadLockProofs.GlobalLockRoundTrip` | classes/Process.cs:768-806 | a lock round of the whole process from any orderly state: the release cannot fail, the lock is free, the caller is untouched, and every other live thread with balanced registers is back under the same condition |
| `ThreadLockProofs.RunningThreadCanEscapeTheLock` | backend/SingleSteppingEngine.cs:1711-1730 | a concrete run in which a breakpoint is out, the lock is held, and another thread that was running still runs |
| `ThreadLockProofs.SuspensionCanMissARunningThread` | backend/SingleSteppingEngine.cs:1757-1790 | a run after which a suspension raises nothing and the thread still runs with its operation, the lock free and nothing parked or on its way |
| `ThreadLockProofs.UntaintedIsStoppedBySuspension` | backend/SingleSteppingEngine.cs:1757-1790 | in every run a suspension that raises nothing leaves an untainted thread marked as stopped and not running |
| `ThreadLockProofs.SuspendedRunsIffMarkedOrResumed` | backend/SingleSteppingEngine.cs:1732-1790 | after suspension and drain an orderly thread runs if and only if it ran although marked as stopped, or an event that sets it running was parked for it |
| `ThreadLockProofs.SuspendMakesStill` | backend/SingleSteppingEngine.cs:1757-1790 | a suspension leaves a thread stopped with nothing to replay if and only if nothing was parked and it was marked and stopped, or not marked and without a collected event |
| `ThreadLockProofs.StillUntilCommanded` | backend/SingleSteppingEngine.cs:1757-1818 | such a thread stays stopped through every run in which no command starts or resumes it |
| `ThreadLockProofs.ApplyKeepsCovered` | backend/SingleSteppingEngine.cs:175-224 | every single step (kernel, dispatch, drain, start, resume, suspend) keeps the lock coverage |
| `ThreadLockProofs.ApplyKeepsExact` | backend/SingleSteppingEngine.cs:175-224 | every single step keeps the marks of all untainted threads exact |
| `LockedProcess.Process.AcquireThreadLock` | backend/SingleSteppingEngine.cs:1672-1709 | refuses a second lock; otherwise changes only this thread, as the lock function says |
| `LockedProcess.Process.ReleaseThreadLock` | backend/SingleSteppingEngine.cs:1711-1730 | fails exactly when the pending table has an entry for the thread; otherwise changes only this thread |
| `LockedProcess.Process.AcquireGlobalThreadLock` | classes/Process.cs:773-790 | the loop locks exactly the other live threads, each as if alone, or fails as the specification does |
| `LockedProcess.Process.ReleaseGlobalThreadLock` | classes/Process.cs:792-806 | the loop releases exactly the other live threads and then gives up the lock; it does not touch the disabled breakpoint |
| `LockedProcess.Process.StepOverBreakpoint` | backend/SingleSteppingEngine.cs:3240-3255 | lock, disable, step: the new state is the specified one |
| `LockedProcess.Process.EndStepOver` | backend/SingleSteppingEngine.cs:3257-3280 | the breakpoint is enabled before the threads are released, even if the release fails |
| `ProcessOperation.CompletedAtMostOnce` | classes/Operation.cs:85-100 | over every run, for any number and order of completions including re-entry through suspension: each result completes its host at most once and announces at most one event beyond the exits of threads without StopOnExit; a running process has an operation and an unset stop event, any other has no operation |
| `ProcessOperation.AllOthersAreSuspended` | classes/Process.cs:860-881 | for every thread table: the loop ends normally if and only if no affected thread is locked or has exited; then each affected thread is marked as stopped, runs if and only if it was so marked and ran, has an operation if and only if it was so marked and had one, its event is delivered or in its record, and every other thread is untouched |
| `ProcessOperation.ThreadsOfStoppedProcess` | classes/Process.cs:835-858 | the same of every affected thread when a completion has stopped the process |
| `ProcessOperation.StoppedProcessMayHaveRunningThread` | classes/Process.cs:835-858 | a completion stops the process and leaves running every affected thread that ran although marked as stopped |
| `ProcessOperation.SuspendLoopEnds` | classes/Process.cs:860-881 | the same condition from any position of the loop |
| `ProcessOperation.SuspendLoop` | classes/Process.cs:860-881 | the effect of the rest of the loop on one thread is the effect of suspending it alone |
| `ProcessOperation.CompletionStopsTheProcess` | classes/Process.cs:835-858 | the first completion stops the process if and only if it is not an exit of a thread without StopOnExit or other than the main thread; when the result is used up without a stop |
| `ProcessOperation.RunKeepsGood` | classes/Process.cs:835-955 | the state machine of the process and the books of all command results are kept by every run |
| `ProcessOperation.ApplyKeepsGood` | classes/Process.cs:835-955 | every start, completion and stop keeps the state machine of the process |
| `ProcessOperation.StartKeepsGood` | classes/Process.cs:913-938 | starting an operation and resuming the threads keeps it |
| `ProcessEffects.ProcessOperationStarts` | classes/Process.cs:913-938 | a process operation: fresh result, running state, stop event unset; every thread that is neither caller nor spared nor exempt from running is resumed, those that take a result take the new one; the caller runs with it; everybody else is unchanged |
| `ProcessEffects.SingleOperationStarts` | classes/Process.cs:918-927 | a single-thread operation: the caller gets a result of its own; others are resumed only if the model says so, each with its own result |
| `ProcessEffects.StartIsRefused` | classes/Process.cs:913-929 | refused on a process that is not stopped, and in any other mode |
| `ProcessEffects.ResumeLoop` | classes/Process.cs:883-911 | the loop resumes exactly the resumable threads by flags and model, each as if alone |
| `ProcessEffects.ResumeOneEffect` | backend/SingleSteppingEngine.cs:1792-1818 | a kept event is parked again, a running thread let be, a stopped one runs, busy and unmarked, with the given result; no other thread changes |
| `ProcessEffects.SuspensionByFlags` | classes/Process.cs:860-881 | suspend-all by flags: the caller, gone threads, daemons and immutable threads that the model spares are untouched, all others suspended |
| `ProcessEffects.CompletionEffect` | classes/Operation.cs:85-100 | the completing thread is marked and idle; the first completion announces its event once and completes the result; a later one, or the exit of a thread without StopOnExit, leaves it as it is |
| `ProcessEffects.StopEffect` | classes/Process.cs:978-994 | which threads a stop suspends, when it ends normally, and the process afterwards |
| `OperationHost.Process.EngineCompleted` | backend/SingleSteppingEngine.cs:626-656 | the engine's completion, through result, host and loop, computes the specified process |
| `OperationHost.Process.Completed` | classes/Operation.cs:85-100 | testing and setting the flag before calling the host gives the specified result under re-entry |
| `OperationHost.Process.OperationCompleted` | classes/Process.cs:835-858 | ignored while stopping, error when not running, otherwise all threads suspended and the process stopped |
| `OperationHost.Process.SuspendUserThreads` | classes/Process.cs:860-881 | the loop with its re-entrant completions equals the specification |
| `OperationHost.Process.SuspendUserThread` | backend/SingleSteppingEngine.cs:1757-1790 | stop, complete again, keep the event if it was handed back |
| `OperationHost.Process.OperationInterrupted` | backend/SingleSteppingEngine.cs:575-601 | a completion while stopping ends the thread's operation and completes its result at most once, and leaves the process alone |
| `OperationHost.Process.ResumeUserThread` | backend/SingleSteppingEngine.cs:1792-1818 | a kept event goes to the pending table, a running thread is left alone, a stopped one starts |
| `OperationHost.Process.ResumeUserThreads` | classes/Process.cs:883-911 | the loop equals the specification, with a result of its own for each thread outside a process operation |
| `OperationHost.Process.StartOperation` | classes/Process.cs:913-938 | the two threading modes, the refusals, and the state of the process before threads are resumed |
| `OperationHost.Process.Stop` | classes/Process.cs:978-994 | all threads suspended, then stopped without operation |
| `SteppingEngineProofs.RoutingIsAScan` | backend/SingleSteppingEngine.cs:2766-2814 | for every chain, event and behaviour of the operations, the recursive routing equals: the first interception from the root, or else a scan from the last operation upwards |
| `SteppingEngineProofs.ScanVisitsASuffix` | backend/SingleSteppingEngine.cs:2750-2814 | `DoProcessEvent` runs on a contiguous suffix, last first, each once, up to the first operation that does not hand on; what survives is that prefix and operations newly pushed below it |
| `RoutingEffects.EventGoesToLastFirst` | backend/SingleSteppingEngine.cs:2766-2814 | an event nobody takes an interest in beforehand, such as a plain stop, goes to the last operation first and on from there to the first that does not hand it on |
| `RoutingEffects.SignalIsAnsweredAtRoot` | backend/SingleSteppingEngine.cs:2766-2779 | a stop by a signal is answered at the root with nothing visited or changed: suspended if it is an invocation, completed otherwise |
| `RoutingEffects.InterruptResumesFirst` | backend/SingleSteppingEngine.cs:2769-2773 | an interrupt is offered from the root down; the first operation that can resume does, and nobody else sees it |
| `RoutingEffects.CallbackGoesToItsOwner` | backend/SingleSteppingEngine.cs:5120-5136 | a callback goes to the invocation that waits for it, and nobody else sees it |
| `RoutingEffects.HeldBackEventIsSeenByNobody` | backend/SingleSteppingEngine.cs:3282-3294 | a step over a breakpoint whose own thread got locked keeps the event from everybody |
| `RoutingEffects.EngineStopsExactly` | backend/SingleSteppingEngine.cs:493-561 | the engine stops, with no operation, temporary breakpoint or stop request, if and only if the result says that the operation is over and no other is wanted first; it enters a nested break state if and only if it then suspends |
| `RoutingEffects.ConcludeEffect` | backend/SingleSteppingEngine.cs:2816-2895 | ending the root, suspending it, or going on with another operation while the wish to suspend is remembered |
| `RoutingEffects.RequestedStopEndsOperation` | backend/SingleSteppingEngine.cs:309-328 | an engine asked to stop stops at the next event, unseen by the operations |
| `RoutingEffects.FatalEventsEndOperation` | backend/SingleSteppingEngine.cs:192-199 | an interrupt, an internal error and an exit end the operation; after an exit no breakpoint is removed |
| `RoutingEffects.SwallowedEventEndsNothing` | backend/SingleSteppingEngine.cs:233-250 | an event dealt with elsewhere is not shown to the operations and ends none |
| `RoutingEffects.RequestIsRemembered` | backend/SingleSteppingEngine.cs:1770-1773 | a stop request changes nothing but the flag |
| `RoutingEffects.OrdinaryEventIsRouted` | backend/SingleSteppingEngine.cs:435-490 | any other event goes to the operations, after the temporary breakpoint it hit was removed |
| `RoutingEffects.CommandBeginsOperation` | backend/SingleSteppingEngine.cs:763-820 | a command on a stopped engine makes its operation the root, an invocation also the innermost of the stack with a helper below; a running engine refuses it |
| `RoutingEffects.ActEffect` | backend/SingleSteppingEngine.cs:1423-1447 | a temporary breakpoint is inserted only where there is none, removed if there, and an operation is appended at the end |
| `RoutingEffects.InvocationEnds` | backend/SingleSteppingEngine.cs:281-307 | the end of an invocation is accepted if and only if it is the innermost, which leaves the stacks |
| `RoutingEffects.InvocationIsUnwound` | backend/SingleSteppingEngine.cs:603-619 | the same for an invocation that a return command unwinds, without ending the operation |
| `SteppingEngineProofs.NestedBreaksFollowInvocations` | backend/SingleSteppingEngine.cs:281-307 | over every run the nested-break stack is the runtime-invoke stack filtered to suspended invocations, enter minus leave is its depth, and no run ends in the unexpected-item error, the pop of an empty nested-break stack, the failing cast or an event without operation |
| `SteppingEngineProofs.TemporaryBreakpointsAreTidied` | backend/SingleSteppingEngine.cs:1423-1447 | over every run at most one temporary breakpoint is live, none without a current operation, and each inserted one is live or was removed exactly once as long as the thread lives |
| `SteppingEngineProofs.RunKeepsInv` | backend/SingleSteppingEngine.cs:175-333 | the invariant behind the two, over every run; the only exceptions left are a command to an engine that runs, the end of an invocation that is not the innermost or when none is under way, a second temporary breakpoint and results the engine does not expect |
| `SteppingEngineProofs.ProcessKeepsWorking` | backend/SingleSteppingEngine.cs:2766-2814 | routing an event keeps the invariant whatever the operations do |
| `SteppingEngineProofs.ConcludeKeepsInv` | backend/SingleSteppingEngine.cs:2816-2895 | completing the root, with or without suspension or another operation, keeps it |
| `OperationChain.Engine.ProcessEvent` | backend/SingleSteppingEngine.cs:2766-2814 | on linked objects: the chain of references stays well formed and result, state and exceptions are the specified ones |
| `OperationChain.Engine.AskChild` | backend/SingleSteppingEngine.cs:2782-2813 | the branch with a child: the event goes down, the result comes back, and the chain up to the operation is untouched |
| `OperationChain.Engine.AfterChild` | backend/SingleSteppingEngine.cs:2785-2813 | what a parent does with its child's result, including dropping the child |
| `OperationChain.Engine.PushOperation` | backend/SingleSteppingEngine.cs:2750-2756 | walking the references appends the operation at the end and nowhere else |
| `OperationChain.Engine.InsertTemporaryBreakpoint` | backend/SingleSteppingEngine.cs:1423-1436 | refuses a second temporary breakpoint |
| `OperationChain.Engine.RemoveTemporaryBreakpoint` | backend/SingleSteppingEngine.cs:1438-1447 | removes the one that is there, if any |
| `Handshake.HandshakeIsSafe` | backend/ThreadManager.cs:298-391 | in every interleaving in which each creation after the first finds the wait event set: no InternalError, no published event overwritten, at most one wait permit and exactly one from the first request until a wait fails, events processed in order |
| `Handshake.CommandsRunOnce` | backend/ThreadManager.cs:233-255 | in every interleaving, with any creations: no command runs twice; a client that returns, or may return, has had its own command run exactly once |
| `Handshake.NoLostWakeUp` | backend/ThreadManager.cs:604-621 | in every interleaving, what a publisher left in a slot has roused the engine thread |
| `Handshake.GateIsNeverForgotten` | backend/ThreadManager.cs:344-391 | in every interleaving the gate is closed only while an event or a command is on its way through somebody bound to open it |
| `Handshake.ClientIsNeverStranded` | backend/ThreadManager.cs:233-255 | in every tame interleaving a client that waits for its command can return or somebody else can go on |
| `Handshake.TimedOutCommandNeverRuns` | backend/ThreadManager.cs:238-239 | a client that does not get through the gate in time is free again, and its command never runs |
| `Handshake.EventMakesTheRound` | backend/ThreadManager.cs:604-630 | an event found while nothing else is under way is published, processed once, and leaves gate open, engine thread asleep and wait thread free to wait |
| `Handshake.FailedWaitIsTheLast` | backend/ThreadManager.cs:514-515 | after a failed wait nobody may wait any more |
| `Handshake.SecondCreationMayFail` | backend/ThreadManager.cs:623-629 | an interleaving with two creations that raises the error of `RequestWait` |
| `Handshake.LaterCreation` | backend/ThreadManager.cs:370-391 | at the request for a later process: error if and only if the wait thread is waiting, no change if the wait event is set, a second permit otherwise; harmless if and only if the wait event is set |
| `Handshake.SecondCreationMayBeHarmless` | backend/ThreadManager.cs:370-391 | an interleaving with two creations that meets the condition |
| `Handshake.RunKeepsInv` | backend/ThreadManager.cs:298-391 | every such interleaving keeps the invariant: who owns the monitor, where the permit, the event and the command are |
| `Handshake.RunKeepsBooks` | backend/ThreadManager.cs:298-391 | the part about monitor, events and commands is kept by every interleaving |
| `EarlyStop.InitialStopsAreReapedOnce` | backend/ThreadManager.cs:564-602 | for any number of new threads and any interleaving: no initial stop is delivered as an ordinary event, each is reaped at most once and exactly once if its thread is known, and the table holds exactly the early stops of clones unhandled, handled too early to see them, or given up |
| `EarlyStop.EngineNeverWaitsInVain` | backend/Inferior.cs:675-690 | where clone events are handled as part of event processing, no thread is given up, the wait in `InitializeThread` always finds its stop, and the table is exactly the early stops of unhandled clones |
| `EarlyStop.HandlingMakesThreadKnown` | backend/ThreadManager.cs:150-157 | handled as part of event processing, a clone event makes its thread known, its stop reaped by the wait thread if early and by the engine thread otherwise, and leaves nothing behind |
| `EarlyStop.PublishingCostsThePermit` | backend/ThreadManager.cs:604-621 | an event the wait thread publishes costs it its permit, a stop it sets aside does not |
| `EarlyStop.DangerAtHandle` | sysdeps/server/x86-linux-ptrace.c:297-351 | when handling starts: some continuation waits for ever if and only if the stop is in the wait thread's hand, or unreaped while the wait thread may wait; some continuation gives the thread up if and only if the wait thread may wait and the stop was not set aside |
| `EarlyStop.StuckForEver` | sysdeps/server/x86-linux-ptrace.c:326-326 | a wait in vain never ends |
| `EarlyStop.DrainAfterCommandMayWaitInVain` | backend/ThreadManager.cs:357-369 | a run in which a parked clone event is handled while the wait thread may wait, and both can happen |
| `EarlyStop.RunKeepsInv` | backend/ThreadManager.cs:150-157 | every interleaving of kernel, wait thread and engine thread keeps each stop and each clone event in one place |
| `PendingBreakpoints.EachRequestHasOneFate` | classes/DebuggerSession.cs:694-788 | for every table and environment each request is applied once, queued once, still pending or dropped as a no-op, exactly one of these |
| `PendingBreakpoints.WhatARoundDoes` | classes/DebuggerSession.cs:710-777 | by handle and environment: no change asked, dropped; direct handle, applied at once if that works; function handle, queued; no handle or a failure, still pending; and which breakpoints have a handle afterwards |
| `PendingBreakpoints.MainMakesBreakpointsPending` | classes/DebuggerSession.cs:700-708 | when main is reached every breakpoint asks to be inserted, and nothing else changes |
| `PendingBreakpoints.InsertionsComeFirst` | classes/DebuggerSession.cs:780-787 | no removal precedes an insertion in the queue, and only function handles are queued |
| `PendingBreakpoints.RoundMeaning` | classes/DebuggerSession.cs:710-777 | the two loops, with handles appearing as they go, do to each request what its fate at the start says |
| `PendingBreakpoints.RetriedUnlessResolved` | classes/DebuggerSession.cs:738-777 | a request left pending is looked at in the next round unless it is an insertion whose direct handle raised an exception |
| `PendingBreakpoints.RemovedBreakpointsStayActivated` | classes/SourceBreakpoint.cs:54-65 | after a round that applied or queued a request its breakpoint counts as activated, and an insertion request is a no-op in every later round |
| `PendingBreakpoints.ActivatedForEver` | classes/DebuggerSession.cs:710-777 | over any number of rounds with any environments a breakpoint keeps its handle, so every later insertion request is dropped |
| `PendingBreakpoints.Session.AddEvent` | classes/DebuggerSession.cs:605-620 | a breakpoint: succeeds if and only if the index is free and the breakpoint is not pending after main; the events change even when the table refuses |
| `PendingBreakpoints.Session.AddCatchPoint` | classes/DebuggerSession.cs:605-613 | a catch point: succeeds if and only if both tables are free; its own table is filled first and stays filled on failure |
| `PendingBreakpoints.Session.RemoveEvent` | classes/DebuggerSession.cs:657-675 | a breakpoint is disabled at once; afterwards its removal is pending once main was reached, and nothing before |
| `PendingBreakpoints.Session.RemoveCatchPoint` | classes/DebuggerSession.cs:657-665 | a catch point leaves both tables |
| `PendingBreakpoints.Session.ActivateOrDeactivateEventAsync` | classes/DebuggerSession.cs:632-650 | accepted if and only if it asks for a change; then it replaces the pending request |
| `PendingBreakpoints.Session.ReachMain` | classes/DebuggerSession.cs:680-688 | all breakpoints of the session become pending insertions, or it fails because one is pending already |
| `PendingBreakpoints.Session.DropNoOps` | classes/DebuggerSession.cs:710-723 | exactly the no-ops leave the table; user-module flags and the module make no difference |
| `PendingBreakpoints.Session.SortOut` | classes/DebuggerSession.cs:738-777 | the loop computes the specified table, handles, direct actions and two lists |
| `PendingBreakpoints.Session.SortRequests` | classes/DebuggerSession.cs:710-788 | null if and only if every request is a no-op; otherwise the queue; the table and handles by fate |
| `PendingBreakpoints.Session.GetPendingBreakpoints` | classes/DebuggerSession.cs:694-788 | the whole call, including its failure when main is reached with a breakpoint already pending |
| `PendingBreakpoints.Session.HasPendingBreakpoints` | classes/DebuggerSession.cs:677-692 | true if and only if something is pending after main was accounted for |
| `PendingBreakpoints.ActivatePendingBreakpoints` | backend/SingleSteppingEngine.cs:1830-1838 | fails exactly when main is reached with a breakpoint already pending; an operation is pushed if and only if something is queued, and it holds exactly the queue; table, handles and direct actions of the session afterwards |
| `PendingBreakpoints.ActivateBreakpoints.DoProcessEvent` | backend/SingleSteppingEngine.cs:3039-3062 | starts the next call, or resumes once when the queue is empty, or passes the event on afterwards; nothing queued is lost |
| `PendingBreakpoints.ActivateBreakpoints.Drain` | backend/SingleSteppingEngine.cs:3019-3087 | when every call completes, every queued request is performed once and in order, with one event each, and the parent is resumed once |
| `Backtraces.BacktraceIsSound` | classes/Backtrace.cs:66-101 | for every unwinder: levels are positions; every frame after the first is a callback, or lies strictly above its predecessor and below `until` and fits the mode, comes from the LMF list or follows a callback; a frame limit is exceeded by two at most |
| `Backtraces.BacktraceAscends` | classes/Backtrace.cs:155-207 | where callback frames are not below the frame they follow, stack pointers never descend over the whole backtrace |
| `BacktraceEffects.BacktraceIsTheChain` | classes/Backtrace.cs:66-81 | for every chain of frames that ordinary unwinding produces, to the end of the stack or up to the limit, the backtrace is that chain, cut at the limit, less an unwanted last frame |
| `BacktraceEffects.OrdinaryFrame` | classes/Backtrace.cs:155-192 | an unwound frame without callback that fits the mode is appended if and only if it is above the last one and below the limit |
| `BacktraceEffects.CallbackDetour` | classes/Backtrace.cs:103-138 | at a callback the callback frame is appended, and the frame behind it if and only if it is above that and below the limit |
| `BacktraceEffects.ListFrame` | classes/Backtrace.cs:83-101 | where unwinding offers nothing that fits, the next list frame is appended if and only if there is one above the last and below the limit |
| `BacktraceEffects.OfferedFrame` | classes/Backtrace.cs:103-138 | the same as for an ordinary frame when the callback lookup failed with an exception |
| `BacktraceEffects.RoundEndsExactly` | classes/Backtrace.cs:155-192 | the rounds end if and only if the frame that callback, unwinder or list comes up with is missing or not acceptable |
| `BacktraceEffects.ModesAreNested` | classes/Backtrace.cs:140-153 | which frames fit which mode |
| `BacktraceEffects.LastFrameIsTrimmed` | classes/Backtrace.cs:74-81 | by default a last frame that is not the user's managed code is dropped, unless it is the only one |
| `Backtraces.DescendingCallbacksNeverEnd` | classes/Backtrace.cs:103-138 | without that assumption and without a limit: a stack on which unwinding succeeds any number of times |
| `Backtraces.Backtrace.GetBacktrace` | classes/Backtrace.cs:66-81 | terminates and yields exactly the frames of all rounds, less a wrapper at the end in default mode |
| `Backtraces.Backtrace.TryUnwind` | classes/Backtrace.cs:155-192 | one round: ordinary frame, callback detour or LMF frame, with the two sanity checks |
| `Backtraces.Backtrace.TryCallback` | classes/Backtrace.cs:103-138 | adds the callback frame and goes on behind it; an exception adds nothing |
| `Backtraces.Backtrace.TryLMF` | classes/Backtrace.cs:83-101 | takes the next frame of the list and accepts it only above the last frame |
| `Backtraces.Backtrace.AddFrame` | classes/Backtrace.cs:202-207 | appends with its position as level and makes it the last frame |
| `SymbolLookup.TableLookup` | classes/SymbolTable.cs:166-203 | the answer is the one of the first range containing the address, or the first loaded method containing it, or nothing; a method found is loaded and contains the address |
| `SymbolLookup.MethodLookup` | classes/Method.cs:336-345 | a method answers with itself if and only if it is loaded and contains the address |
| `SymbolLookup.Lookup` | backend/SymbolTableManager.cs:31-43 | the first answer of a loaded symbol file; a method found contains the address |
| `SymbolLookup.FilesAnswerIsUnique` | backend/SymbolTableManager.cs:31-43 | there is only one such answer |
| `SymbolLookup.DisjointMethodsAreFound` | classes/SymbolTable.cs:191-201 | where loaded methods do not overlap, the method at the address is found whatever the order of the list |
| `SourceStep.OperationStep.StepInFrame` | backend/SingleSteppingEngine.cs:3619-3630 | completes if and only if the address is outside the frame and, in a line mode, not in the epilogue of the method found; the loop takes one extra round, and only for an epilogue; and how it goes on otherwise |
| `SourceStep.OperationStep.StepOnce` | backend/SingleSteppingEngine.cs:3593-3708 | all modes: when each completes, what its frame is then, and how the target goes on |
| `SourceStep.OperationStep.CheckMethodOperation` | backend/SingleSteppingEngine.cs:3571-3591 | a new round if and only if a line step stands in an epilogue, which then is the frame |
| `SourceStep.OperationStep.Proceed` | backend/SingleSteppingEngine.cs:3632-3708 | a call that leaves the method is stepped over when finishing or stepping by line; otherwise a trampoline is followed, a method with source or an invoke wrapper is entered, and any other stepped over; everything else is a single step |
| `SourceStep.OperationStep.IsInStepFrame` | backend/SingleSteppingEngine.cs:1215-1224 | true if and only if neither is null and the address lies in the frame |
| `SourceStep.CompletesAtFirstLeaving` | backend/SingleSteppingEngine.cs:3593-3630 | for every sequence of stops and every mode that watches a frame: the step completes at a stop if and only if it is the first one outside the frame in force and, in a line mode, not in an epilogue |
| `SourceStep.CompletesAtFirstOutside` | backend/SingleSteppingEngine.cs:3593-3630 | so a finish step, or a line step that meets no epilogue, completes exactly at the first address outside the frame it started with |
| `SourceStep.LineStepPassesOnlyItsFrame` | backend/SingleSteppingEngine.cs:1215-1224 | for every sequence of stops a line step goes on only in its frame or in an epilogue it came to, and does not complete in an epilogue |
| `SourceStep.CompletesInsideOnlyAfterEpilogue` | backend/SingleSteppingEngine.cs:3571-3591 | it completes inside its original frame only after it left it for an epilogue |
| `SourceStep.MayCompleteInsideItsLine` | backend/SingleSteppingEngine.cs:3571-3591 | a sequence of stops on which that happens: through the method's own epilogue into the same line of a recursive caller |
| `SourceStep.EndlessExactlyForNullEnd` | backend/SingleSteppingEngine.cs:3619-3630 | outside the frame, the loop repeats for ever if and only if the method found records a null end of its lines |
| `BinaryAccess.RoundTrip` | classes/TargetBinaryWriter.cs:27-117 | any mixed sequence of 16-, 32-, 64-bit and address writes reads back in order with equal values (addresses in four bytes modulo 2^32), at the same position, with the rest of the buffer untouched |
| `BinaryAccess.SwappedRoundTrip` | classes/TargetBinaryReader.cs:45-175 | a swapping reader gets a value back if and only if its bytes are a palindrome, because the writer does not swap |
| `BinaryAccess.DecodeEncode` | classes/TargetBinaryWriter.cs:40-76 | the bytes of a number hold it modulo the size of its type |
| `BinaryAccess.EncodeDecode` | classes/TargetBinaryReader.cs:69-140 | and the bytes of the number read are the bytes that were there |
| `BinaryAccess.Writer.PokeInt16` | classes/TargetBinaryWriter.cs:27-31 | two bytes at the position are the number's, all others unchanged |
| `BinaryAccess.Writer.PokeInt32` | classes/TargetBinaryWriter.cs:44-50 | the same for four bytes |
| `BinaryAccess.Writer.PokeInt64` | classes/TargetBinaryWriter.cs:63-72 | the same for eight bytes, written as two halves |
| `BinaryAccess.Writer.PokeAddress` | classes/TargetBinaryWriter.cs:85-91 | eight or four bytes by address size |
| `BinaryAccess.Writer.Write` | classes/TargetBinaryWriter.cs:38-117 | the write forms advance the position by what they wrote |
| `BinaryAccess.Reader.PeekInt16` | classes/TargetBinaryReader.cs:45-53 | the bytes, in either order, as a signed 16-bit number |
| `BinaryAccess.Reader.PeekInt32` | classes/TargetBinaryReader.cs:67-79 | as a signed 32-bit number |
| `BinaryAccess.Reader.PeekUInt32` | classes/TargetBinaryReader.cs:93-105 | as an unsigned 32-bit number |
| `BinaryAccess.Reader.PeekInt64` | classes/TargetBinaryReader.cs:119-143 | two unsigned halves make the signed 64-bit number |
| `BinaryAccess.Reader.Read` | classes/TargetBinaryReader.cs:60-175 | the read forms return what is at the position and pass it |
| `BinaryAccess.OrDisjoint` | classes/TargetBinaryReader.cs:75-79 | bitwise or, defined bit by bit, is addition for operands without common bits |
| `Leb128.PeekLeb128` | classes/TargetBinaryReader.cs:237-253 | with the terminator within five bytes: the base-128 sum wrapped to 32 bits, unchanged if and only if it fits, and the size of the encoding |
| `Leb128.PeekSLeb128` | classes/TargetBinaryReader.cs:269-288 | the true signed value wrapped to 32 bits, unchanged if and only if it fits |
| `Leb128.Read` | classes/TargetBinaryReader.cs:255-296 | the value of the encoding at the position, which is passed |
| `Leb128.ReadsDecodeConcatenation` | classes/TargetBinaryReader.cs:255-296 | successive reads decode any concatenation of encodings of up to five bytes in order, whatever follows |
| `Leb128.EveryIntIsRead` | classes/TargetBinaryReader.cs:263-296 | every 32-bit integer, encoded as section 7.6 of DWARF Version 4 says, takes at most five bytes and is read back |
| `Leb128.SignedRoundTrip` | classes/TargetBinaryReader.cs:269-288 | the signed value of the signed encoding of any integer is that integer |
| `Leb128.UnsignedRoundTrip` | classes/TargetBinaryReader.cs:237-253 | the same for unsigned numbers |
| `ParameterBlob.Pack` | backend/Inferior.cs:469-502 | for every argument list: offsets, addresses, block and size are the specified ones |
| `ParameterBlob.Measure` | backend/Inferior.cs:480-493 | the first loop: offset -1 and the address for addressed objects, 0 for null, the running size for held ones |
| `ParameterBlob.Record` | backend/Inferior.cs:481-492 | one turn of it changes only the entries of its own argument |
| `ParameterBlob.Copy` | backend/Inferior.cs:495-502 | the second loop fills the block exactly and arrives at the measured size |
| `ParameterBlob.HeldObjectsAreAtTheirOffsets` | backend/Inferior.cs:490-502 | each held object's bytes are in the block at its offset |
| `ParameterBlob.EveryByteHasOneOwner` | backend/Inferior.cs:481-502 | every byte of the block belongs to exactly one argument: the ranges are disjoint and cover it |
| `ParameterBlob.PointersMeanTheObjects` | sysdeps/server/x86_64-arch.c:1187-1192 | the pointer the server passes means the object if and only if the object is not null |

## Left out

- The runtime's own lock notifications in `MonoThreadManager`, managed callbacks, and the branch that steals an LMF breakpoint.
- `Kill`, `Detach`, `AbortInvocation`, exec and fork, and threads created inside a lock window.
- `DropGlobalThreadLock` when the last thread exits, and the eventual release of the step-over lock: a signal stop is answered at the root of the chain, so only safety is claimed.
- Exceptions inside `Execute` of an operation; server calls do not fail in the model.
- The global threading mode, `StartGlobalOperation`, `CloneParentOperation`, and the override of `Completed` in `RuntimeInvokeResult`.
- Several concurrent clients of `SendCommand`, a command for an engine whose inferior is gone (it returns without having run), and aborting the two threads.
- The path for systems without thread events, and the timed clearing of the table of early stops.
- The engines of a process are rows of a table rather than heap objects of their own in `LockedProcess` and `OperationHost`; aliasing between engines is not captured.
- `check_pending_events` is one step per entry, in any order; the snapshot of its keys is not modelled. That it has run before a command is modelled per thread.
- What the code of a particular operation does is a parameter of the engine; only the step loop and the activation of breakpoints are modelled themselves. Returning from an invocation that is itself the root of the chain is not.
- The enumeration order of a dictionary is a parameter; messages shown to the user are not modelled.
- Big-endian targets: only what a swapping reader makes of the writer's bytes is stated.
- LEB128 encodings of more than five bytes, where the shift count wraps.
- Indices outside a buffer, which raise an exception of the runtime library, are excluded by preconditions.
- Strings, buffers, single bytes, `OperationReturn`, expression evaluation, the tokenizer and the completer: easy members, or code that depends on types outside this core.
- OperationHost.Process.StartOperation: does not model the global mode, which the debugger starts through `StartGlobalOperation` for several processes at once; in this method that mode is refused, as in the source.
- Backtraces.Backtrace.GetBacktrace: without a limit it requires that callback frames are not below the frame they follow, because on other stacks the source does not end (`DescendingCallbacksNeverEnd`).
- SourceStep.OperationStep.StepInFrame: requires that the method found does not record a null end of its lines, because there the source does not end (`EndlessExactlyForNullEnd`).
- SourceStep.OperationStep.StepOnce: the same requirement.
- ProcessOperation.CompletionStopsTheProcess: assumes that no thread gets in the way of the suspension; `AllOthersAreSuspended` says exactly when one does.
- PendingBreakpoints.ActivateBreakpoints.Drain: assumes that every call into the debuggee completes normally.
