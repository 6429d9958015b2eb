/**
 The operation of a process: one command result shared by many threads, completed by whichever
 thread stops first, which then suspends the others (and so re-enters the same result).
 */
module ProcessOperation {
  import opened TargetEvents
  import TL = ThreadLocks

  datatype Flags = Flags(daemon: bool, immutable: bool, autoRun: bool, stopOnExit: bool)

  datatype Mode = DefaultMode | SingleMode | ProcessMode | GlobalMode

  datatype Model = Model(mode: Mode, resumeThreads: bool, stopDaemons: bool, stopImmutables: bool)

  /** `TargetEventArgs`, as far as the command result looks at it. */
  datatype Args = Exit | OtherEvent

  datatype Host = ThreadHost | ProcessHost

  /**
   `OperationCommandResult`, with two counters: how often its host was told of the completion,
   and how many events it announced other than exits of threads without StopOnExit.
   */
  datatype Result = Result(host: Host, model: Model, completed: bool, hostCalls: nat, announced: nat)

  datatype Engine = Engine(thread: TL.Thread, flags: Flags, result: nat)

  datatype ProcessState = SingleThreaded | Running | Stopping | Stopped

  datatype Process = Process(
    engines: seq<Engine>,
    mainThread: nat,
    state: ProcessState,
    operation: Option<nat>,
    stoppedEvent: bool,
    results: seq<Result>)

  datatype Fault = InternalError | NotStopped | BadArgument | RecursiveLock | TableChanged | DuplicatePendingEvent

  /** What the kernel answers when thread `i` is stopped, and whether the manager swallows it. */
  datatype Reply = Reply(sig: Signal, handled: bool)

  type Replies = nat -> Reply

  ghost predicate WellFormed(p: Process) {
    && (forall i :: 0 <= i < |p.engines| ==> p.engines[i].result < |p.results|)
    && (p.operation.Some? ==> p.operation.value < |p.results|)
  }

  /** The same threads with the same results; only their states may differ. */
  ghost predicate SameShape(p: Process, p': Process) {
    && |p'.engines| == |p.engines| && |p'.results| == |p.results| && p'.mainThread == p.mainThread
    && (forall i :: 0 <= i < |p.engines| ==>
          p'.engines[i].result == p.engines[i].result && p'.engines[i].flags == p.engines[i].flags)
    && (p'.operation.Some? ==> p'.operation == p.operation)
  }

  function SetThread(p: Process, i: nat, t: TL.Thread): Process
    requires i < |p.engines|
  {
    p.(engines := p.engines[i := p.engines[i].(thread := t)])
  }

  // ------------------------------------------------------------ completion

  function Announce(r: Result, args: Option<Args>): Result {
    r.(completed := true, hostCalls := r.hostCalls + 1,
       announced := if args.Some? then r.announced + 1 else r.announced)
  }

  predicate Affected(p: Process, model: Model, caller: Option<nat>, k: nat)
    requires k < |p.engines|
  {
    && !p.engines[k].thread.removed && caller != Some(k)
    && (p.engines[k].flags.immutable ==> model.stopImmutables)
    && (p.engines[k].flags.daemon ==> model.stopDaemons)
  }

  /** The command results after a thread with result `rid` ended its operation without an event. */
  function Recompleted(results: seq<Result>, rid: nat): seq<Result>
    requires rid < |results|
  {
    if results[rid].completed then results else results[rid := Announce(results[rid], None)]
  }

  /**
   `SuspendUserThread`: the thread ends its operation, which completes its command result if that was
   not completed; the process, being about to stop, ignores it. A thread that turns out to have
   exited leaves the table, which ends the loop over the table with an exception.
   */
  function SuspendUserThread(p: Process, k: nat, reply: Reply): Outcome<Process, Fault>
    requires k < |p.engines| && p.engines[k].result < |p.results|
  {
    var t := p.engines[k].thread;
    match TL.SuspendUserThread(t, reply.sig, reply.handled)
    case Throws(_) => Throws(RecursiveLock)
    case Ok(t') =>
      if t.engineStopped then Ok(p)
      else if t'.removed then Throws(TableChanged)
      else Ok(SetThread(p, k, t').(results := Recompleted(p.results, p.engines[k].result)))
  }

  /** The loop of `Process.SuspendUserThreads` from thread `k` on. */
  ghost function SuspendUserThreads(p: Process, model: Model, caller: Option<nat>, k: nat, replies: Replies)
    : (o: Outcome<Process, Fault>)
    requires WellFormed(p) && k <= |p.engines|
    ensures o.Ok? ==> SameShape(p, o.value) && o.value.state == p.state && o.value.stoppedEvent == p.stoppedEvent
    decreases |p.engines| - k
  {
    if k == |p.engines| then Ok(p)
    else
      var p' :- if Affected(p, model, caller, k) then SuspendUserThread(p, k, replies(k)) else Ok(p);
      SuspendUserThreads(p', model, caller, k + 1, replies)
  }

  /** `IOperationHost.OperationCompleted`: a thread does nothing, a process stops all its threads. */
  ghost function HostCompleted(p: Process, host: Host, model: Model, i: nat, args: Option<Args>, replies: Replies)
    : Outcome<Process, Fault>
    requires WellFormed(p)
  {
    if host.ThreadHost? || p.state.Stopping? then Ok(p)
    else if !p.state.Running? then Throws(InternalError)
    else if args == Some(Exit) && i != p.mainThread then Ok(p)
    else if p.operation.None? then Throws(InternalError)
    else
      var quiet :- SuspendUserThreads(p.(state := Stopping), model, Some(i), 0, replies);
      Ok(quiet.(state := Stopped, operation := None, stoppedEvent := true))
  }

  /** `OperationCommandResult.Completed (sse, args)`. */
  ghost function ResultCompleted(p: Process, rid: nat, i: nat, args: Option<Args>, replies: Replies): Outcome<Process,
      Fault>
    requires WellFormed(p) && i < |p.engines| && rid < |p.results|
  {
    if args == Some(Exit) && !p.engines[i].flags.stopOnExit then Ok(p)
    else if p.results[rid].completed then Ok(p)
    else
      var r := p.results[rid];
      HostCompleted(p.(results := p.results[rid := Announce(r, args)]), r.host, r.model, i, args, replies)
  }

  /** `SingleSteppingEngine.OperationCompleted`: the operation is dropped after the result was told. */
  ghost function EngineCompleted(p: Process, i: nat, args: Option<Args>, replies: Replies): Outcome<Process, Fault>
    requires WellFormed(p) && i < |p.engines|
  {
    var stopped := SetThread(p, i, p.engines[i].thread.(engineStopped := true, stopRequested := false));
    var told :- ResultCompleted(stopped, p.engines[i].result, i, args, replies);
    Ok(SetThread(told, i, told.engines[i].thread.(busy := false)))
  }

  // ------------------------------------------------- starting and stopping

  function SetEngine(p: Process, i: nat, t: TL.Thread, rid: nat): Process
    requires i < |p.engines|
  {
    p.(engines := p.engines[i := p.engines[i].(thread := t, result := rid)])
  }

  /** A result of its own for thread `i`, which is what a thread gets outside a process operation. */
  function NewResult(p: Process, host: Host, model: Model): Process {
    p.(results := p.results + [Result(host, model, false, 0, 0)])
  }

  /** `SingleSteppingEngine.ResumeUserThread`. */
  function ResumeUserThread(p: Process, k: nat, rid: nat): Outcome<Process, Fault>
    requires k < |p.engines|
  {
    var t := p.engines[k].thread;
    match t.threadLock
    case Some(r) =>
      if r.pushedRegisters || r.stopEvent.None? then Throws(InternalError)
      else if t.parked.Some? then Throws(DuplicatePendingEvent)
      else Ok(SetEngine(p, k, t.(parked := r.stopEvent, threadLock := None, engineStopped := false, busy := true), rid))
    case None =>
      if !t.engineStopped then Ok(p)
      else Ok(SetEngine(p, k, TL.Resumed(t.(engineStopped := false, busy := true)), rid))
  }

  const OWN_MODEL := Model(SingleMode, false, false, false)

  /** The loop of `Process.ResumeUserThreads` from thread `k` on. */
  function ResumeUserThreads(p: Process, model: Model, caller: nat, k: nat): Outcome<Process, Fault>
    requires k <= |p.engines|
    decreases |p.engines| - k
  {
    if k == |p.engines| then Ok(p)
    else
      var p' :-
        if !p.engines[k].flags.autoRun || !Affected(p, model, Some(caller), k) then Ok(p)
        else if p.operation.Some? then ResumeUserThread(p, k, p.operation.value)
        else ResumeUserThread(NewResult(p, ThreadHost, OWN_MODEL), k, |p.results|);
      ResumeUserThreads(p', model, caller, k + 1)
  }

  /** `Process.StartOperation` on behalf of the stopped thread `caller`, whose operation then starts. */
  function StartOperation(p: Process, model: Model, caller: nat): Outcome<Process, Fault>
    requires caller < |p.engines|
  {
    if !p.state.Stopped? && !p.state.SingleThreaded? then Throws(NotStopped)
    else if model.mode.SingleMode? then
      var single := p.(state := SingleThreaded);
      var resumed :- if model.resumeThreads then ResumeUserThreads(single, model, caller, 0) else Ok(single);
      Ok(Begin(NewResult(resumed, ThreadHost, OWN_MODEL), caller, |resumed.results|))
    else if !model.mode.ProcessMode? then Throws(BadArgument)
    else
      var rid := |p.results|;
      var running := NewResult(p, ProcessHost, model).(state := Running, stoppedEvent := false, operation := Some(rid));
      var resumed :- ResumeUserThreads(running, model, caller, 0);
      Ok(Begin(resumed, caller, rid))
  }

  function Begin(p: Process, i: nat, rid: nat): Process {
    if i < |p.engines| then
      SetEngine(p, i, TL.Resumed(p.engines[i].thread.(engineStopped := false, busy := true)), rid)
    else p
  }

  const STOP_MODEL := Model(ProcessMode, false, false, false)

  /** `Process.Stop`. */
  ghost function StopProcess(p: Process, replies: Replies): Outcome<Process, Fault>
    requires WellFormed(p)
  {
    var quiet :- SuspendUserThreads(p.(state := Stopping), STOP_MODEL, None, 0, replies);
    Ok(quiet.(state := Stopped, operation := None, stoppedEvent := true))
  }

  // ------------------------------------------------------------------ runs

  datatype Step =
    | Start(model: Model, caller: nat)
    | Complete(i: nat, args: Option<Args>, replies: Replies)  // an engine ends its operation
    | Stop(replies: Replies)
    | Touch(i: nat, t: TL.Thread)                             // anything else that happens to a thread
    | Join(t: TL.Thread, flags: Flags, rid: nat)              // a new thread, with an existing result

  ghost function Apply(p: Process, step: Step): Outcome<Process, Fault>
    requires WellFormed(p)
  {
    match step
    case Start(model, caller) => if caller < |p.engines| then StartOperation(p, model, caller) else Ok(p)
    case Complete(i, args, replies) =>
      if i < |p.engines| && p.engines[i].thread.busy then EngineCompleted(p, i, args, replies) else Ok(p)
    case Stop(replies) => StopProcess(p, replies)
    case Touch(i, t) => Ok(if i < |p.engines| then SetThread(p, i, t) else p)
    case Join(t, flags, rid) =>
      Ok(if rid < |p.results| then p.(engines := p.engines + [Engine(t, flags, rid)]) else p)
  }

  /** Runs start with no thread, no operation and the stop event unset. */
  const INITIAL := Process([], 0, Stopped, None, false, [Result(ThreadHost, OWN_MODEL, false, 0, 0)])

  predicate Once(r: Result) {
    if r.completed then r.hostCalls == 1 && r.announced <= 1 else r.hostCalls == 0 && r.announced == 0
  }

  predicate OnceAll(p: Process) {
    forall k :: 0 <= k < |p.results| ==> Once(p.results[k])
  }

  ghost predicate Good(p: Process) {
    && WellFormed(p) && OnceAll(p)
    && !p.state.Stopping?
    && (p.state.Running? ==> p.operation.Some? && !p.stoppedEvent)
    && (!p.state.Running? ==> p.operation.None?)
  }

  /** The state after a run, if every step was well formed and none threw. */
  ghost function Run(p: Process, steps: seq<Step>): Outcome<Process, Fault>
    requires Good(p)
    decreases |steps|
  {
    if steps == [] then Ok(p)
    else
      ApplyKeepsGood(p, steps[0]);
      var p' :- Apply(p, steps[0]);
      Run(p', steps[1..])
  }

  // ---------------------------------------------------------------- proofs

  lemma {:induction false} SuspendOnce(p: Process, model: Model, caller: Option<nat>, k: nat, replies: Replies)
    requires WellFormed(p) && k <= |p.engines| && OnceAll(p)
    ensures var o := SuspendUserThreads(p, model, caller, k, replies); o.Ok? ==> OnceAll(o.value)
    decreases |p.engines| - k
  {
    if k < |p.engines| {
      var o := if Affected(p, model, caller, k) then SuspendUserThread(p, k, replies(k)) else Ok(p);
      if o.Ok? {
        SuspendOnce(o.value, model, caller, k + 1, replies);
      }
    }
  }

  lemma ResumeKeepsBooks(p: Process, model: Model, caller: nat, k: nat)
    requires WellFormed(p) && OnceAll(p) && k <= |p.engines|
    ensures var o := ResumeUserThreads(p, model, caller, k);
            o.Ok? ==> WellFormed(o.value) && OnceAll(o.value) && |o.value.engines| == |p.engines|
                      && o.value.state == p.state && o.value.operation == p.operation
                      && o.value.stoppedEvent == p.stoppedEvent && |o.value.results| >= |p.results|
    decreases |p.engines| - k
  {
    if k < |p.engines| {
      var o := if !p.engines[k].flags.autoRun || !Affected(p, model, Some(caller), k) then Ok(p)
               else if p.operation.Some? then ResumeUserThread(p, k, p.operation.value)
               else ResumeUserThread(NewResult(p, ThreadHost, OWN_MODEL), k, |p.results|);
      if o.Ok? {
        ResumeKeepsBooks(o.value, model, caller, k + 1);
      }
    }
  }

  lemma HostKeepsGood(p: Process, host: Host, model: Model, i: nat, args: Option<Args>, replies: Replies)
    requires Good(p)
    ensures var o := HostCompleted(p, host, model, i, args, replies); o.Ok? ==>
              Good(o.value) && |o.value.engines| == |p.engines|
  {
    SuspendOnce(p.(state := Stopping), model, Some(i), 0, replies);
  }

  lemma ResultKeepsGood(p: Process, rid: nat, i: nat, args: Option<Args>, replies: Replies)
    requires Good(p) && i < |p.engines| && rid < |p.results|
    ensures var o := ResultCompleted(p, rid, i, args, replies); o.Ok? ==>
              Good(o.value) && |o.value.engines| == |p.engines|
  {
    var r := p.results[rid];
    if !r.completed {
      var p' := p.(results := p.results[rid := Announce(r, args)]);
      assert Good(p');
      HostKeepsGood(p', r.host, r.model, i, args, replies);
    }
  }

  lemma CompleteKeepsGood(p: Process, i: nat, args: Option<Args>, replies: Replies)
    requires Good(p) && i < |p.engines|
    ensures var o := EngineCompleted(p, i, args, replies); o.Ok? ==> Good(o.value)
  {
    var stopped := SetThread(p, i, p.engines[i].thread.(engineStopped := true, stopRequested := false));
    ResultKeepsGood(stopped, p.engines[i].result, i, args, replies);
  }

  lemma StartKeepsGood(p: Process, model: Model, caller: nat)
    requires Good(p) && caller < |p.engines|
    ensures var o := StartOperation(p, model, caller); o.Ok? ==> Good(o.value)
  {
    if p.state.Stopped? || p.state.SingleThreaded? {
      if model.mode.SingleMode? {
        ResumeKeepsBooks(p.(state := SingleThreaded), model, caller, 0);
      } else {
        var running :=
          NewResult(p, ProcessHost, model).(state := Running, stoppedEvent := false, operation := Some(|p.results|));
        ResumeKeepsBooks(running, model, caller, 0);
      }
    }
  }

  lemma ApplyKeepsGood(p: Process, step: Step)
    requires Good(p)
    ensures var o := Apply(p, step); o.Ok? ==> Good(o.value)
  {
    match step
    case Start(model, caller) =>
      if caller < |p.engines| {
        StartKeepsGood(p, model, caller);
      }
    case Complete(i, args, replies) =>
      if i < |p.engines| {
        CompleteKeepsGood(p, i, args, replies);
      }
    case Stop(replies) => SuspendOnce(p.(state := Stopping), STOP_MODEL, None, 0, replies);
    case Touch(i, t) =>
    case Join(t, flags, rid) =>
  }

  /** While the process is stopping, a completion without an event touches its own thread and result only. */
  lemma CompletionWhileStopping(p: Process, k: nat, replies: Replies)
    requires WellFormed(p) && k < |p.engines| && p.state.Stopping?
    ensures EngineCompleted(p, k, None, replies) ==
            Ok(SetThread(p, k, TL.Completed(p.engines[k].thread)).(results :=
              Recompleted(p.results, p.engines[k].result)))
  {
    var o := EngineCompleted(p, k, None, replies);
    assert o.Ok? && o.value.engines == SetThread(p, k, TL.Completed(p.engines[k].thread)).engines;
  }

  // ---------------------------------------------------------- main results

  lemma {:induction false} RunKeepsGood(p: Process, steps: seq<Step>)
    requires Good(p)
    ensures Run(p, steps).Ok? ==> Good(Run(p, steps).value)
    decreases |steps|
  {
    if steps != [] {
      ApplyKeepsGood(p, steps[0]);
      var o := Apply(p, steps[0]);
      if o.Ok? {
        RunKeepsGood(o.value, steps[1..]);
      }
    }
  }

  /**
   Over every run, whatever the threads do in between: each command result told its host of a
   completion at most once and announced at most one event; a running process has an operation
   and an unset stop event, any other has no operation.
   */
  lemma CompletedAtMostOnce(steps: seq<Step>, rid: nat)
    requires Run(INITIAL, steps).Ok? && rid < |Run(INITIAL, steps).value.results|
    ensures var p := Run(INITIAL, steps).value;
            && p.results[rid].hostCalls <= 1 && p.results[rid].announced <= 1
            && (p.results[rid].hostCalls == 1 <==> p.results[rid].completed)
            && (p.state.Running? <==> p.operation.Some?)
            && (p.state.Running? ==> !p.stoppedEvent)
            && !p.state.Stopping?
  {
    RunKeepsGood(INITIAL, steps);
    var p := Run(INITIAL, steps).value;
    assert Good(p) && Once(p.results[rid]);
  }

  /** Stopping this thread raises no exception: it is not locked and does not turn out to have exited. */
  predicate Suspendable(t: TL.Thread, reply: Reply) {
    && !t.HasThreadLock()
    && (t.engineStopped || var caught := TL.Stop(t, reply.sig).2; !(caught.Some? && IsExit(caught.value.kind)))
  }

  lemma SuspendOneThread(p: Process, k: nat, reply: Reply)
    requires k < |p.engines| && p.engines[k].result < |p.results| && !p.engines[k].thread.removed
    ensures var o := SuspendUserThread(p, k, reply);
            && (o.Ok? <==> Suspendable(p.engines[k].thread, reply))
            && (o.Ok? ==>
                  && TL.SuspendUserThread(p.engines[k].thread, reply.sig, reply.handled).Ok?
                  && o.value.engines == p.engines[k := p.engines[k].(thread :=
                       TL.SuspendUserThread(p.engines[k].thread, reply.sig, reply.handled).value)])
  {
  }

  /** What becomes of thread `j` in the rest of the loop, from thread `k` on. */
  function Suspended(p: Process, model: Model, caller: Option<nat>, k: nat, j: nat, replies: Replies): TL.Thread
    requires j < |p.engines|
  {
    var t := p.engines[j].thread;
    if k <= j && Affected(p, model, caller, j) then
      match TL.SuspendUserThread(t, replies(j).sig, replies(j).handled) case Ok(t') => t' case Throws(_) => t
    else t
  }

  predicate CanSuspend(p: Process, model: Model, caller: Option<nat>, k: nat, replies: Replies) {
    forall j :: k <= j < |p.engines| && Affected(p, model, caller, j) ==> Suspendable(p.engines[j].thread, replies(j))
  }

  /** Whether the rest can be suspended does not depend on what became of thread `k`. */
  lemma CanSuspendRest(p: Process, p': Process, model: Model, caller: Option<nat>, k: nat, replies: Replies)
    requires |p'.engines| == |p.engines| && k < |p.engines|
    requires forall j :: k < j < |p.engines| ==> p'.engines[j] == p.engines[j]
    ensures CanSuspend(p', model, caller, k + 1, replies) <==> CanSuspend(p, model, caller, k + 1, replies)
  {
    assert forall j :: k < j < |p.engines| ==> Affected(p', model, caller, j) == Affected(p, model, caller, j);
  }

  lemma CanSuspendStep(p: Process, model: Model, caller: Option<nat>, k: nat, replies: Replies)
    requires k < |p.engines|
    ensures CanSuspend(p, model, caller, k, replies) <==>
            && CanSuspend(p, model, caller, k + 1, replies)
            && (Affected(p, model, caller, k) ==> Suspendable(p.engines[k].thread, replies(k)))
  {
  }

  /** One turn of the loop. */
  function TurnOf(p: Process, model: Model, caller: Option<nat>, k: nat, replies: Replies): Outcome<Process, Fault>
    requires k < |p.engines| && p.engines[k].result < |p.results|
  {
    if Affected(p, model, caller, k) then SuspendUserThread(p, k, replies(k)) else Ok(p)
  }

  lemma SuspendTurn(p: Process, model: Model, caller: Option<nat>, k: nat, replies: Replies)
    requires WellFormed(p) && k < |p.engines|
    ensures var turn := TurnOf(p, model, caller, k, replies);
            && (turn.Ok? ==> WellFormed(turn.value) && |turn.value.engines| == |p.engines|)
            && SuspendUserThreads(p, model, caller, k, replies) ==
               (match turn
                case Ok(p') => SuspendUserThreads(p', model, caller, k + 1, replies)
                case Throws(f) => Throws(f))
  {
  }

  lemma TurnSucceeds(p: Process, model: Model, caller: Option<nat>, k: nat, replies: Replies)
    requires WellFormed(p) && k < |p.engines|
    ensures var turn := TurnOf(p, model, caller, k, replies);
            && (turn.Ok? <==> (Affected(p, model, caller, k) ==> Suspendable(p.engines[k].thread, replies(k))))
            && (turn.Ok? ==> |turn.value.engines| == |p.engines|
                             && forall j :: k < j < |p.engines| ==> turn.value.engines[j] == p.engines[j])
  {
    if Affected(p, model, caller, k) {
      SuspendOneThread(p, k, replies(k));
    }
  }

  lemma {:induction false} SuspendLoopEnds(p: Process, model: Model, caller: Option<nat>, k: nat, replies: Replies)
    requires WellFormed(p) && k <= |p.engines|
    ensures SuspendUserThreads(p, model, caller, k, replies).Ok? <==> CanSuspend(p, model, caller, k, replies)
    decreases |p.engines| - k
  {
    if k < |p.engines| {
      SuspendTurn(p, model, caller, k, replies);
      TurnSucceeds(p, model, caller, k, replies);
      CanSuspendStep(p, model, caller, k, replies);
      var turn := TurnOf(p, model, caller, k, replies);
      if turn.Ok? {
        CanSuspendRest(p, turn.value, model, caller, k, replies);
        SuspendLoopEnds(turn.value, model, caller, k + 1, replies);
      }
    }
  }

  /** Thread `k` is done when its turn is over, and the others' turns are what they were. */
  lemma SuspendedByOne(p: Process, p': Process, model: Model, caller: Option<nat>, k: nat, j: nat, replies: Replies)
    requires k < |p.engines| && j < |p.engines| && Affected(p, model, caller, k)
    requires TL.SuspendUserThread(p.engines[k].thread, replies(k).sig, replies(k).handled).Ok?
    requires p'.engines == p.engines[k := p.engines[k].(thread :=
               TL.SuspendUserThread(p.engines[k].thread, replies(k).sig, replies(k).handled).value)]
    ensures Suspended(p', model, caller, k + 1, j, replies) == Suspended(p, model, caller, k, j, replies)
  {
    assert j != k ==> p'.engines[j] == p.engines[j];
  }

  lemma {:induction false} SuspendLoop(p: Process, model: Model, caller: Option<nat>, k: nat, replies: Replies, j: nat)
    requires WellFormed(p) && k <= |p.engines| && j < |p.engines|
    requires SuspendUserThreads(p, model, caller, k, replies).Ok?
    ensures SuspendUserThreads(p, model, caller, k, replies).value.engines[j].thread
            == Suspended(p, model, caller, k, j, replies)
    decreases |p.engines| - k
  {
    if k < |p.engines| {
      SuspendTurn(p, model, caller, k, replies);
      if Affected(p, model, caller, k) {
        SuspendOneThread(p, k, replies(k));
        var p' := SuspendUserThread(p, k, replies(k)).value;
        SuspendedByOne(p, p', model, caller, k, j, replies);
        SuspendLoop(p', model, caller, k + 1, replies, j);
      } else {
        SuspendLoop(p, model, caller, k + 1, replies, j);
      }
    }
  }

  /**
   Suspend-all: for every thread table and every answer of the kernel, the loop ends normally if and
   only if no affected thread is locked or has exited. Afterwards every affected thread is marked as
   stopped; it still runs if and only if it ran although it was marked as stopped before, and still
   has an operation if and only if it had one although it was marked as stopped. The event a thread
   was stopped with was delivered or is in its lock record; every other thread is as it was.
   */
  lemma AllOthersAreSuspended(p: Process, model: Model, caller: Option<nat>, replies: Replies, j: nat)
    requires WellFormed(p) && j < |p.engines|
    ensures var o := SuspendUserThreads(p, model, caller, 0, replies);
            && (o.Ok? <==> CanSuspend(p, model, caller, 0, replies))
            && (o.Ok? ==>
                  && |o.value.engines| == |p.engines|
                  && var t, t' := p.engines[j].thread, o.value.engines[j].thread;
                     if Affected(p, model, caller, j) then IsSuspended(t, t', replies(j)) else t' == t)
  {
    SuspendLoopEnds(p, model, caller, 0, replies);
    if SuspendUserThreads(p, model, caller, 0, replies).Ok? {
      SuspendLoop(p, model, caller, 0, replies, j);
    }
  }

  /** What a successful suspension made of the thread `t`. */
  predicate IsSuspended(t: TL.Thread, t': TL.Thread, reply: Reply) {
    && t'.engineStopped
    && (t'.target.Running? <==> t.engineStopped && t.target.Running?)
    && (t'.busy <==> t.engineStopped && t.busy)
    && (t.engineStopped ==> t' == t)
    && (!t.engineStopped ==> !t'.stopRequested)
    && var caught := TL.Stop(t, reply.sig).2;
       !t.engineStopped ==>
         && (t'.threadLock.Some? ==> t'.threadLock.value.stopEvent == caught && caught.Some?)
         && (caught.Some? && t'.threadLock.None? ==> t'.delivered == t.delivered + [caught.value.serial])
  }

  /**
   A completion by thread `i` of the fresh operation of a running process. If no thread gets in the
   way, the process stops unless the event is an exit of a thread that is not the main thread with
   StopOnExit; and an exit of another thread with StopOnExit uses the result up without stopping.
   */
  lemma CompletionStopsTheProcess(p: Process, i: nat, args: Option<Args>, replies: Replies)
    requires Good(p) && p.state.Running? && i < |p.engines|
    requires p.engines[i].result == p.operation.value && !p.results[p.operation.value].completed
    requires p.results[p.operation.value].host.ProcessHost?
    requires CanSuspend(p, p.results[p.operation.value].model, Some(i), 0, replies)
    ensures var o := EngineCompleted(p, i, args, replies);
            && o.Ok?
            && (o.value.state.Stopped? <==>
              !(args == Some(Exit) && (i != p.mainThread || !p.engines[i].flags.stopOnExit)))
            && (o.value.state.Running? && o.value.results[p.operation.value].completed <==>
                args == Some(Exit) && i != p.mainThread && p.engines[i].flags.stopOnExit)
  {
    var stopped := SetThread(p, i, p.engines[i].thread.(engineStopped := true, stopRequested := false));
    var rid := p.engines[i].result;
    var r := p.results[rid];
    if !(args == Some(Exit) && !p.engines[i].flags.stopOnExit) {
      var p' := stopped.(results := p.results[rid := Announce(r, args)]);
      var stopping := p'.(state := Stopping);
      forall j | 0 <= j < |p.engines| && Affected(stopping, r.model, Some(i), j)
        ensures Suspendable(stopping.engines[j].thread, replies(j))
      {
        assert Affected(p, r.model, Some(i), j);
      }
      SuspendLoopEnds(stopping, r.model, Some(i), 0, replies);
    }
  }

  /**
   What a process that was stopped by a completion leaves behind: an affected thread still runs if and
   only if it ran although it was marked as stopped, and likewise for its operation.
   */
  lemma ThreadsOfStoppedProcess(p: Process, i: nat, args: Option<Args>, replies: Replies, j: nat)
    requires Good(p) && p.state.Running? && i < |p.engines| && j < |p.engines|
    requires p.engines[i].result == p.operation.value && !p.results[p.operation.value].completed
    requires p.results[p.operation.value].host.ProcessHost?
    requires !(args == Some(Exit) && (i != p.mainThread || !p.engines[i].flags.stopOnExit))
    requires CanSuspend(p, p.results[p.operation.value].model, Some(i), 0, replies)
    requires Affected(p, p.results[p.operation.value].model, Some(i), j)
    ensures var o := EngineCompleted(p, i, args, replies);
            && o.Ok? && o.value.state.Stopped? && |o.value.engines| == |p.engines|
            && IsSuspended(p.engines[j].thread, o.value.engines[j].thread, replies(j))
  {
    CompletionStopsTheProcess(p, i, args, replies);
    var stopped := SetThread(p, i, p.engines[i].thread.(engineStopped := true, stopRequested := false));
    var rid := p.engines[i].result;
    var r := p.results[rid];
    var stopping := stopped.(results := p.results[rid := Announce(r, args)], state := Stopping);
    assert Affected(stopping, r.model, Some(i), j) && stopping.engines[j] == p.engines[j];
    AllOthersAreSuspended(stopping, r.model, Some(i), replies, j);
  }

  /** So a process can be stopped with one of its threads running. */
  lemma StoppedProcessMayHaveRunningThread(p: Process, i: nat, replies: Replies, j: nat)
    requires Good(p) && p.state.Running? && i < |p.engines| && j < |p.engines|
    requires p.engines[i].result == p.operation.value && !p.results[p.operation.value].completed
    requires p.results[p.operation.value].host.ProcessHost?
    requires CanSuspend(p, p.results[p.operation.value].model, Some(i), 0, replies)
    requires Affected(p, p.results[p.operation.value].model, Some(i), j)
    requires p.engines[j].thread.engineStopped && p.engines[j].thread.target.Running?
    ensures var o := EngineCompleted(p, i, Some(OtherEvent), replies);
            && o.Ok? && o.value.state.Stopped? && j < |o.value.engines|
            && o.value.engines[j].thread.target.Running?
  {
    ThreadsOfStoppedProcess(p, i, Some(OtherEvent), replies, j);
  }
}
