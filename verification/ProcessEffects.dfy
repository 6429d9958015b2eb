/**
 What starting, completing and stopping an operation does to every thread of the process, in terms of
 the threads' flags, their marks and the threading model alone.
 */
module ProcessEffects {
  import opened TargetEvents
  import opened ProcessOperation
  import TL = ThreadLocks

  /** The threading model leaves a thread with these flags alone. */
  predicate Spared(flags: Flags, model: Model) {
    (flags.immutable && !model.stopImmutables) || (flags.daemon && !model.stopDaemons)
  }

  // ------------------------------------------------------------ suspending

  /** Suspend-all by flags: the caller, gone threads and spared threads are untouched, all others suspended. */
  lemma SuspensionByFlags(p: Process, model: Model, caller: Option<nat>, replies: Replies, j: nat)
    requires WellFormed(p) && j < |p.engines| && SuspendUserThreads(p, model, caller, 0, replies).Ok?
    ensures var p' := SuspendUserThreads(p, model, caller, 0, replies).value;
            && |p'.engines| == |p.engines|
            && var e, e' := p.engines[j], p'.engines[j];
               if caller == Some(j) || e.thread.removed || Spared(e.flags, model) then e'.thread == e.thread
               else IsSuspended(e.thread, e'.thread, replies(j))
  {
    AllOthersAreSuspended(p, model, caller, replies, j);
  }

  /** `Process.Stop`: every thread that is not spared is suspended, and the process is stopped without operation. */
  lemma StopEffect(p: Process, replies: Replies, j: nat)
    requires WellFormed(p) && j < |p.engines|
    ensures var o := StopProcess(p, replies);
            && (o.Ok? <==> CanSuspend(p, Model(ProcessMode, false, false, false), None, 0, replies))
            && (o.Ok? ==>
                  && o.value.state == Stopped && o.value.operation.None? && o.value.stoppedEvent
                  && |o.value.engines| == |p.engines|
                  && var e, e' := p.engines[j], o.value.engines[j];
                     if e.thread.removed || e.flags.immutable || e.flags.daemon then e'.thread == e.thread
                     else IsSuspended(e.thread, e'.thread, replies(j)))
  {
    var stopping := p.(state := Stopping);
    assert forall k :: 0 <= k < |p.engines| ==> stopping.engines[k] == p.engines[k];
    AllOthersAreSuspended(stopping, STOP_MODEL, None, replies, j);
    SameSuspension(p, stopping, STOP_MODEL, None, replies);
  }

  lemma SameSuspension(p: Process, p': Process, model: Model, caller: Option<nat>, replies: Replies)
    requires p'.engines == p.engines
    ensures CanSuspend(p', model, caller, 0, replies) <==> CanSuspend(p, model, caller, 0, replies)
  {
    assert forall k :: 0 <= k < |p.engines| ==> Affected(p', model, caller, k) == Affected(p, model, caller, k);
  }

  // -------------------------------------------------------------- resuming

  /** A thread that may be resumed: a kept event is parked again, a running thread is let be, any other is set going. */
  predicate IsResumed(t: TL.Thread, t': TL.Thread) {
    if t.threadLock.Some? then
      && t.threadLock.value.stopEvent.Some? && t'.parked == t.threadLock.value.stopEvent && t'.threadLock.None?
      && !t'.engineStopped && t'.busy && t'.target == t.target && t'.delivered == t.delivered
    else if !t.engineStopped then t' == t
    else
      && !t'.engineStopped && t'.busy && t'.parked == t.parked && t'.delivered == t.delivered
      && t'.threadLock.None? && (t.target.Halted? ==> t'.target.Running?)
  }

  /** The thread was given a new command result. */
  predicate TakesResult(t: TL.Thread) {
    t.threadLock.Some? || t.engineStopped
  }

  lemma ResumeOneEffect(p: Process, k: nat, rid: nat)
    requires k < |p.engines| && ResumeUserThread(p, k, rid).Ok?
    ensures var p' := ResumeUserThread(p, k, rid).value;
            && p' == p.(engines := p'.engines) && |p'.engines| == |p.engines|
            && (forall j :: 0 <= j < |p.engines| && j != k ==> p'.engines[j] == p.engines[j])
            && IsResumed(p.engines[k].thread, p'.engines[k].thread) && p'.engines[k].flags == p.engines[k].flags
            && p'.engines[k].result == if TakesResult(p.engines[k].thread) then rid else p.engines[k].result
  {
  }

  predicate Resumable(e: Engine, model: Model, caller: nat, j: nat) {
    e.flags.autoRun && j != caller && !e.thread.removed && !Spared(e.flags, model)
  }

  /** The result a resumed thread works for: the process operation's, or one of its own. */
  predicate WorksFor(p: Process, p': Process, rid: nat) {
    if p.operation.Some? then rid == p.operation.value
    else |p.results| <= rid < |p'.results| && p'.results[rid].host == ThreadHost
  }

  predicate Resumption(p: Process, p': Process, model: Model, caller: nat, k: nat, j: nat)
    requires j < |p.engines| && j < |p'.engines|
  {
    var e, e' := p.engines[j], p'.engines[j];
    if k <= j && Resumable(e, model, caller, j) then
      && IsResumed(e.thread, e'.thread) && e'.flags == e.flags
      && if TakesResult(e.thread) then WorksFor(p, p', e'.result) else e'.result == e.result
    else e' == e
  }

  /** The loop of `ResumeUserThreads` resumes exactly the resumable threads, each as if alone. */
  lemma {:induction false} ResumeLoop(p: Process, model: Model, caller: nat, k: nat, j: nat)
    requires k <= |p.engines| && j < |p.engines| && ResumeUserThreads(p, model, caller, k).Ok?
    ensures var p' := ResumeUserThreads(p, model, caller, k).value;
            && |p'.engines| == |p.engines| && p'.state == p.state && p'.operation == p.operation
            && p'.stoppedEvent == p.stoppedEvent && p.results <= p'.results
            && Resumption(p, p', model, caller, k, j)
    decreases |p.engines| - k
  {
    if k < |p.engines| {
      var p1 := ResumeTurn(p, model, caller, k);
      ResumeLoop(p1, model, caller, k + 1, j);
    }
  }

  lemma ResumeTurn(p: Process, model: Model, caller: nat, k: nat) returns (p1: Process)
    requires k < |p.engines| && ResumeUserThreads(p, model, caller, k).Ok?
    ensures |p1.engines| == |p.engines| && p1.state == p.state && p1.operation == p.operation
    ensures p1.stoppedEvent == p.stoppedEvent && p.results <= p1.results
    ensures forall j :: 0 <= j < |p.engines| && j != k ==> p1.engines[j] == p.engines[j]
    ensures Resumption(p, p1, model, caller, k, k)
    ensures ResumeUserThreads(p1, model, caller, k + 1) == ResumeUserThreads(p, model, caller, k)
  {
    if !p.engines[k].flags.autoRun || !Affected(p, model, Some(caller), k) {
      p1 := p;
    } else if p.operation.Some? {
      ResumeOneEffect(p, k, p.operation.value);
      p1 := ResumeUserThread(p, k, p.operation.value).value;
    } else {
      var added := NewResult(p, ThreadHost, OWN_MODEL);
      ResumeOneEffect(added, k, |p.results|);
      p1 := ResumeUserThread(added, k, |p.results|).value;
    }
  }

  // -------------------------------------------------------------- starting

  /** The caller's thread is set going with the result `rid`. */
  predicate CallerStarted(e: Engine, e': Engine, rid: nat) {
    && !e'.thread.engineStopped && e'.thread.busy && e'.result == rid
    && (e.thread.target.Halted? ==> e'.thread.target.Running?)
  }

  /**
   Starting a process operation: the process runs with a fresh result of its own and an unset stop
   event; every thread that is neither the caller nor spared nor exempt from running is resumed, and
   those that take a result take the new one; the caller runs with it; everybody else is unchanged.
   */
  lemma ProcessOperationStarts(p: Process, model: Model, caller: nat, j: nat)
    requires caller < |p.engines| && j < |p.engines| && model.mode == ProcessMode
    requires StartOperation(p, model, caller).Ok?
    ensures var p', rid := StartOperation(p, model, caller).value, |p.results|;
            && (p.state == Stopped || p.state == SingleThreaded)
            && p'.state == Running && p'.operation == Some(rid) && !p'.stoppedEvent && |p'.engines| == |p.engines|
            && rid < |p'.results| && p'.results[rid] == Result(ProcessHost, model, false, 0, 0)
            && var e, e' := p.engines[j], p'.engines[j];
               if j == caller then CallerStarted(e, e', rid)
               else if Resumable(e, model, caller, j) then
                 && IsResumed(e.thread, e'.thread)
                 && e'.result == if TakesResult(e.thread) then rid else e.result
               else e' == e
  {
    var rid := |p.results|;
    var running := p.(results := p.results + [Result(ProcessHost, model, false, 0, 0)], state := Running,
                      stoppedEvent := false, operation := Some(rid));
    assert running ==
      NewResult(p, ProcessHost, model).(state := Running, stoppedEvent := false, operation := Some(rid));
    ResumeLoop(running, model, caller, 0, j);
    ResumeLoop(running, model, caller, 0, caller);
  }

  /** Starting a thread alone: the others are resumed only if the model says so, each with a result of its own. */
  lemma SingleOperationStarts(p: Process, model: Model, caller: nat, j: nat)
    requires caller < |p.engines| && j < |p.engines| && model.mode == SingleMode && p.operation.None?
    requires StartOperation(p, model, caller).Ok?
    ensures var p' := StartOperation(p, model, caller).value;
            && (p.state == Stopped || p.state == SingleThreaded)
            && p'.state == SingleThreaded && p'.operation.None? && |p'.engines| == |p.engines| && |p'.results| > 0
            && var e, e' := p.engines[j], p'.engines[j];
               if j == caller then
                 CallerStarted(e, e', |p'.results| - 1) && p'.results[|p'.results| - 1].host == ThreadHost
               else if model.resumeThreads && Resumable(e, model, caller, j) then
                 && IsResumed(e.thread, e'.thread)
                 && if TakesResult(e.thread) then |p.results| <= e'.result < |p'.results| - 1 else e'.result == e.result
               else e' == e
  {
    if model.resumeThreads {
      ResumeLoop(p.(state := SingleThreaded), model, caller, 0, j);
      ResumeLoop(p.(state := SingleThreaded), model, caller, 0, caller);
    }
  }

  /** A start is refused on a process that is not stopped, and in any other mode. */
  lemma StartIsRefused(p: Process, model: Model, caller: nat)
    requires caller < |p.engines|
    ensures var o := StartOperation(p, model, caller);
            && (o == Throws(NotStopped) <==> p.state != Stopped && p.state != SingleThreaded)
            && ((p.state == Stopped || p.state == SingleThreaded) ==>
                  (model.mode != SingleMode && model.mode != ProcessMode ==> o == Throws(BadArgument)))
  {
    if p.state == Stopped || p.state == SingleThreaded {
      ResumeFaults(if model.mode == SingleMode then p.(state := SingleThreaded)
                   else NewResult(p, ProcessHost, model).(state := Running, stoppedEvent := false,
                                                          operation := Some(|p.results|)), model, caller, 0);
    }
  }

  lemma {:induction false} ResumeFaults(p: Process, model: Model, caller: nat, k: nat)
    requires k <= |p.engines|
    ensures var o := ResumeUserThreads(p, model, caller, k);
            o.Throws? ==> o.fault == InternalError || o.fault == DuplicatePendingEvent
    decreases |p.engines| - k
  {
    if k < |p.engines| {
      var o := if !p.engines[k].flags.autoRun || !Affected(p, model, Some(caller), k) then Ok(p)
               else if p.operation.Some? then ResumeUserThread(p, k, p.operation.value)
               else ResumeUserThread(NewResult(p, ThreadHost, OWN_MODEL), k, |p.results|);
      if o.Ok? {
        ResumeFaults(o.value, model, caller, k + 1);
      }
    }
  }

  // ------------------------------------------------------------ completing

  /** A completed result is not touched by the completions of the threads that are suspended. */
  lemma {:induction false} CompletedResultsStay(
    p: Process, model: Model, caller: Option<nat>, k: nat, replies: Replies, rid: nat)
    requires WellFormed(p) && k <= |p.engines| && rid < |p.results| && p.results[rid].completed
    requires SuspendUserThreads(p, model, caller, k, replies).Ok?
    ensures var p' := SuspendUserThreads(p, model, caller, k, replies).value;
            rid < |p'.results| && p'.results[rid] == p.results[rid]
    decreases |p.engines| - k
  {
    if k < |p.engines| {
      SuspendTurn(p, model, caller, k, replies);
      var turn := TurnOf(p, model, caller, k, replies).value;
      CompletedResultsStay(turn, model, caller, k + 1, replies, rid);
    }
  }

  /**
   A completion: the thread that completes is marked as stopped and idle. The first completion of a
   result announces its event once and completes the result; a later one, or the exit of a thread
   without StopOnExit, leaves the result as it is.
   */
  lemma CompletionEffect(p: Process, i: nat, args: Option<Args>, replies: Replies)
    requires WellFormed(p) && i < |p.engines| && EngineCompleted(p, i, args, replies).Ok?
    ensures var p', rid := EngineCompleted(p, i, args, replies).value, p.engines[i].result;
            && |p'.engines| == |p.engines| && rid < |p'.results|
            && p'.engines[i].thread.engineStopped && !p'.engines[i].thread.busy && !p'.engines[i].thread.stopRequested
            && var r, r' := p.results[rid], p'.results[rid];
               if (args == Some(Exit) && !p.engines[i].flags.stopOnExit) || r.completed then r' == r
               else
                 && r'.completed && r'.hostCalls == r.hostCalls + 1
                 && r'.announced == r.announced + (if args.Some? then 1 else 0)
  {
    var rid := p.engines[i].result;
    var r := p.results[rid];
    var stopped := SetThread(p, i, p.engines[i].thread.(engineStopped := true, stopRequested := false));
    if !(args == Some(Exit) && !p.engines[i].flags.stopOnExit) && !r.completed {
      var told := stopped.(results := p.results[rid := Announce(r, args)]);
      HostEffect(told, r.host, r.model, i, args, replies, rid);
    }
  }

  lemma HostEffect(p: Process, host: Host, model: Model, i: nat, args: Option<Args>, replies: Replies, rid: nat)
    requires WellFormed(p) && i < |p.engines| && rid < |p.results| && p.results[rid].completed
    requires HostCompleted(p, host, model, i, args, replies).Ok?
    ensures var p' := HostCompleted(p, host, model, i, args, replies).value;
            && |p'.engines| == |p.engines| && p'.engines[i].thread == p.engines[i].thread
            && rid < |p'.results| && p'.results[rid] == p.results[rid]
  {
    if !host.ThreadHost? && p.state.Running? && !(args == Some(Exit) && i != p.mainThread) {
      var stopping := p.(state := Stopping);
      CompletedResultsStay(stopping, model, Some(i), 0, replies, rid);
      SuspensionByFlags(stopping, model, Some(i), replies, i);
    }
  }
}
