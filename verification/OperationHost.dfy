/**
 Completing an operation as the program does it: the engine tells the command result, the result
 tells the process, the process suspends its threads in a loop, and each of them completes again.
 */
module OperationHost {
  import opened TargetEvents
  import TL = ThreadLocks
  import PO = ProcessOperation

  type Fault = PO.Fault

  ghost predicate Agrees(fault: Option<Fault>, p: PO.Process, o: Outcome<PO.Process, Fault>) {
    match o
    case Ok(q) => fault.None? && p == q
    case Throws(f) => fault == Some(f)
  }

  class Process {
    const mainThread: nat
    var engines: seq<PO.Engine>
    var state: PO.ProcessState
    var operation: Option<nat>
    var stoppedEvent: bool
    var results: seq<PO.Result>

    ghost function View(): PO.Process
      reads this
    {
      PO.Process(engines, mainThread, state, operation, stoppedEvent, results)
    }

    ghost function Rank(): nat
      reads this
    {
      if state.Running? then 1 else 0
    }

    method EngineCompleted(i: nat, args: Option<PO.Args>, replies: PO.Replies) returns (fault: Option<Fault>)
      requires PO.WellFormed(View()) && i < |engines|
      modifies this
      ensures Agrees(fault, View(), PO.EngineCompleted(old(View()), i, args, replies))
      decreases Rank(), 3
    {
      engines := engines[i := engines[i].(thread := engines[i].thread.(engineStopped := true, stopRequested := false))];
      fault := Completed(engines[i].result, i, args, replies);
      if fault.Some? {
        return;
      }
      engines := engines[i := engines[i].(thread := engines[i].thread.(busy := false))];
    }

    method Completed(rid: nat, i: nat, args: Option<PO.Args>, replies: PO.Replies) returns (fault: Option<Fault>)
      requires PO.WellFormed(View()) && i < |engines| && rid < |results|
      modifies this
      ensures Agrees(fault, View(), PO.ResultCompleted(old(View()), rid, i, args, replies))
      ensures fault.None? ==> PO.SameShape(old(View()), View())
      decreases Rank(), 2
    {
      if args == Some(PO.Exit) && !engines[i].flags.stopOnExit {
        return None;
      }
      fault := None;
      if !results[rid].completed {
        var host, model := results[rid].host, results[rid].model;
        results := results[rid := PO.Announce(results[rid], args)];
        fault := OperationCompleted(host, model, i, args, replies);
      }
    }

    method OperationCompleted(host: PO.Host, model: PO.Model, i: nat, args: Option<PO.Args>, replies: PO.Replies)
      returns (fault: Option<Fault>)
      requires PO.WellFormed(View()) && i < |engines|
      modifies this
      ensures Agrees(fault, View(), PO.HostCompleted(old(View()), host, model, i, args, replies))
      ensures fault.None? ==> PO.SameShape(old(View()), View())
      decreases Rank(), 1
    {
      if host.ThreadHost? || state.Stopping? {
        return None;
      }
      if !state.Running? {
        return Some(PO.InternalError);
      }
      if args == Some(PO.Exit) && i != mainThread {
        return None;
      }
      if operation.None? {
        return Some(PO.InternalError);
      }
      state := PO.Stopping;
      fault := SuspendUserThreads(model, Some(i), replies);
      if fault.Some? {
        return;
      }
      state := PO.Stopped;
      operation := None;
      stoppedEvent := true;
    }

    method SuspendUserThreads(model: PO.Model, caller: Option<nat>, replies: PO.Replies) returns (fault: Option<Fault>)
      requires PO.WellFormed(View()) && state.Stopping?
      modifies this
      ensures Agrees(fault, View(), PO.SuspendUserThreads(old(View()), model, caller, 0, replies))
      ensures fault.None? ==> PO.SameShape(old(View()), View())
      decreases 0, 6
    {
      fault := None;
      var k := 0;
      while k < |engines|
        invariant k <= |engines| && PO.WellFormed(View()) && state.Stopping? && fault.None?
        invariant PO.SuspendUserThreads(View(), model, caller, k, replies)
               == PO.SuspendUserThreads(old(View()), model, caller, 0, replies)
        decreases |engines| - k
      {
        PO.SuspendTurn(View(), model, caller, k, replies);
        var flags := engines[k].flags;
        if && !engines[k].thread.removed && caller != Some(k)
           && (!flags.immutable || model.stopImmutables) && (!flags.daemon || model.stopDaemons) {
          fault := SuspendUserThread(k, replies);
          if fault.Some? {
            return;
          }
        }
        k := k + 1;
      }
    }

    /** `OperationInterrupted` on a thread that was asked to stop. */
    method OperationInterrupted(k: nat, replies: PO.Replies)
      requires PO.WellFormed(View()) && k < |engines| && state.Stopping?
      modifies this
      ensures engines == old(engines)[k := old(engines[k]).(thread := TL.Completed(old(engines[k].thread)))]
      ensures results == PO.Recompleted(old(results), old(engines[k].result))
      ensures state == old(state) && operation == old(operation) && stoppedEvent == old(stoppedEvent)
      decreases 0, 4
    {
      PO.CompletionWhileStopping(View(), k, replies);
      var fault := EngineCompleted(k, None, replies);
    }

    method SuspendUserThread(k: nat, replies: PO.Replies) returns (fault: Option<Fault>)
      requires PO.WellFormed(View()) && k < |engines| && state.Stopping?
      requires !engines[k].thread.removed
      modifies this
      ensures Agrees(fault, View(), PO.SuspendUserThread(old(View()), k, replies(k)))
      ensures fault.None? ==> |engines| == |old(engines)|
      decreases 0, 5
    {
      if engines[k].thread.HasThreadLock() {
        return Some(PO.RecursiveLock);
      }
      if engines[k].thread.engineStopped {
        return None;
      }
      var (halted, stopped, caught) := TL.Stop(engines[k].thread, replies(k).sig);
      if caught.Some? && IsExit(caught.value.kind) {
        return Some(PO.TableChanged);
      }
      var kept := caught.Some? && TL.KeptBySuspend(caught.value.kind) && !replies(k).handled;
      var seen := if caught.Some? && !kept then TL.Delivered(halted, caught.value) else halted;
      engines := engines[k := engines[k].(thread := seen.(stopRequested := true))];
      OperationInterrupted(k, replies);
      fault := None;
      if kept {
        engines := engines[k :=
          engines[k].(thread := engines[k].thread.(threadLock := Some(TL.LockRecord(stopped, caught, false))))];
      }
      assert engines == old(engines)[k := engines[k]];
    }

    method ResumeUserThread(k: nat, rid: nat) returns (fault: Option<Fault>)
      requires k < |engines|
      modifies this`engines
      ensures Agrees(fault, View(), PO.ResumeUserThread(old(View()), k, rid))
      ensures |engines| == |old(engines)|
    {
      var t := engines[k].thread;
      if t.threadLock.Some? {
        if t.threadLock.value.pushedRegisters || t.threadLock.value.stopEvent.None? {
          return Some(PO.InternalError);
        }
        if t.parked.Some? {
          return Some(PO.DuplicatePendingEvent);
        }
        t := t.(parked := t.threadLock.value.stopEvent, threadLock := None, engineStopped := false, busy := true);
        engines := engines[k := engines[k].(thread := t, result := rid)];
        return None;
      }
      if !t.engineStopped {
        return None;
      }
      t := TL.Resumed(t.(engineStopped := false, busy := true));
      engines := engines[k := engines[k].(thread := t, result := rid)];
      return None;
    }

    method ResumeUserThreads(model: PO.Model, caller: nat) returns (fault: Option<Fault>)
      modifies this`engines, this`results
      ensures Agrees(fault, View(), PO.ResumeUserThreads(old(View()), model, caller, 0))
      ensures |engines| == |old(engines)|
    {
      var k := 0;
      while k < |engines|
        invariant k <= |engines| == |old(engines)|
        invariant PO.ResumeUserThreads(View(), model, caller, k) == PO.ResumeUserThreads(old(View()), model, caller, 0)
      {
        var flags := engines[k].flags;
        if && flags.autoRun && !engines[k].thread.removed && k != caller
           && (!flags.immutable || model.stopImmutables) && (!flags.daemon || model.stopDaemons) {
          var rid := if operation.Some? then operation.value else |results|;
          if operation.None? {
            results := results + [PO.Result(PO.ThreadHost, PO.OWN_MODEL, false, 0, 0)];
          }
          fault := ResumeUserThread(k, rid);
          if fault.Some? {
            return;
          }
        }
        k := k + 1;
      }
      return None;
    }

    /** `Process.StartOperation`, and the start of the calling thread's own operation. */
    method StartOperation(model: PO.Model, caller: nat) returns (fault: Option<Fault>)
      requires caller < |engines|
      modifies this
      ensures Agrees(fault, View(), PO.StartOperation(old(View()), model, caller))
    {
      if !state.Stopped? && !state.SingleThreaded? {
        return Some(PO.NotStopped);
      }
      var rid := |results|;
      if model.mode.SingleMode? {
        state := PO.SingleThreaded;
        if model.resumeThreads {
          fault := ResumeUserThreads(model, caller);
          if fault.Some? {
            return;
          }
        }
        rid := |results|;
        results := results + [PO.Result(PO.ThreadHost, PO.OWN_MODEL, false, 0, 0)];
      } else if !model.mode.ProcessMode? {
        return Some(PO.BadArgument);
      } else {
        results := results + [PO.Result(PO.ProcessHost, model, false, 0, 0)];
        state, stoppedEvent, operation := PO.Running, false, Some(rid);
        fault := ResumeUserThreads(model, caller);
        if fault.Some? {
          return;
        }
      }
      var t := TL.Resumed(engines[caller].thread.(engineStopped := false, busy := true));
      engines := engines[caller := engines[caller].(thread := t, result := rid)];
      return None;
    }

    /** `Process.Stop`. */
    method Stop(replies: PO.Replies) returns (fault: Option<Fault>)
      requires PO.WellFormed(View())
      modifies this
      ensures Agrees(fault, View(), PO.StopProcess(old(View()), replies))
    {
      state := PO.Stopping;
      fault := SuspendUserThreads(PO.STOP_MODEL, None, replies);
      if fault.Some? {
        return;
      }
      state := PO.Stopped;
      operation := None;
      stoppedEvent := true;
    }
  }
}
