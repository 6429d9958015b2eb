/**
 The thread lock as the process performs it: loops over the thread table that change one engine
 after the other in place. Every method is tied to the function of `ThreadLocks` it implements.
 */
module LockedProcess {
  import opened TargetEvents
  import TL = ThreadLocks

  type Fault = TL.Fault

  class Process {
    var threads: seq<TL.Thread>
    var holder: Option<nat>
    var disabled: Option<nat>
    ghost var wanted: set<nat>
    ghost var ran: set<nat>
    ghost var tainted: set<nat>
    ghost var exposed: bool

    ghost function View(): TL.System
      reads this
    {
      TL.System(threads, holder, disabled, wanted, ran, tainted, exposed)
    }

    method AcquireThreadLock(i: nat, sig: Signal) returns (fault: Option<Fault>)
      requires i < |threads|
      modifies this`threads
      ensures fault == if old(threads[i].HasThreadLock()) then Some(TL.RecursiveLock) else None
      ensures threads == if fault.Some? then old(threads)
                         else old(threads)[i := TL.AcquireThreadLock(old(threads[i]), sig)]
    {
      if threads[i].threadLock.Some? {
        return Some(TL.RecursiveLock);
      }
      fault := None;
      if threads[i].engineStopped {
        return;
      }
      var (halted, stopped, caught) := TL.Stop(threads[i], sig);
      threads := threads[i := halted.(threadLock := Some(TL.LockRecord(stopped, caught, true)))];
      if caught.Some? && IsExit(caught.value.kind) {
        return;
      }
      threads := threads[i := threads[i].(savedRegisters := threads[i].savedRegisters + 1)];
      threads := threads[i := threads[i].(engineStopped := true)];
    }

    method ReleaseThreadLock(i: nat) returns (fault: Option<Fault>)
      requires i < |threads|
      modifies this`threads
      ensures fault == if TL.CanPark(old(threads[i])) then None else Some(TL.DuplicatePendingEvent)
      ensures fault.None? ==> threads == old(threads)[i := TL.ReleaseThreadLock(old(threads[i]))]
      ensures |threads| == |old(threads)|
    {
      fault := None;
      var t := threads[i];
      if t.threadLock.None? {
        return;
      }
      var record := t.threadLock.value;
      if record.pushedRegisters {
        t := t.(savedRegisters := t.savedRegisters - 1);
      }
      if record.stopEvent.Some? {
        if t.parked.Some? {
          return Some(TL.DuplicatePendingEvent);
        }
        t := t.(parked := record.stopEvent);
      }
      if record.stopped {
        t := t.(engineStopped := false);
      }
      threads := threads[i := t.(threadLock := None)];
    }

    method AcquireGlobalThreadLock(caller: nat, sigs: TL.Signals) returns (fault: Option<Fault>)
      modifies this
      ensures match TL.AcquireGlobalThreadLock(old(View()), caller, sigs)
              case Ok(s) => fault.None? && View() == s
              case Throws(f) => fault == Some(f)
    {
      if holder.Some? {
        return Some(TL.RecursiveLock);
      }
      ghost var before := threads;
      wanted := TL.NotStoppedOthers(threads, caller);
      ran := TL.RunningOthers(threads, caller);
      tainted := tainted + TL.ParkedOthers(threads, caller);
      holder := Some(caller);
      var i := 0;
      while i < |threads|
        invariant i <= |threads| == |before|
        invariant disabled == old(disabled) && exposed == old(exposed) && holder == Some(caller)
        invariant wanted == TL.NotStoppedOthers(before, caller) && ran == TL.RunningOthers(before, caller)
        invariant tainted == old(tainted) + TL.ParkedOthers(before, caller)
        invariant forall j :: 0 <= j < i && j != caller && !before[j].removed ==> !before[j].HasThreadLock()
        invariant forall j :: 0 <= j < i ==>
          threads[j] == if j == caller || before[j].removed then before[j]
                        else TL.AcquireThreadLock(before[j], sigs(j))
        invariant forall j :: i <= j < |threads| ==> threads[j] == before[j]
      {
        if i != caller && !threads[i].removed {
          fault := AcquireThreadLock(i, sigs(i));
          if fault.Some? {
            return;
          }
        }
        i := i + 1;
      }
      assert threads == TL.AcquireOthers(before, caller, sigs);
      return None;
    }

    method ReleaseGlobalThreadLock(caller: nat) returns (fault: Option<Fault>)
      modifies this
      ensures match TL.ReleaseGlobalThreadLock(old(View()), caller)
              case Ok(s) => fault.None? && View() == s
              case Throws(f) => fault == Some(f)
      ensures disabled == old(disabled)
    {
      ghost var before := threads;
      exposed := exposed || disabled.Some?;
      var i := 0;
      while i < |threads|
        invariant i <= |threads| == |before|
        invariant disabled == old(disabled) && tainted == old(tainted)
        invariant exposed == (old(exposed) || disabled.Some?)
        invariant forall j :: 0 <= j < i && j != caller && !before[j].removed ==> TL.CanPark(before[j])
        invariant forall j :: 0 <= j < i ==>
          threads[j] == if j == caller || before[j].removed then before[j] else TL.ReleaseThreadLock(before[j])
        invariant forall j :: i <= j < |threads| ==> threads[j] == before[j]
      {
        if i != caller && !threads[i].removed {
          fault := ReleaseThreadLock(i);
          if fault.Some? {
            return;
          }
        }
        i := i + 1;
      }
      assert threads == TL.ReleaseOthers(before, caller);
      holder, wanted, ran := None, {}, {};
      return None;
    }

    /** `OperationStepOverBreakpoint.DoExecute`. */
    method StepOverBreakpoint(i: nat, breakpoint: nat, sigs: TL.Signals) returns (fault: Option<Fault>)
      requires i < |threads|
      modifies this
      ensures match TL.Proceed(old(View()), i, TL.StepOver(breakpoint), sigs)
              case Ok(s) => fault.None? && View() == s
              case Throws(f) => fault == Some(f)
    {
      fault := AcquireGlobalThreadLock(i, sigs);
      if fault.Some? {
        return;
      }
      disabled := Some(breakpoint);
      threads := threads[i := TL.Resumed(threads[i])];
    }

    /** `OperationStepOverBreakpoint.ReleaseThreadLock`: enable the breakpoint, then release. */
    method EndStepOver(i: nat) returns (fault: Option<Fault>)
      modifies this
      ensures match TL.EndStepOver(old(View()), i)
              case Ok(s) => fault.None? && View() == s
              case Throws(f) => fault == Some(f)
      ensures disabled.None?
    {
      disabled := None;
      fault := ReleaseGlobalThreadLock(i);
    }
  }
}
