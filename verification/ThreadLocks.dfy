/**
 The global thread lock: stopping every other thread while one thread steps over a breakpoint,
 keeping the events that were caught meanwhile, and replaying them afterwards.
 */
module ThreadLocks {
  import opened TargetEvents

  // ------------------------------------------------------------------ state

  /** `ThreadLockData`. */
  datatype LockRecord = LockRecord(stopped: bool, stopEvent: Option<Event>, pushedRegisters: bool)

  /**
   The native thread. A trapped thread has an event nobody has processed; `reaped` says that the
   wait thread has already collected it, so that stopping the thread no longer yields it.
   */
  datatype Target = Running | Trapped(event: Event, reaped: bool) | Halted | Gone

  /**
   One engine of the process: its own fields (`busy` for having a current operation), its native
   thread, its entry `parked` in the manager's table of pending events, and what has happened to it:
   `born` events reported, the serials `delivered`, the register sets pushed and not popped.
   */
  datatype Thread = Thread(
    target: Target,
    engineStopped: bool,
    busy: bool,
    stopRequested: bool,
    threadLock: Option<LockRecord>,
    parked: Option<Event>,
    removed: bool,
    savedRegisters: int,
    born: nat,
    delivered: seq<nat>)
  {
    predicate HasThreadLock() { threadLock.Some? }

    predicate Pushed() { threadLock.Some? && threadLock.value.pushedRegisters }

    predicate InFlight() { target.Trapped? && target.reaped && !removed }
  }

  /**
   A process. `wanted` and `ran` remember, for the current lock, which threads the engine took
   to be running and which really were; `tainted` which threads were locked while their event was
   parked, or suspended while it was still waiting to be processed; `exposed` that some lock was
   released while a breakpoint was still disabled.
   */
  datatype System = System(
    threads: seq<Thread>,
    holder: Option<nat>,
    disabled: Option<nat>,
    wanted: set<nat>,
    ran: set<nat>,
    tainted: set<nat>,
    exposed: bool)

  datatype Fault = RecursiveLock | NotStopped | DuplicateStopEvent | DuplicatePendingEvent | BrokenRecord

  type Signals = nat -> Signal

  // ------------------------------------------------------- one thread's part

  function Rest(e: Event): Target {
    if IsExit(e.kind) then Gone else Halted
  }

  /** `Inferior.Stop (out event)`: the thread, whether this call stopped it, and the event it caught. */
  function Stop(t: Thread, sig: Signal): (Thread, bool, Option<Event>) {
    match t.target
    case Running =>
      var e := Event(sig.kind, sig.arg, t.born);
      (t.(target := Rest(e), born := t.born + 1), true, Some(e))
    case Trapped(e, reaped) =>
      if reaped then (t, false, None) else (t.(target := Rest(e)), true, Some(e))
    case _ => (t, false, None)
  }

  function AcquireThreadLock(t: Thread, sig: Signal): Thread
    requires !t.HasThreadLock()
  {
    if t.engineStopped then t
    else
      var (t', stopped, caught) := Stop(t, sig);
      var locked := t'.(threadLock := Some(LockRecord(stopped, caught, true)));
      if caught.Some? && IsExit(caught.value.kind) then locked
      else locked.(savedRegisters := t.savedRegisters + 1, engineStopped := true)
  }

  /** A second entry for the same engine is refused by the table of pending events. */
  predicate CanPark(t: Thread) {
    t.threadLock.Some? && t.threadLock.value.stopEvent.Some? ==> t.parked.None?
  }

  function ReleaseThreadLock(t: Thread): Thread
    requires CanPark(t)
  {
    match t.threadLock
    case None => t
    case Some(r) =>
      t.(threadLock := None,
         savedRegisters := if r.pushedRegisters then t.savedRegisters - 1 else t.savedRegisters,
         parked := if r.stopEvent.Some? then r.stopEvent else t.parked,
         engineStopped := if r.stopped then false else t.engineStopped)
  }

  function SetStopEvent(t: Thread, e: Event): Outcome<Thread, Fault>
    requires t.HasThreadLock()
  {
    if t.threadLock.value.stopEvent.Some? then Throws(DuplicateStopEvent)
    else Ok(t.(threadLock := Some(t.threadLock.value.(stopEvent := Some(e), stopped := true))))
  }

  /** `OperationCompleted`, as far as the thread locks see it. */
  function Completed(t: Thread): Thread {
    t.(engineStopped := true, stopRequested := false, busy := false)
  }

  function Delivered(t: Thread, e: Event): Thread {
    t.(delivered := t.delivered + [e.serial])
  }

  function Exited(t: Thread, e: Event): Thread {
    t.(delivered := t.delivered + [e.serial], engineStopped := true, stopRequested := false, busy := false,
       removed := true)
  }

  /** The kinds `ProcessEvent` hands back unprocessed when a stop was requested. */
  predicate KeptBySuspend(kind: EventKind) {
    kind.UnknownError? || kind.ChildMemoryChanged? || kind.ChildCalledExit?
  }

  /** What a requested stop makes of the event it caught; the request itself ends with the operation. */
  function Suspended(t: Thread, stopped: bool, e: Event, handled: bool): Thread {
    if IsExit(e.kind) then Exited(t, e)
    else if KeptBySuspend(e.kind) && !handled then
      t.(engineStopped := true, stopRequested := false, busy := false,
         threadLock := Some(LockRecord(stopped, Some(e), false)))
    else
      t.(engineStopped := true, stopRequested := false, busy := false, delivered := t.delivered + [e.serial])
  }

  /** `handled` says that the manager swallowed the event. */
  function SuspendUserThread(t: Thread, sig: Signal, handled: bool): Outcome<Thread, Fault> {
    if t.HasThreadLock() then Throws(RecursiveLock)
    else if t.engineStopped then Ok(t)
    else
      var (halted, stopped, caught) := Stop(t, sig);
      Ok(if caught.Some? then Suspended(halted, stopped, caught.value, handled) else Completed(halted))
  }

  // ---------------------------------------------------- the whole process

  predicate CanAcquire(ts: seq<Thread>, caller: nat) {
    forall i :: 0 <= i < |ts| && i != caller && !ts[i].removed ==> !ts[i].HasThreadLock()
  }

  function AcquireOthers(ts: seq<Thread>, caller: nat, sigs: Signals): (r: seq<Thread>)
    requires CanAcquire(ts, caller)
  {
    seq(|ts|, i requires 0 <= i < |ts| =>
      if i == caller || ts[i].removed then ts[i] else AcquireThreadLock(ts[i], sigs(i)))
  }

  predicate CanRelease(ts: seq<Thread>, caller: nat) {
    forall i :: 0 <= i < |ts| && i != caller && !ts[i].removed ==> CanPark(ts[i])
  }

  function ReleaseOthers(ts: seq<Thread>, caller: nat): (r: seq<Thread>)
    requires CanRelease(ts, caller)
  {
    seq(|ts|, i requires 0 <= i < |ts| =>
      if i == caller || ts[i].removed then ts[i] else ReleaseThreadLock(ts[i]))
  }

  /** The threads a lock finds with a parked event that is still to be replayed. */
  function ParkedOthers(ts: seq<Thread>, caller: nat): set<nat> {
    set i: nat | i < |ts| && i != caller && !ts[i].removed && !ts[i].engineStopped && ts[i].parked.Some?
  }

  /** The threads the engine takes to be running. */
  function NotStoppedOthers(ts: seq<Thread>, caller: nat): set<nat> {
    set i: nat | i < |ts| && i != caller && !ts[i].removed && !ts[i].engineStopped
  }

  /** The threads that are running. */
  function RunningOthers(ts: seq<Thread>, caller: nat): set<nat> {
    set i: nat | i < |ts| && i != caller && !ts[i].removed && ts[i].target.Running?
  }

  function AcquireGlobalThreadLock(s: System, caller: nat, sigs: Signals): Outcome<System, Fault> {
    if s.holder.Some? || !CanAcquire(s.threads, caller) then Throws(RecursiveLock)
    else Ok(s.(
      threads := AcquireOthers(s.threads, caller, sigs),
      holder := Some(caller),
      wanted := NotStoppedOthers(s.threads, caller),
      ran := RunningOthers(s.threads, caller),
      tainted := s.tainted + ParkedOthers(s.threads, caller)))
  }

  function ReleaseGlobalThreadLock(s: System, caller: nat): Outcome<System, Fault> {
    if !CanRelease(s.threads, caller) then Throws(DuplicatePendingEvent)
    else Ok(s.(threads := ReleaseOthers(s.threads, caller), holder := None, wanted := {}, ran := {},
                 exposed := s.exposed || s.disabled.Some?))
  }

  /** What an engine does with its stopped thread at the end of an event or command. */
  datatype Next = Resume | StepOver(breakpoint: nat) | Complete | Stay

  /** `release`: the event reached the operation that is stepping over a breakpoint. */
  datatype Reaction = Reaction(release: bool, next: Next)

  function Update(s: System, i: nat, t: Thread): System
    requires i < |s.threads|
  {
    s.(threads := s.threads[i := t])
  }

  function Resumed(t: Thread): Thread {
    if t.target.Halted? then t.(target := Running) else t
  }

  function Proceed(s: System, i: nat, next: Next, sigs: Signals): Outcome<System, Fault>
    requires i < |s.threads|
  {
    match next
    case Resume => Ok(Update(s, i, Resumed(s.threads[i])))
    case Complete => Ok(Update(s, i, Completed(s.threads[i])))
    case Stay => Ok(s)
    case StepOver(bp) =>
      var held :- AcquireGlobalThreadLock(s, i, sigs);
      Ok(Update(held.(disabled := Some(bp)), i, Resumed(held.threads[i])))
  }

  /** `OperationStepOverBreakpoint.ReleaseThreadLock`: the breakpoint goes back in before the threads do. */
  function EndStepOver(s: System, i: nat): Outcome<System, Fault> {
    ReleaseGlobalThreadLock(s.(disabled := None), i)
  }

  function Deliver(s: System, i: nat, e: Event, r: Reaction, sigs: Signals): Outcome<System, Fault>
    requires i < |s.threads|
  {
    if r.release && s.holder == Some(i) then
      var freed :- EndStepOver(s, i);
      if freed.threads[i].HasThreadLock() then
        var t :- SetStopEvent(freed.threads[i], e);
        Ok(Update(freed, i, t))
      else
        Proceed(Update(freed, i, Delivered(freed.threads[i], e)), i, r.next, sigs)
    else
      Proceed(Update(s, i, Delivered(s.threads[i], e)), i, r.next, sigs)
  }

  /** `SingleSteppingEngine.ProcessEvent`: an exit is always processed, a locked thread only remembers. */
  function ProcessEvent(s: System, i: nat, e: Event, r: Reaction, sigs: Signals): Outcome<System, Fault>
    requires i < |s.threads|
  {
    var t := s.threads[i];
    if IsExit(e.kind) then Ok(Update(s, i, Exited(t, e)))
    else if t.HasThreadLock() then
      var t' :- SetStopEvent(t, e);
      Ok(Update(s, i, t'))
    else Deliver(s, i, e, r, sigs)
  }

  /** `SingleSteppingEngine.ReleaseThreadLock (ChildEvent)`: replay of a parked event. */
  function Replay(s: System, i: nat, e: Event, r: Reaction, sigs: Signals): Outcome<System, Fault>
    requires i < |s.threads|
  {
    var t := s.threads[i];
    if e.kind.ChildStopped? && e.arg == 0 then
      Proceed(Update(s, i, Delivered(t, e)), i, if t.busy && !r.next.Complete? then r.next else Stay, sigs)
    else if e.kind.ChildInterrupted? then
      Ok(Update(s, i, Resumed(Delivered(t, e))))
    else ProcessEvent(s, i, e, r, sigs)
  }

  function StartOperation(s: System, i: nat, next: Next, sigs: Signals): Outcome<System, Fault>
    requires i < |s.threads|
  {
    var t := s.threads[i];
    if !t.engineStopped || t.HasThreadLock() then Throws(NotStopped)
    else Proceed(Update(s, i, t.(engineStopped := false, busy := true)), i,
                 if next.StepOver? then next else Resume, sigs)
  }

  function ResumeUserThread(s: System, i: nat, next: Next, sigs: Signals): Outcome<System, Fault>
    requires i < |s.threads|
  {
    var t := s.threads[i];
    match t.threadLock
    case Some(r) =>
      if r.pushedRegisters || r.stopEvent.None? then Throws(BrokenRecord)
      else if t.parked.Some? then Throws(DuplicatePendingEvent)
      else Ok(Update(s, i, t.(parked := r.stopEvent, threadLock := None, engineStopped := false, busy := true)))
    case None =>
      if !t.engineStopped then Ok(s) else StartOperation(s, i, next, sigs)
  }

  // ------------------------------------------------------------------ runs

  datatype Step =
    | Spawn                                       // a new thread starts running
    | Trap(i: nat, sig: Signal)                   // the kernel stops a running thread
    | Reap(i: nat)                                // the wait thread collects its event
    | Dispatch(i: nat, r: Reaction, sigs: Signals)// the engine thread processes it
    | Drain(i: nat, r: Reaction, sigs: Signals)   // one round of check_pending_events
    | Start(i: nat, next: Next, sigs: Signals)    // a user command on a stopped thread
    | ResumeUser(i: nat, next: Next, sigs: Signals)
    | SuspendUser(i: nat, sig: Signal, handled: bool)

  const NEW_THREAD := Thread(Running, false, true, false, None, None, false, 0, 0, [])

  predicate Present(s: System, i: nat) {
    i < |s.threads| && !s.threads[i].removed
  }

  /**
   The pending table is drained after every event and every command, so that a command finds a
   parked event of its thread only while the lock is held.
   */
  predicate Drained(s: System, i: nat)
    requires i < |s.threads|
  {
    s.holder.Some? || s.threads[i].parked.None?
  }

  /** A suspension meets no event of this thread on its way. */
  predicate Settled(t: Thread) {
    t.engineStopped || (t.parked.None? && !t.InFlight())
  }

  /** One step of the run; a step that cannot happen in `s` changes nothing. */
  function Apply(s: System, step: Step): Outcome<System, Fault> {
    match step
    case Spawn =>
      Ok(if s.holder.Some? then s else s.(threads := s.threads + [NEW_THREAD]))
    case Trap(i, sig) =>
      if Present(s, i) && s.threads[i].target.Running? then
        var t := s.threads[i];
        Ok(Update(s, i, t.(target := Trapped(Event(sig.kind, sig.arg, t.born), false), born := t.born + 1)))
      else Ok(s)
    case Reap(i) =>
      if Present(s, i) && s.threads[i].target.Trapped? && NoneInFlight(s) then
        Ok(Update(s, i, s.threads[i].(target := Trapped(s.threads[i].target.event, true))))
      else Ok(s)
    case Dispatch(i, r, sigs) =>
      if Present(s, i) && s.threads[i].InFlight() then
        var e := s.threads[i].target.event;
        ProcessEvent(Update(s, i, s.threads[i].(target := Rest(e))), i, e, r, sigs)
      else Ok(s)
    case Drain(i, r, sigs) =>
      if Present(s, i) && s.holder.None? && s.threads[i].parked.Some? then
        Replay(Update(s, i, s.threads[i].(parked := None)), i, s.threads[i].parked.value, r, sigs)
      else Ok(s)
    case Start(i, next, sigs) =>
      if Present(s, i) && Drained(s, i) then StartOperation(s, i, next, sigs) else Ok(s)
    case ResumeUser(i, next, sigs) =>
      if Present(s, i) && Drained(s, i) then ResumeUserThread(s, i, next, sigs) else Ok(s)
    case SuspendUser(i, sig, handled) =>
      if Present(s, i) then
        var t := s.threads[i];
        var t' :- SuspendUserThread(t, sig, handled);
        Ok(Update(s, i, t').(tainted := if Settled(t) then s.tainted else s.tainted + {i}))
      else Ok(s)
  }

  /** The handshake lets at most one collected event travel to the engine thread. */
  predicate NoneInFlight(s: System) {
    forall i :: 0 <= i < |s.threads| ==> !s.threads[i].InFlight()
  }

  function Run(s: System, steps: seq<Step>): Outcome<System, Fault>
    decreases |steps|
  {
    if steps == [] then Ok(s)
    else
      var s' :- Apply(s, steps[0]);
      Run(s', steps[1..])
  }

  const INITIAL := System([], None, None, {}, {}, {}, false)
}
