/**
 What each step of the lock model does, thread by thread, in terms of the event, the thread's marks
 and the command alone.
 */
module ThreadLockEffects {
  import opened TargetEvents
  import opened ThreadLocks
  import opened ThreadMail

  /** All other threads the engine took to be running in `s` are held and do not execute in `s'`. */
  predicate OthersHeld(s: System, i: nat, s': System) {
    && |s'.threads| == |s.threads|
    && forall j :: 0 <= j < |s.threads| && j != i && !s.threads[j].removed && !s.threads[j].engineStopped ==>
         && s'.threads[j].threadLock.Some? && s'.threads[j].threadLock.value.pushedRegisters
         && !s'.threads[j].target.Running?
  }

  /** Every other live thread is marked as stopped, or turned out to have exited. */
  predicate OthersMarked(i: nat, s: System) {
    forall j :: 0 <= j < |s.threads| && j != i && !s.threads[j].removed ==>
      s.threads[j].engineStopped || s.threads[j].target.Gone?
  }

  /** Thread `i` steps over the breakpoint `bp` in `s'`, having started from the threads of `s`. */
  predicate SteppingOver(s: System, i: nat, bp: nat, s': System) {
    s'.holder == Some(i) && s'.disabled == Some(bp) && OthersHeld(s, i, s') && OthersMarked(i, s')
  }

  /** The lock and the breakpoint are as they were, and so is every other thread. */
  predicate LeftAlone(s: System, i: nat, s': System) {
    && s'.holder == s.holder && s'.disabled == s.disabled && |s'.threads| == |s.threads|
    && forall j :: 0 <= j < |s.threads| && j != i ==> s'.threads[j] == s.threads[j]
  }

  lemma ProceedEffect(s: System, i: nat, next: Next, sigs: Signals)
    requires i < |s.threads| && Proceed(s, i, next, sigs).Ok?
    ensures var s' := Proceed(s, i, next, sigs).value;
            match next
            case StepOver(bp) => SteppingOver(s, i, bp, s')
            case _ => LeftAlone(s, i, s')
  {
    if next.StepOver? {
      var held := AcquireGlobalThreadLock(s, i, sigs).value;
      forall j | 0 <= j < |s.threads| && j != i && !s.threads[j].removed
        ensures held.threads[j].engineStopped || held.threads[j].target.Gone?
        ensures !s.threads[j].engineStopped ==>
                  && held.threads[j].threadLock.Some? && held.threads[j].threadLock.value.pushedRegisters
                  && !held.threads[j].target.Running?
      {
        assert held.threads[j] == AcquireThreadLock(s.threads[j], sigs(j));
      }
    }
  }

  // ------------------------------------------------------------- commands

  /** The thread runs with an operation and is not marked as stopped. */
  predicate SetGoing(t: Thread, t': Thread) {
    && !t'.engineStopped && t'.busy && t'.delivered == t.delivered && t'.parked == t.parked
    && (t.target.Halted? ==> t'.target.Running?)
  }

  lemma StartEffect(s: System, i: nat, next: Next, sigs: Signals)
    requires i < |s.threads| && StartOperation(s, i, next, sigs).Ok?
    ensures var s' := StartOperation(s, i, next, sigs).value;
            && s.threads[i].engineStopped && s.threads[i].threadLock.None?
            && (match next case StepOver(bp) => SteppingOver(s, i, bp, s') case _ => LeftAlone(s, i, s'))
            && SetGoing(s.threads[i], s'.threads[i])
  {
    var begun := Update(s, i, s.threads[i].(engineStopped := false, busy := true));
    var next' := if next.StepOver? then next else Resume;
    ProceedEffect(begun, i, next', sigs);
    ActorProceeds(begun, i, next', sigs);
  }

  /**
   A command to a thread whose event is not in the way: it is refused exactly unless the thread is
   marked as stopped without a record and, for a step over a breakpoint, the lock can be taken. Then
   the thread is set going; at a breakpoint the lock is taken, the breakpoint disabled and every other
   thread held, and otherwise nothing else changes.
   */
  lemma CommandStartsThread(s: System, i: nat, next: Next, sigs: Signals)
    requires Present(s, i) && Drained(s, i)
    ensures var o := Apply(s, Start(i, next, sigs));
            && (o.Ok? <==>
                && s.threads[i].engineStopped && s.threads[i].threadLock.None?
                && (next.StepOver? ==> s.holder.None? && NoOtherRecord(s.threads, i)))
            && (o.Ok? ==>
                  && (match next
                      case StepOver(bp) => SteppingOver(s, i, bp, o.value)
                      case _ => LeftAlone(s, i, o.value))
                  && SetGoing(s.threads[i], o.value.threads[i]))
  {
    var o := Apply(s, Start(i, next, sigs));
    if o.Ok? {
      StartEffect(s, i, next, sigs);
    }
    OnlyOthersMatter(s.threads, i, s.threads[i].(engineStopped := false, busy := true));
  }

  /** No other live thread has a record. */
  predicate NoOtherRecord(ts: seq<Thread>, i: nat) {
    forall j :: 0 <= j < |ts| && j != i && !ts[j].removed ==> ts[j].threadLock.None?
  }

  lemma OnlyOthersMatter(ts: seq<Thread>, i: nat, t: Thread)
    requires i < |ts|
    ensures CanAcquire(ts[i := t], i) <==> NoOtherRecord(ts, i)
  {
    if NoOtherRecord(ts, i) {
      assert forall j :: 0 <= j < |ts| && j != i ==> ts[i := t][j] == ts[j];
    }
    if CanAcquire(ts[i := t], i) {
      forall j | 0 <= j < |ts| && j != i && !ts[j].removed
        ensures ts[j].threadLock.None?
      {
        assert ts[i := t][j] == ts[j];
      }
    }
  }

  /**
   Resuming a thread: a kept event goes back to the pending table and nothing else happens; a thread
   that is not marked as stopped is left alone; any other is started like by a command.
   */
  lemma ResumeEffect(s: System, i: nat, next: Next, sigs: Signals)
    requires Present(s, i) && Drained(s, i) && Apply(s, ResumeUser(i, next, sigs)).Ok?
    ensures var t, s' := s.threads[i], Apply(s, ResumeUser(i, next, sigs)).value;
            if t.threadLock.Some? then
              && LeftAlone(s, i, s') && s'.threads[i].parked == t.threadLock.value.stopEvent
              && s'.threads[i].parked.Some? && s'.threads[i].threadLock.None? && t.parked.None?
              && !s'.threads[i].engineStopped && s'.threads[i].busy && s'.threads[i].target == t.target
            else if !t.engineStopped then s' == s
            else
              && (match next case StepOver(bp) => SteppingOver(s, i, bp, s') case _ => LeftAlone(s, i, s'))
              && SetGoing(t, s'.threads[i])
  {
    if s.threads[i].threadLock.None? && s.threads[i].engineStopped {
      StartEffect(s, i, next, sigs);
    }
  }

  // --------------------------------------------------------------- events

  predicate ExitKind(kind: EventKind) {
    kind == ChildExited || kind == ChildSignaled
  }

  /** The event was delivered, and the thread goes on, has ended its operation, or waits. */
  predicate Handled(t: Thread, e: Event, next: Next, t': Thread) {
    && t'.delivered == t.delivered + [e.serial] && t'.threadLock == t.threadLock
    && (match next
        case Resume => (t.target.Halted? ==> t'.target.Running?) && t'.engineStopped == t.engineStopped
        case StepOver(_) => (t.target.Halted? ==> t'.target.Running?) && t'.engineStopped == t.engineStopped
        case Complete => t'.target == t.target && t'.engineStopped && !t'.busy && !t'.stopRequested
        case Stay => t'.target == t.target && t'.engineStopped == t.engineStopped && t'.busy == t.busy)
  }

  lemma DeliverEffect(s: System, i: nat, e: Event, r: Reaction, sigs: Signals)
    requires i < |s.threads| && !s.threads[i].HasThreadLock() && Deliver(s, i, e, r, sigs).Ok?
    ensures var s' := Deliver(s, i, e, r, sigs).value;
            && |s'.threads| == |s.threads| && Handled(s.threads[i], e, r.next, s'.threads[i])
            && (match r.next
                case StepOver(bp) => s'.holder == Some(i) && s'.disabled == Some(bp) && OthersMarked(i, s')
                case _ =>
                  if r.release && s.holder == Some(i)
                  then s'.holder.None? && s'.disabled.None? && Released(s, i, s')
                  else LeftAlone(s, i, s'))
  {
    ActorDelivers(s, i, e, r, sigs);
    if r.release && s.holder == Some(i) {
      var freed := EndStepOver(s, i).value;
      assert freed.threads[i] == s.threads[i];
      ProceedEffect(Update(freed, i, Delivered(freed.threads[i], e)), i, r.next, sigs);
      ReleaseEffect(s, i);
    } else {
      ProceedEffect(Update(s, i, Delivered(s.threads[i], e)), i, r.next, sigs);
    }
  }

  /** Every other thread lost its record; an event in it is parked, and a thread the lock stopped is not marked. */
  predicate Released(s: System, i: nat, s': System) {
    && |s'.threads| == |s.threads|
    && forall j :: 0 <= j < |s.threads| && j != i && !s.threads[j].removed ==>
         && s'.threads[j].threadLock.None? && s'.threads[j].target == s.threads[j].target
         && (s.threads[j].threadLock.Some? ==>
               && var record := s.threads[j].threadLock.value;
                  && (record.stopEvent.Some? ==> s'.threads[j].parked == record.stopEvent)
                  && (record.stopped ==> !s'.threads[j].engineStopped)
                  && (!record.stopped ==> s'.threads[j].engineStopped == s.threads[j].engineStopped))
  }

  lemma ReleaseEffect(s: System, i: nat)
    requires EndStepOver(s, i).Ok?
    ensures var s' := EndStepOver(s, i).value;
            s'.holder.None? && s'.disabled.None? && Released(s, i, s')
  {
  }

  /** What processing the event `e` of thread `i`, taken out of its place already, leaves. */
  predicate Processed(s: System, i: nat, e: Event, r: Reaction, s': System)
    requires i < |s.threads|
  {
    var t := s.threads[i];
    && |s'.threads| == |s.threads|
    && if ExitKind(e.kind) then
         && LeftAlone(s, i, s') && s'.threads[i].removed && s'.threads[i].engineStopped
         && s'.threads[i].target == t.target && s'.threads[i].delivered == t.delivered + [e.serial]
       else if t.threadLock.Some? then
         && LeftAlone(s, i, s') && s'.threads[i].target == t.target && s'.threads[i].delivered == t.delivered
         && s'.threads[i].threadLock == Some(LockRecord(true, Some(e), t.threadLock.value.pushedRegisters))
         && t.threadLock.value.stopEvent.None?
       else
         && Handled(t, e, r.next, s'.threads[i])
         && (match r.next
             case StepOver(bp) => s'.holder == Some(i) && s'.disabled == Some(bp) && OthersMarked(i, s')
             case _ =>
               if r.release && s.holder == Some(i) then s'.holder.None? && s'.disabled.None? && Released(s, i, s')
               else LeftAlone(s, i, s'))
  }

  lemma ProcessEffect(s: System, i: nat, e: Event, r: Reaction, sigs: Signals)
    requires i < |s.threads| && ProcessEvent(s, i, e, r, sigs).Ok?
    ensures Processed(s, i, e, r, ProcessEvent(s, i, e, r, sigs).value)
  {
    if !ExitKind(e.kind) && s.threads[i].threadLock.None? {
      DeliverEffect(s, i, e, r, sigs);
    }
  }

  /**
   The engine thread processes a collected event: an exit removes the thread whatever its locks say; a
   locked thread only remembers the event; otherwise the event is delivered, an event that reaches the
   step over a breakpoint ends it first, and the reaction decides how the thread goes on.
   */
  lemma DispatchEffect(s: System, i: nat, r: Reaction, sigs: Signals)
    requires Present(s, i) && s.threads[i].InFlight() && Apply(s, Dispatch(i, r, sigs)).Ok?
    ensures var e := s.threads[i].target.event;
            var taken := s.threads[i].(target := if ExitKind(e.kind) then Gone else Halted);
            Processed(s.(threads := s.threads[i := taken]), i, e, r, Apply(s, Dispatch(i, r, sigs)).value)
  {
    var e := s.threads[i].target.event;
    var taken := s.threads[i].(target := if ExitKind(e.kind) then Gone else Halted);
    ProcessEffect(Update(s, i, taken), i, e, r, sigs);
  }

  /** Thread `i` has this event in the pending table, and the table can be drained. */
  predicate Drainable(s: System, i: nat, e: Event) {
    Present(s, i) && s.holder.None? && s.threads[i].parked == Some(e)
  }

  /** Draining a plain stop only lets the operation go on, if there is one and it does not end. */
  lemma DrainOfPlainStop(s: System, i: nat, e: Event, r: Reaction, sigs: Signals)
    requires Drainable(s, i, e) && e.kind == ChildStopped && e.arg == 0 && Apply(s, Drain(i, r, sigs)).Ok?
    ensures var t, s' := s.threads[i], Apply(s, Drain(i, r, sigs)).value;
            && |s'.threads| == |s.threads| && s'.threads[i].parked.None?
            && Handled(t.(parked := None), e, if t.busy && !r.next.Complete? then r.next else Stay, s'.threads[i])
  {
    var t := s.threads[i];
    var s' := Update(s, i, t.(parked := None));
    var next := if t.busy && !r.next.Complete? then r.next else Stay;
    assert Apply(s, Drain(i, r, sigs)) == Proceed(Update(s', i, Delivered(s'.threads[i], e)), i, next, sigs);
    ActorProceeds(Update(s', i, Delivered(s'.threads[i], e)), i, next, sigs);
  }

  /** Draining an interrupt sets the thread running and does nothing else. */
  lemma DrainOfInterrupt(s: System, i: nat, e: Event, r: Reaction, sigs: Signals)
    requires Drainable(s, i, e) && e.kind == ChildInterrupted
    ensures var o := Apply(s, Drain(i, r, sigs));
            && o.Ok? && LeftAlone(s, i, o.value) && o.value.threads[i].parked.None?
            && Handled(s.threads[i].(parked := None), e, Resume, o.value.threads[i])
  {
  }

  /** Any other event is processed as if it had just been collected. */
  lemma DrainOfOtherEvent(s: System, i: nat, e: Event, r: Reaction, sigs: Signals)
    requires Drainable(s, i, e) && e.kind != ChildInterrupted && !(e.kind == ChildStopped && e.arg == 0)
    requires Apply(s, Drain(i, r, sigs)).Ok?
    ensures Processed(s.(threads := s.threads[i := s.threads[i].(parked := None)]), i, e, r,
                      Apply(s, Drain(i, r, sigs)).value)
  {
    ProcessEffect(Update(s, i, s.threads[i].(parked := None)), i, e, r, sigs);
  }

  /**
   A suspension, by the kind of the event it catches: an exit removes the thread; the three kinds that
   are handed back are kept in a record unless the manager swallowed them; any other is delivered.
   */
  lemma SuspendEffect(t: Thread, sig: Signal, handled: bool)
    requires t.threadLock.None? && !t.engineStopped && t.target.Running?
    ensures var o := SuspendUserThread(t, sig, handled);
            && o.Ok? && o.value.engineStopped && !o.value.busy && !o.value.stopRequested
            && (o.value.removed <==> t.removed || ExitKind(sig.kind))
            && (o.value.threadLock.Some? <==>
                !handled && (sig.kind == UnknownError || sig.kind == ChildMemoryChanged || sig.kind == ChildCalledExit))
            && (o.value.threadLock.Some? ==>
                  o.value.threadLock.value == LockRecord(true, Some(Event(sig.kind, sig.arg, t.born)), false)
                  && o.value.delivered == t.delivered)
            && (o.value.threadLock.None? ==> o.value.delivered == t.delivered + [t.born])
  {
  }
}
