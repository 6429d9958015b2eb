/**
 Safety of the step over a breakpoint in every run, what holds of every thread that was never locked
 or suspended with an event on its way, and how the rest goes wrong.
 */
module ThreadLockProofs {
  import opened TargetEvents
  import opened ThreadLocks
  import opened ThreadMail
  import opened ThreadMailProofs

  // ------------------------------------- what holds in every run whatsoever

  /** The thread is held by the current lock and does not execute. */
  predicate Frozen(s: System, i: nat) {
    i < |s.threads| && (s.threads[i].removed || (s.threads[i].Pushed() && !s.threads[i].target.Running?))
  }

  predicate CoveredThread(t: Thread, i: nat, holder: Option<nat>) {
    t.Pushed() && !t.removed ==> holder.Some? && holder.value != i && !t.target.Running?
  }

  predicate Covered(s: System) {
    && (s.disabled.Some? ==> s.holder.Some?) && !s.exposed
    && (forall i :: 0 <= i < |s.threads| ==> CoveredThread(s.threads[i], i, s.holder))
    && (s.holder.Some? ==> forall i :: i in s.wanted ==> Frozen(s, i))
  }

  // ------------------------------------ what holds of an untainted thread

  predicate Holds(o: Option<Event>, serial: nat) {
    o.Some? && o.value.serial == serial
  }

  /** The record says stopped, holds the outstanding event, and belongs to a stopped engine. */
  predicate FullRecord(t: Thread, r: LockRecord) {
    r.stopped && Holds(r.stopEvent, |t.delivered|) && t.born == |t.delivered| + 1 && t.parked.None?
  }

  /** The lock found the thread already stopped; nothing was caught. */
  predicate EmptyRecord(t: Thread, r: LockRecord) {
    r == LockRecord(false, None, true) && t.parked.None?
  }

  /**
   Every event ever reported was delivered, in order, except at most one; and that one is in
   exactly one place: with the trapped thread, in the lock record, or in the pending table.
   */
  predicate ExactThread(t: Thread, i: nat, holder: Option<nat>) {
    && InOrder(t.delivered)
    && (t.removed ==> t.born == |t.delivered|)
    && !t.stopRequested
    && (!t.removed ==>
      && (t.Pushed() ==> holder.Some? && holder.value != i)
      && (!t.target.Gone? ==> t.savedRegisters == if t.Pushed() then 1 else 0)
      && match t.target
         case Running =>
           !t.engineStopped && t.threadLock.None? && t.parked.None? && t.born == |t.delivered|
         case Trapped(e, reaped) =>
           && e.serial == |t.delivered| && t.born == |t.delivered| + 1 && t.parked.None?
           && (t.threadLock.None? ==> !t.engineStopped)
           && (t.threadLock.Some? ==> reaped && t.engineStopped && EmptyRecord(t, t.threadLock.value))
         case Halted =>
           (match t.threadLock
            case None =>
              if t.parked.None? then t.born == |t.delivered|
              else Holds(t.parked, |t.delivered|) && t.born == |t.delivered| + 1
                   && !t.engineStopped && !IsExit(t.parked.value.kind)
            case Some(r) =>
              t.engineStopped && if r.stopEvent.None? then EmptyRecord(t, r) && t.born == |t.delivered|
                                 else FullRecord(t, r) && !IsExit(r.stopEvent.value.kind))
         case Gone =>
           && !t.engineStopped && t.born == |t.delivered| + 1
           && (match t.threadLock
               case None => Holds(t.parked, |t.delivered|) && IsExit(t.parked.value.kind)
               case Some(r) => FullRecord(t, r) && IsExit(r.stopEvent.value.kind)))
  }

  predicate OneInFlight(s: System) {
    forall i, j :: (0 <= i < |s.threads| && 0 <= j < |s.threads|
                    && s.threads[i].InFlight() && s.threads[j].InFlight()) ==> i == j
  }

  predicate Exact(s: System) {
    && (forall i :: 0 <= i < |s.threads| && i !in s.tainted ==> ExactThread(s.threads[i], i, s.holder))
    && OneInFlight(s)
    && RanAsWanted(s)
  }

  /** Of the untainted threads, those that ran when the lock was taken were known to run. */
  predicate RanAsWanted(s: System) {
    forall i :: i in s.ran && i !in s.tainted ==> i in s.wanted
  }

  // ---------------------------------------------------------------- proofs

  lemma AcquireKeepsCovered(s: System, i: nat, sigs: Signals)
    requires Covered(s) && i < |s.threads|
    ensures var o := AcquireGlobalThreadLock(s, i, sigs); o.Ok? ==> Covered(o.value) && o.value.holder == Some(i)
  {
    var o := AcquireGlobalThreadLock(s, i, sigs);
    if o.Ok? {
      forall j | 0 <= j < |s.threads|
        ensures CoveredThread(o.value.threads[j], j, Some(i))
        ensures j in o.value.wanted ==> Frozen(o.value, j)
      {
        var t := s.threads[j];
        assert CoveredThread(t, j, s.holder);
        if j != i && !t.removed {
          assert o.value.threads[j] == AcquireThreadLock(t, sigs(j));
        }
      }
    }
  }

  lemma ProceedKeepsCovered(s: System, i: nat, next: Next, sigs: Signals)
    requires Covered(s) && i < |s.threads| && !s.threads[i].removed
    requires !s.threads[i].Pushed()
    ensures var o := Proceed(s, i, next, sigs); o.Ok? ==> Covered(o.value)
  {
    if next.StepOver? {
      AcquireKeepsCovered(s, i, sigs);
    }
  }

  lemma ReleaseKeepsCovered(s: System, i: nat)
    requires Covered(s) && s.holder == Some(i)
    ensures var o := EndStepOver(s, i); o.Ok? ==> Covered(o.value) && |o.value.threads| == |s.threads|
  {
  }

  lemma DeliverKeepsCovered(s: System, i: nat, e: Event, r: Reaction, sigs: Signals)
    requires Covered(s) && i < |s.threads| && !s.threads[i].removed && !s.threads[i].HasThreadLock()
    ensures var o := Deliver(s, i, e, r, sigs); o.Ok? ==> Covered(o.value)
  {
    if r.release && s.holder == Some(i) {
      ReleaseKeepsCovered(s, i);
      var freed := EndStepOver(s, i);
      if freed.Ok? {
        var s' := Update(freed.value, i, Delivered(freed.value.threads[i], e));
        ProceedKeepsCovered(s', i, r.next, sigs);
      }
    } else {
      ProceedKeepsCovered(Update(s, i, Delivered(s.threads[i], e)), i, r.next, sigs);
    }
  }

  lemma ProcessKeepsCovered(s: System, i: nat, e: Event, r: Reaction, sigs: Signals)
    requires Covered(s) && Present(s, i)
    ensures var o := ProcessEvent(s, i, e, r, sigs); o.Ok? ==> Covered(o.value)
  {
    if !IsExit(e.kind) && !s.threads[i].HasThreadLock() {
      DeliverKeepsCovered(s, i, e, r, sigs);
    }
  }

  lemma ReplayKeepsCovered(s: System, i: nat, e: Event, r: Reaction, sigs: Signals)
    requires Covered(s) && Present(s, i) && s.holder.None?
    ensures var o := Replay(s, i, e, r, sigs); o.Ok? ==> Covered(o.value)
  {
    var t := s.threads[i];
    assert CoveredThread(t, i, s.holder);
    if e.kind.ChildStopped? && e.arg == 0 {
      ProceedKeepsCovered(Update(s, i, Delivered(t, e)), i, if t.busy && !r.next.Complete? then r.next else Stay, sigs);
    } else if !e.kind.ChildInterrupted? {
      ProcessKeepsCovered(s, i, e, r, sigs);
    }
  }

  lemma StartKeepsCovered(s: System, i: nat, next: Next, sigs: Signals)
    requires Covered(s) && Present(s, i)
    ensures var o := StartOperation(s, i, next, sigs); o.Ok? ==> Covered(o.value)
  {
    var t := s.threads[i];
    if t.engineStopped && !t.HasThreadLock() {
      ProceedKeepsCovered(Update(s, i, t.(engineStopped := false, busy := true)), i,
                          if next.StepOver? then next else Resume, sigs);
    }
  }

  lemma ResumeKeepsCovered(s: System, i: nat, next: Next, sigs: Signals)
    requires Covered(s) && Present(s, i)
    ensures var o := ResumeUserThread(s, i, next, sigs); o.Ok? ==> Covered(o.value)
  {
    StartKeepsCovered(s, i, next, sigs);
  }

  lemma OneThreadKeepsCovered(s: System, step: Step)
    requires Covered(s) && (step.Spawn? || step.Trap? || step.Reap? || step.SuspendUser?)
    ensures var o := Apply(s, step); o.Ok? ==> Covered(o.value)
  {
  }

  lemma ApplyKeepsCovered(s: System, step: Step)
    requires Covered(s)
    ensures var o := Apply(s, step); o.Ok? ==> Covered(o.value)
  {
    match step
    case Dispatch(i, r, sigs) =>
      if Present(s, i) && s.threads[i].InFlight() {
        var e := s.threads[i].target.event;
        var s' := Update(s, i, s.threads[i].(target := Rest(e)));
        ProcessKeepsCovered(s', i, e, r, sigs);
      }
    case Drain(i, r, sigs) =>
      if Present(s, i) && s.holder.None? && s.threads[i].parked.Some? {
        ReplayKeepsCovered(Update(s, i, s.threads[i].(parked := None)), i, s.threads[i].parked.value, r, sigs);
      }
    case Start(i, next, sigs) =>
      if Present(s, i) {
        StartKeepsCovered(s, i, next, sigs);
      }
    case ResumeUser(i, next, sigs) =>
      if Present(s, i) {
        ResumeKeepsCovered(s, i, next, sigs);
      }
    case _ => OneThreadKeepsCovered(s, step);
  }

  /** A lock keeps an exact thread exact if and only if it finds no event parked for it. */
  lemma AcquireKeepsThreadExact(t: Thread, i: nat, c: nat, sig: Signal)
    requires ExactThread(t, i, None) && !t.HasThreadLock() && !t.removed && i != c
    ensures ExactThread(AcquireThreadLock(t, sig), i, Some(c)) <==> t.engineStopped || t.parked.None?
  {
  }

  lemma ReleaseKeepsThreadExact(t: Thread, i: nat, c: nat)
    requires ExactThread(t, i, Some(c)) && !t.removed && i != c && !t.InFlight()
    ensures CanPark(t) && ExactThread(ReleaseThreadLock(t), i, None)
  {
  }

  lemma AcquireKeepsExact(s: System, i: nat, sigs: Signals)
    requires Exact(s) && i < |s.threads|
    ensures var o := AcquireGlobalThreadLock(s, i, sigs); o.Ok? ==> Exact(o.value)
  {
    var o := AcquireGlobalThreadLock(s, i, sigs);
    if o.Ok? {
      forall j: nat | j < |s.threads|
        ensures j !in o.value.tainted ==> ExactThread(o.value.threads[j], j, Some(i))
        ensures o.value.threads[j].InFlight() == s.threads[j].InFlight()
      {
        if j !in o.value.tainted && j != i && !s.threads[j].removed {
          assert ExactThread(s.threads[j], j, None);
          AcquireKeepsThreadExact(s.threads[j], j, i, sigs(j));
        }
      }
    }
  }

  /** Thread `i` is between taking its outstanding event `e` and doing something with it. */
  predicate LooseThread(t: Thread, i: nat, e: Event, holder: Option<nat>) {
    && !t.stopRequested && InOrder(t.delivered) && e.serial == |t.delivered| && t.born == |t.delivered| + 1
    && t.target == Rest(e) && t.parked.None?
    && (t.Pushed() ==> holder.Some? && holder.value != i)
    && (!t.target.Gone? ==> t.savedRegisters == if t.Pushed() then 1 else 0)
    && (t.threadLock.None? ==> !t.engineStopped)
    && (t.threadLock.Some? ==> t.engineStopped && EmptyRecord(t, t.threadLock.value))
  }

  predicate Loose(s: System, i: nat, e: Event) {
    && Present(s, i)
    && (forall j :: 0 <= j < |s.threads| && j != i && j !in s.tainted ==> ExactThread(s.threads[j], j, s.holder))
    && OneInFlight(s) && (s.holder == Some(i) ==> NoneInFlight(s))
    && RanAsWanted(s)
    && (i !in s.tainted ==> LooseThread(s.threads[i], i, e, s.holder))
  }

  lemma ReleaseKeepsLoose(s: System, i: nat, e: Event)
    requires Loose(s, i, e) && s.holder == Some(i) && EndStepOver(s, i).Ok?
    ensures Loose(EndStepOver(s, i).value, i, e)
    ensures EndStepOver(s, i).value.threads[i] == s.threads[i]
    ensures EndStepOver(s, i).value.tainted == s.tainted
  {
    forall j | 0 <= j < |s.threads| && j != i && !s.threads[j].removed && j !in s.tainted
      ensures ExactThread(ReleaseThreadLock(s.threads[j]), j, None)
    {
      ReleaseKeepsThreadExact(s.threads[j], j, i);
    }
  }

  /** Thread `i` has just had its event delivered, or is just being started. */
  predicate Idle(s: System, i: nat) {
    && Present(s, i) && Exact(s)
    && var t := s.threads[i];
       i !in s.tainted ==> t.target.Halted? && t.threadLock.None? && t.parked.None? && !t.engineStopped
  }

  lemma ProceedKeepsExact(s: System, i: nat, next: Next, sigs: Signals)
    requires Idle(s, i)
    ensures var o := Proceed(s, i, next, sigs); o.Ok? ==> Exact(o.value)
  {
    if next.StepOver? {
      AcquireKeepsExact(s, i, sigs);
    }
  }

  lemma DeliverKeepsExact(s: System, i: nat, e: Event, r: Reaction, sigs: Signals)
    requires Loose(s, i, e) && !IsExit(e.kind) && !s.threads[i].HasThreadLock()
    ensures var o := Deliver(s, i, e, r, sigs); o.Ok? ==> Exact(o.value)
  {
    var s0 := s;
    if r.release && s.holder == Some(i) {
      if EndStepOver(s, i).Throws? { return; }
      ReleaseKeepsLoose(s, i, e);
      s0 := EndStepOver(s, i).value;
    }
    DeliveredIsIdle(s0, i, e);
    ProceedKeepsExact(Update(s0, i, Delivered(s0.threads[i], e)), i, r.next, sigs);
  }

  lemma DeliveredIsIdle(s: System, i: nat, e: Event)
    requires Loose(s, i, e) && !IsExit(e.kind) && !s.threads[i].HasThreadLock()
    ensures Idle(Update(s, i, Delivered(s.threads[i], e)), i)
  {
  }

  lemma ProcessKeepsExact(s: System, i: nat, e: Event, r: Reaction, sigs: Signals)
    requires Loose(s, i, e)
    ensures var o := ProcessEvent(s, i, e, r, sigs); o.Ok? ==> Exact(o.value)
  {
    if !IsExit(e.kind) && !s.threads[i].HasThreadLock() {
      DeliverKeepsExact(s, i, e, r, sigs);
    }
  }

  lemma ReplayKeepsExact(s: System, i: nat, e: Event, r: Reaction, sigs: Signals)
    requires Loose(s, i, e) && (i !in s.tainted ==> s.threads[i].threadLock.None?)
    ensures var o := Replay(s, i, e, r, sigs); o.Ok? ==> Exact(o.value)
  {
    var t := s.threads[i];
    if e.kind.ChildStopped? && e.arg == 0 {
      ProceedKeepsExact(Update(s, i, Delivered(t, e)), i, if t.busy && !r.next.Complete? then r.next else Stay, sigs);
    } else if !e.kind.ChildInterrupted? {
      ProcessKeepsExact(s, i, e, r, sigs);
    }
  }

  lemma StartKeepsExact(s: System, i: nat, next: Next, sigs: Signals)
    requires Exact(s) && Present(s, i)
    ensures var o := StartOperation(s, i, next, sigs); o.Ok? ==> Exact(o.value)
  {
    var t := s.threads[i];
    if t.engineStopped && !t.HasThreadLock() {
      ProceedKeepsExact(Update(s, i, t.(engineStopped := false, busy := true)), i,
                        if next.StepOver? then next else Resume, sigs);
    }
  }

  /** A suspension keeps an exact thread exact if and only if no event of it is on its way. */
  lemma SuspendKeepsThreadExact(t: Thread, i: nat, holder: Option<nat>, sig: Signal, handled: bool)
    requires ExactThread(t, i, holder) && !t.removed && SuspendUserThread(t, sig, handled).Ok?
    ensures ExactThread(SuspendUserThread(t, sig, handled).value, i, holder) <==> Settled(t)
  {
  }

  lemma KernelKeepsExact(s: System, step: Step)
    requires Exact(s) && (step.Spawn? || step.Trap? || step.Reap?) && Apply(s, step).Ok?
    ensures Exact(Apply(s, step).value)
  {
  }

  lemma DispatchKeepsExact(s: System, i: nat, r: Reaction, sigs: Signals)
    requires Exact(s) && Apply(s, Dispatch(i, r, sigs)).Ok?
    ensures Exact(Apply(s, Dispatch(i, r, sigs)).value)
  {
    if Present(s, i) && s.threads[i].InFlight() {
      var e := s.threads[i].target.event;
      var s' := Update(s, i, s.threads[i].(target := Rest(e)));
      assert i !in s.tainted ==> ExactThread(s.threads[i], i, s.holder);
      ProcessKeepsExact(s', i, e, r, sigs);
    }
  }

  lemma DrainKeepsExact(s: System, i: nat, r: Reaction, sigs: Signals)
    requires Exact(s) && Apply(s, Drain(i, r, sigs)).Ok?
    ensures Exact(Apply(s, Drain(i, r, sigs)).value)
  {
    if Present(s, i) && s.holder.None? && s.threads[i].parked.Some? {
      var t := s.threads[i];
      assert i !in s.tainted ==> ExactThread(t, i, None);
      ReplayKeepsExact(Update(s, i, t.(parked := None)), i, t.parked.value, r, sigs);
    }
  }

  lemma ResumeKeepsExact(s: System, i: nat, next: Next, sigs: Signals)
    requires Exact(s) && Apply(s, ResumeUser(i, next, sigs)).Ok?
    ensures Exact(Apply(s, ResumeUser(i, next, sigs)).value)
  {
    if Present(s, i) {
      assert i !in s.tainted ==> ExactThread(s.threads[i], i, s.holder);
      StartKeepsExact(s, i, next, sigs);
    }
  }

  lemma SuspendKeepsExact(s: System, i: nat, sig: Signal, handled: bool)
    requires Exact(s) && Apply(s, SuspendUser(i, sig, handled)).Ok?
    ensures Exact(Apply(s, SuspendUser(i, sig, handled)).value)
  {
    if Present(s, i) {
      var t := s.threads[i];
      if i !in s.tainted && Settled(t) {
        SuspendKeepsThreadExact(t, i, s.holder, sig, handled);
      }
      SuspendCollectsNothing(t, sig, handled);
    }
  }

  /** Suspending a thread does not put an event on its way to the engine thread. */
  lemma SuspendCollectsNothing(t: Thread, sig: Signal, handled: bool)
    ensures var o := SuspendUserThread(t, sig, handled); o.Ok? && o.value.InFlight() ==> t.InFlight()
  {
  }

  lemma ApplyKeepsExact(s: System, step: Step)
    requires Exact(s) && Apply(s, step).Ok?
    ensures Exact(Apply(s, step).value)
  {
    match step
    case Dispatch(i, r, sigs) => DispatchKeepsExact(s, i, r, sigs);
    case Drain(i, r, sigs) => DrainKeepsExact(s, i, r, sigs);
    case Start(i, next, sigs) =>
      if Present(s, i) {
        StartKeepsExact(s, i, next, sigs);
      }
    case ResumeUser(i, next, sigs) => ResumeKeepsExact(s, i, next, sigs);
    case SuspendUser(i, sig, handled) => SuspendKeepsExact(s, i, sig, handled);
    case _ => KernelKeepsExact(s, step);
  }

  /** Extending a run by one step. */
  lemma {:induction false} RunSnoc(s: System, steps: seq<Step>, step: Step)
    ensures Run(s, steps + [step]) ==
            match Run(s, steps) case Ok(s') => Apply(s', step) case Throws(f) => Throws(f)
    decreases |steps|
  {
    if steps == [] {
      assert ([step])[1..] == [];
      assert steps + [step] == [step];
      assert Run(s, [step]) == match Apply(s, step) case Ok(s') => Run(s', []) case Throws(f) => Throws(f);
    } else {
      assert (steps + [step])[1..] == steps[1..] + [step];
      var o := Apply(s, steps[0]);
      if o.Ok? {
        RunSnoc(o.value, steps[1..], step);
      }
    }
  }

  /**
   Step-over safety, in every run: a breakpoint is only ever out while the lock is held, is back
   before the lock is released, and the threads the engine took to be running when the lock was
   taken do not execute until it is released.
   */
  lemma {:induction false} StepOverIsCovered(s: System, steps: seq<Step>)
    requires Covered(s) && Run(s, steps).Ok?
    ensures Covered(Run(s, steps).value)
    decreases |steps|
  {
    if steps != [] {
      ApplyKeepsCovered(s, steps[0]);
      StepOverIsCovered(Apply(s, steps[0]).value, steps[1..]);
    }
  }

  lemma {:induction false} RunsAreExact(s: System, steps: seq<Step>)
    requires Exact(s) && Run(s, steps).Ok?
    ensures Exact(Run(s, steps).value)
    decreases |steps|
  {
    if steps != [] {
      ApplyKeepsExact(s, steps[0]);
      RunsAreExact(Apply(s, steps[0]).value, steps[1..]);
    }
  }

  // ---------------------------------------------------------- main results

  /**
   In every run, a thread that was really running when the lock was taken is stopped or gone, unless
   it was itself locked with a parked event, or suspended with an event on its way, before.
   */
  lemma RunningThreadsStayStopped(steps: seq<Step>, i: nat)
    requires Run(INITIAL, steps).Ok?
    requires var s := Run(INITIAL, steps).value; s.holder.Some? && i in s.ran && i !in s.tainted
    ensures var s := Run(INITIAL, steps).value; Frozen(s, i) && !(Present(s, i) && s.threads[i].target.Running?)
  {
    RunsAreExact(INITIAL, steps);
    StepOverIsCovered(INITIAL, steps);
  }

  predicate SameMail(t: Thread, t': Thread) {
    t'.delivered == t.delivered && (t.parked.Some? ==> t'.parked == t.parked)
  }

  lemma ProceedKeepsMail(s: System, j: nat, next: Next, sigs: Signals, i: nat)
    requires j < |s.threads| && i < |s.threads| && i != j
    ensures var o := Proceed(s, j, next, sigs);
            o.Ok? ==> |o.value.threads| == |s.threads| && SameMail(s.threads[i], o.value.threads[i])
  {
    if next.StepOver? && !s.threads[i].removed {
      var held := AcquireGlobalThreadLock(s, j, sigs);
      if held.Ok? {
        assert held.value.threads[i] == AcquireThreadLock(s.threads[i], sigs(i));
      }
    }
  }

  lemma DeliverKeepsMail(s: System, j: nat, e: Event, r: Reaction, sigs: Signals, i: nat)
    requires j < |s.threads| && i < |s.threads| && i != j
    ensures var o := Deliver(s, j, e, r, sigs);
            o.Ok? ==> |o.value.threads| == |s.threads| && SameMail(s.threads[i], o.value.threads[i])
  {
    var s0 := s;
    if r.release && s.holder == Some(j) {
      var freed := EndStepOver(s, j);
      if freed.Throws? { return; }
      s0 := freed.value;
      assert SameMail(s.threads[i], s0.threads[i]);
    }
    ProceedKeepsMail(Update(s0, j, Delivered(s0.threads[j], e)), j, r.next, sigs, i);
  }

  /** No step delivers an event of a thread held by the lock, or a parked event, while the lock is held. */
  lemma LockedThreadsAreNotServed(s: System, step: Step, i: nat)
    requires Covered(s) && Present(s, i) && s.holder.Some? && Apply(s, step).Ok?
    requires s.threads[i].Pushed() || (s.threads[i].parked.Some? && s.threads[i].target.Halted?)
    ensures var t := Apply(s, step).value.threads[i]; t.removed || SameMail(s.threads[i], t)
  {
    match step
    case Dispatch(j, r, sigs) =>
      if j != i && Present(s, j) && s.threads[j].InFlight() {
        var e := s.threads[j].target.event;
        DeliverKeepsMail(Update(s, j, s.threads[j].(target := Rest(e))), j, e, r, sigs, i);
      }
    case Start(j, next, sigs) =>
    case ResumeUser(j, next, sigs) =>
    case _ =>
  }

  /** The event of a thread the wait thread had already collected reaches its lock record. */
  function Arrived(t: Thread): Thread {
    if t.InFlight() && t.HasThreadLock() && SetStopEvent(t, t.target.event).Ok? then
      SetStopEvent(t, t.target.event).value.(target := Rest(t.target.event))
    else t
  }

  /**
   One lock round on one live thread. Everything but the mail comes back, except that
   `engine_stopped` comes back if and only if the engine had it set already or the native thread
   was not yet stopped: a thread with a parked event is left marked as stopped.
   */
  lemma LockRoundTrip(t: Thread, sig: Signal)
    requires Orderly(t) && Balanced(t) && !t.removed && !t.HasThreadLock()
    requires !t.target.Gone? && !Arrived(AcquireThreadLock(t, sig)).target.Gone?
    ensures var locked := Arrived(AcquireThreadLock(t, sig));
            && CanPark(locked)
            && var back := ReleaseThreadLock(locked);
               && (t.engineStopped ==> locked == t && back == t)
               && (back.engineStopped == t.engineStopped <==> t.engineStopped || !t.target.Halted?)
               && (!t.engineStopped ==> locked.savedRegisters == 1 && !locked.target.Running?)
               && back.savedRegisters == t.savedRegisters && back.busy == t.busy
               && back.delivered == t.delivered && back.threadLock.None?
  {
  }

  /** Late events reach the records of all locked threads. */
  function AllArrived(s: System): System {
    s.(threads := seq(|s.threads|, j requires 0 <= j < |s.threads| => Arrived(s.threads[j])))
  }

  lemma LockedThreadCanPark(t: Thread, sig: Signal)
    requires Orderly(t) && !t.HasThreadLock()
    ensures CanPark(Arrived(AcquireThreadLock(t, sig)))
  {
  }

  /** The threads between taking the lock and giving it up. */
  lemma LockedThreads(s: System, c: nat, sigs: Signals, j: nat)
    requires s.holder.None? && AcquireGlobalThreadLock(s, c, sigs).Ok? && j < |s.threads|
    ensures var t := AllArrived(AcquireGlobalThreadLock(s, c, sigs).value).threads[j];
            t == Arrived(if j == c
              || s.threads[j].removed then s.threads[j] else AcquireThreadLock(s.threads[j], sigs(j)))
  {
  }

  /**
   A whole lock round of the process: the release never fails, the lock is free again, the caller is
   as before, and every other thread that has not exited comes back as `LockRoundTrip` says.
   */
  lemma GlobalLockRoundTrip(s: System, c: nat, sigs: Signals, j: nat)
    requires AllOrderly(s) && s.holder.None? && c < |s.threads| && !s.threads[c].HasThreadLock()
    requires AcquireGlobalThreadLock(s, c, sigs).Ok? && j < |s.threads| && Balanced(s.threads[j])
    ensures var locked := AllArrived(AcquireGlobalThreadLock(s, c, sigs).value);
            var o := ReleaseGlobalThreadLock(locked, c);
            && o.Ok? && o.value.holder.None? && |o.value.threads| == |s.threads| && o.value.threads[c] == s.threads[c]
            && var t, back := s.threads[j], o.value.threads[j];
               j != c && !t.removed && !t.target.Gone? && !locked.threads[j].target.Gone? ==>
                 && back.threadLock.None? && back.savedRegisters == t.savedRegisters && back.busy == t.busy
                 && back.delivered == t.delivered
                 && (back.engineStopped == t.engineStopped <==> t.engineStopped || !t.target.Halted?)
  {
    var locked := AllArrived(AcquireGlobalThreadLock(s, c, sigs).value);
    forall k: nat | k < |s.threads| && k != c && !locked.threads[k].removed
      ensures CanPark(locked.threads[k])
    {
      LockedThreads(s, c, sigs, k);
      LockedThreadCanPark(s.threads[k], sigs(k));
    }
    LockedThreads(s, c, sigs, c);
    LockedThreads(s, c, sigs, j);
    if j != c && !s.threads[j].removed && !s.threads[j].target.Gone? && !locked.threads[j].target.Gone? {
      LockRoundTrip(s.threads[j], sigs(j));
    }
  }

  // ------------------------------------------------ suspended threads

  /** The engine sets the thread going after it has processed the event. */
  predicate Goes(r: Reaction) {
    r.next.Resume? || r.next.StepOver?
  }

  /** Replaying the event `e` of the suspended thread `t` sets it running. */
  predicate Resumes(t: Thread, e: Event, r: Reaction) {
    && !IsExit(e.kind) && t.target.Halted?
    && if e.kind.ChildStopped? && e.arg == 0 then t.engineStopped && t.busy && Goes(r)
       else e.kind.ChildInterrupted? || Goes(r)
  }

  lemma SuspendingOne(s: System, i: nat, sig: Signal, handled: bool)
    requires s.holder.None? && Present(s, i) && Orderly(s.threads[i]) && !s.threads[i].HasThreadLock()
    requires Apply(s, SuspendUser(i, sig, handled)).Ok?
    ensures var t, s' := s.threads[i], Apply(s, SuspendUser(i, sig, handled)).value;
            && s'.holder.None? && i < |s'.threads| && s'.threads[i].parked == t.parked
            && (t.engineStopped ==> s'.threads[i] == t)
            && (!t.engineStopped ==> !s'.threads[i].target.Running?)
            && (!t.engineStopped && t.parked.Some? ==> s'.threads[i] == Completed(t))
  {
  }

  lemma ReplayingOne(s: System, i: nat, r: Reaction, sigs: Signals)
    requires s.holder.None? && Present(s, i) && !s.threads[i].HasThreadLock()
    requires s.threads[i].parked.Some? && (s.threads[i].target.Halted? || s.threads[i].target.Gone?)
    requires s.threads[i].engineStopped && Apply(s, Drain(i, r, sigs)).Ok?
    ensures var s' := Apply(s, Drain(i, r, sigs)).value;
            && i < |s'.threads|
            && (s'.threads[i].target.Running? <==> Resumes(s.threads[i], s.threads[i].parked.value, r))
  {
    var t, e := s.threads[i], s.threads[i].parked.value;
    var s' := Update(s, i, t.(parked := None));
    if e.kind.ChildStopped? && e.arg == 0 {
      ActorProceeds(Update(s', i, Delivered(s'.threads[i], e)), i,
                    if t.busy && !r.next.Complete? then r.next else Stay, sigs);
    } else if !IsExit(e.kind) && !e.kind.ChildInterrupted? {
      ActorDelivers(s', i, e, r, sigs);
    }
  }

  /**
   After a suspension and a drain of the pending table an orderly thread runs if and only if it ran
   although it was marked as stopped, or an event that sets it running was parked for it. An event
   that only says "stopped" sets it running only if it was marked as stopped with its operation left.
   */
  lemma SuspendedRunsIffMarkedOrResumed(s: System, i: nat, sig: Signal, handled: bool, r: Reaction, sigs: Signals)
    requires s.holder.None? && Present(s, i) && Orderly(s.threads[i]) && !s.threads[i].HasThreadLock()
    requires Run(s, [SuspendUser(i, sig, handled), Drain(i, r, sigs)]).Ok?
    ensures var t, s' := s.threads[i], Run(s, [SuspendUser(i, sig, handled), Drain(i, r, sigs)]).value;
            && i < |s'.threads|
            && (s'.threads[i].target.Running? <==>
                || (t.engineStopped && t.target.Running?)
                || (t.parked.Some? && Resumes(t, t.parked.value, r)))
  {
    var suspend, drain := SuspendUser(i, sig, handled), Drain(i, r, sigs);
    assert [suspend, drain][1..] == [drain] && [drain][1..] == [];
    var s1 := Apply(s, suspend).value;
    assert Run(s, [suspend, drain]) == Run(s1, [drain]) == Apply(s1, drain);
    SuspendingOne(s, i, sig, handled);
    if s.threads[i].parked.Some? {
      ReplayingOne(s1, i, r, sigs);
    }
  }

  /**
   In every run: a suspension that does not raise anything leaves a thread that was untainted before it
   marked as stopped and not running.
   */
  lemma UntaintedIsStoppedBySuspension(steps: seq<Step>, i: nat, sig: Signal, handled: bool)
    requires Run(INITIAL, steps).Ok? && Present(Run(INITIAL, steps).value, i) && i !in Run(INITIAL, steps).value.tainted
    requires Apply(Run(INITIAL, steps).value, SuspendUser(i, sig, handled)).Ok?
    ensures var s' := Apply(Run(INITIAL, steps).value, SuspendUser(i, sig, handled)).value;
            i < |s'.threads| && s'.threads[i].engineStopped && !s'.threads[i].target.Running?
  {
    RunsAreExact(INITIAL, steps);
    SuspensionStopsExactThread(Run(INITIAL, steps).value, i, sig, handled);
  }

  lemma SuspensionStopsExactThread(s: System, i: nat, sig: Signal, handled: bool)
    requires Exact(s) && Present(s, i) && i !in s.tainted && Apply(s, SuspendUser(i, sig, handled)).Ok?
    ensures var s' := Apply(s, SuspendUser(i, sig, handled)).value;
            i < |s'.threads| && s'.threads[i].engineStopped && !s'.threads[i].target.Running?
  {
    assert ExactThread(s.threads[i], i, s.holder);
  }

  /** The thread is stopped with nothing on its way; a kept event stays in its record while the lock is free. */
  predicate Still(s: System, i: nat) {
    && i < |s.threads|
    && var t := s.threads[i];
       && t.engineStopped && t.parked.None? && (t.target.Halted? || t.target.Gone?)
       && (t.HasThreadLock() && !t.removed ==> s.holder.None?)
  }

  /**
   A suspension leaves the thread still if and only if nothing of it was parked and it was either
   marked as stopped and stopped, or not marked and without a collected event on its way.
   */
  lemma SuspendMakesStill(s: System, i: nat, sig: Signal, handled: bool)
    requires s.holder.None? && Present(s, i) && Apply(s, SuspendUser(i, sig, handled)).Ok?
    ensures var t := s.threads[i];
            Still(Apply(s, SuspendUser(i, sig, handled)).value, i) <==>
            t.parked.None? && if t.engineStopped then t.target.Halted? || t.target.Gone? else !t.InFlight()
  {
  }

  predicate Commands(step: Step, i: nat) {
    (step.Start? || step.ResumeUser?) && step.i == i
  }

  lemma OthersKeepStill(s: System, j: nat, e: Event, r: Reaction, sigs: Signals, i: nat)
    requires Still(s, i) && j < |s.threads| && i != j && !s.threads[j].HasThreadLock()
    requires Deliver(s, j, e, r, sigs).Ok?
    ensures Still(Deliver(s, j, e, r, sigs).value, i)
  {
    var s0 := s;
    if r.release && s.holder == Some(j) {
      s0 := EndStepOver(s, j).value;
      assert s0.threads[i] == s.threads[i] && s0.threads[j] == s.threads[j];
    }
    ProceedKeepsStill(Update(s0, j, Delivered(s0.threads[j], e)), j, r.next, sigs, i);
  }

  lemma ProceedKeepsStill(s: System, j: nat, next: Next, sigs: Signals, i: nat)
    requires Still(s, i) && j < |s.threads| && i != j && Proceed(s, j, next, sigs).Ok?
    ensures Still(Proceed(s, j, next, sigs).value, i)
  {
    if next.StepOver? {
      var held := AcquireGlobalThreadLock(s, j, sigs).value;
      if !s.threads[i].removed {
        assert !s.threads[i].HasThreadLock();
        assert held.threads[i] == AcquireThreadLock(s.threads[i], sigs(i));
      }
      assert held.threads[i] == s.threads[i];
    }
  }

  lemma ReplayKeepsStill(s: System, j: nat, e: Event, r: Reaction, sigs: Signals, i: nat)
    requires Still(s, i) && j < |s.threads| && i != j && Replay(s, j, e, r, sigs).Ok?
    ensures Still(Replay(s, j, e, r, sigs).value, i)
  {
    var t := s.threads[j];
    if e.kind.ChildStopped? && e.arg == 0 {
      var next := if t.busy && !r.next.Complete? then r.next else Stay;
      ProceedKeepsStill(Update(s, j, Delivered(t, e)), j, next, sigs, i);
    } else if !e.kind.ChildInterrupted? && !IsExit(e.kind) && !t.HasThreadLock() {
      OthersKeepStill(s, j, e, r, sigs, i);
    }
  }

  lemma StartKeepsStill(s: System, j: nat, next: Next, sigs: Signals, i: nat)
    requires Still(s, i) && j < |s.threads| && i != j && StartOperation(s, j, next, sigs).Ok?
    ensures Still(StartOperation(s, j, next, sigs).value, i)
  {
    ProceedKeepsStill(Update(s, j, s.threads[j].(engineStopped := false, busy := true)), j,
                      if next.StepOver? then next else Resume, sigs, i);
  }

  lemma StepKeepsStill(s: System, step: Step, i: nat)
    requires Still(s, i) && !Commands(step, i) && Apply(s, step).Ok?
    ensures Still(Apply(s, step).value, i)
  {
    match step
    case Dispatch(j, r, sigs) =>
      if Present(s, j) && s.threads[j].InFlight() {
        var e := s.threads[j].target.event;
        if !IsExit(e.kind) && !s.threads[j].HasThreadLock() {
          OthersKeepStill(Update(s, j, s.threads[j].(target := Rest(e))), j, e, r, sigs, i);
        }
      }
    case Drain(j, r, sigs) =>
      if Present(s, j) && s.holder.None? && s.threads[j].parked.Some? {
        ReplayKeepsStill(Update(s, j, s.threads[j].(parked := None)), j, s.threads[j].parked.value, r, sigs, i);
      }
    case Start(j, next, sigs) =>
      if Present(s, j) && Drained(s, j) {
        StartKeepsStill(s, j, next, sigs, i);
      }
    case ResumeUser(j, next, sigs) =>
      if Present(s, j) && Drained(s, j) && s.threads[j].threadLock.None? && s.threads[j].engineStopped {
        StartKeepsStill(s, j, next, sigs, i);
      }
    case _ =>
  }

  /** A still thread stays stopped through every run in which no command starts or resumes it. */
  lemma {:induction false} StillUntilCommanded(s: System, steps: seq<Step>, i: nat)
    requires Still(s, i) && Run(s, steps).Ok?
    requires forall step :: step in steps ==> !Commands(step, i)
    ensures Still(Run(s, steps).value, i)
    decreases |steps|
  {
    if steps != [] {
      StepKeepsStill(s, steps[0], i);
      StillUntilCommanded(Apply(s, steps[0]).value, steps[1..], i);
    }
  }

  // ------------------------------------------------------------- bad runs

  /**
   What can happen to a tainted thread. Two breakpoints in a row make thread 0 take the lock again
   before the interrupt of thread 1 is replayed; thread 1 is then marked stopped while it runs,
   and the third lock disables a breakpoint with thread 1 running through it.
   */
  lemma RunningThreadCanEscapeTheLock() returns (steps: seq<Step>)
    ensures var o := Run(INITIAL, steps);
            && o.Ok? && o.value.disabled.Some? && o.value.holder == Some(0)
            && 1 in o.value.ran && Present(o.value, 1) && o.value.threads[1].target.Running?
  {
    var s;
    s, steps := MarkedThreadRuns();
    s, steps := Turn(s, steps, Reaction(false, StepOver(9)));
  }

  /** Thread 1 runs with its operation, marked as stopped; nothing is parked or on its way. */
  lemma MarkedThreadRuns() returns (s: System, steps: seq<Step>)
    ensures Run(INITIAL, steps) == Ok(s) && |s.threads| == 2 && s.holder.None? && NoneInFlight(s)
    ensures Present(s, 0) && s.threads[0].target.Running? && s.threads[0].threadLock.None?
    ensures s.threads[1] == Victim(Running, None, None, 0, [0])
  {
    s, steps := InterruptIsParkedTwice();
    s, steps := Turn(s, steps, Reaction(true, Resume));
    assert s.threads[1] == Victim(Halted, None, Some(Event(ChildInterrupted, 0, 0)), 0, []);
    s, steps := Extend(s, steps, Drain(1, Reaction(false, Resume), Interrupts));
  }

  /**
   A suspension can miss a thread: the lock is free, nothing of thread 1 is parked or on its way, the
   suspension raises nothing, and thread 1 still runs with its operation.
   */
  lemma SuspensionCanMissARunningThread(sig: Signal, handled: bool) returns (steps: seq<Step>)
    ensures var o := Run(INITIAL, steps + [SuspendUser(1, sig, handled)]);
            && Run(INITIAL, steps).Ok? && Run(INITIAL, steps).value.holder.None?
            && NoneInFlight(Run(INITIAL, steps).value)
            && o.Ok? && Present(o.value, 1) && o.value.threads[1].parked.None?
            && o.value.threads[1].target.Running? && o.value.threads[1].busy
  {
    var s;
    s, steps := MarkedThreadRuns();
    RunSnoc(INITIAL, steps, SuspendUser(1, sig, handled));
  }

  /**
   A duplicate can be met. Thread 1, wrongly marked as stopped, is started by a command while the lock
   is held and its interrupt is still parked; the next lock catches a second event, and its release
   finds the first one in the table.
   */
  lemma DuplicateIsReachable() returns (steps: seq<Step>)
    ensures Run(INITIAL, steps) == Throws(DuplicatePendingEvent)
  {
    var s;
    s, steps := SecondEventIsCaught();
    s, steps := Extend(s, steps, Trap(0, Signal(ChildHitBreakpoint, 7)));
    assert NoneInFlight(s);
    s, steps := Extend(s, steps, Reap(0));
    var dispatch := Dispatch(0, Reaction(true, Resume), Interrupts);
    ReleaseMeetsDuplicate(s, dispatch.r);
    RunSnoc(INITIAL, steps, dispatch);
    steps := steps + [dispatch];
  }

  lemma ReleaseMeetsDuplicate(s: System, r: Reaction)
    requires |s.threads| == 2 && s.holder == Some(0) && Present(s, 0) && s.threads[0].InFlight()
    requires s.threads[0].threadLock.None? && !IsExit(s.threads[0].target.event.kind) && r.release
    requires Present(s, 1) && !CanPark(s.threads[1])
    ensures Apply(s, Dispatch(0, r, Interrupts)) == Throws(DuplicatePendingEvent)
  {
    var taken := Update(s, 0, s.threads[0].(target := Halted));
    assert taken.threads[1] == s.threads[1];
    assert !CanRelease(taken.(disabled := None).threads, 0);
  }

  lemma SecondEventIsCaught() returns (s: System, steps: seq<Step>)
    ensures Run(INITIAL, steps) == Ok(s) && |s.threads| == 2 && s.holder == Some(0)
    ensures Present(s, 0) && s.threads[0].target.Running? && s.threads[0].threadLock.None?
    ensures s.threads[1] == Thread(Halted, true, true, false,
                                   Some(LockRecord(true, Some(Event(ChildInterrupted, 0, 1)), true)),
                                   Some(Event(ChildInterrupted, 0, 0)), false, 1, 2, [])
  {
    var parked := Some(Event(ChildInterrupted, 0, 0));
    s, steps := StartedWithParkedEvent();
    assert AcquireThreadLock(s.threads[1], Interrupts(1)) ==
           Thread(Halted, true, true, false, Some(LockRecord(true, Some(Event(ChildInterrupted, 0, 1)), true)),
                  parked, false, 1, 2, []);
    s, steps := Turn(s, steps, Reaction(true, StepOver(10)));
  }

  lemma StartedWithParkedEvent() returns (s: System, steps: seq<Step>)
    ensures Run(INITIAL, steps) == Ok(s) && |s.threads| == 2 && s.holder == Some(0) && NoneInFlight(s)
    ensures Present(s, 0) && s.threads[0].target.Running? && s.threads[0].threadLock.None?
    ensures s.threads[1] ==
              Thread(Running, false, true, false, None, Some(Event(ChildInterrupted, 0, 0)), false, 0, 1, [])
  {
    s, steps := InterruptIsParkedTwice();
    var marked := Victim(Halted, None, Some(Event(ChildInterrupted, 0, 0)), 0, []);
    assert ReleaseThreadLock(s.threads[1]) == marked && AcquireThreadLock(marked, Interrupts(1)) == marked;
    s, steps := Turn(s, steps, Reaction(true, StepOver(9)));
    assert s.threads[1] == marked;
    s, steps := Extend(s, steps, Start(1, Resume, Interrupts));
  }

  function Victim(target: Target, lock: Option<LockRecord>, parked: Option<Event>, saved: int,
      delivered: seq<nat>): Thread {
    Thread(target, true, true, false, lock, parked, false, saved, 1, delivered)
  }

  lemma InterruptIsParkedTwice() returns (s: System, steps: seq<Step>)
    ensures Run(INITIAL, steps) == Ok(s) && |s.threads| == 2 && s.holder == Some(0)
    ensures s.threads[0] == Thread(Running, false, true, false, None, None, false, 0, 2, [0, 1])
    ensures s.threads[1] == Victim(Halted, Some(LockRecord(false, None, true)),
                                   Some(Event(ChildInterrupted, 0, 0)), 1, [])
  {
    s, steps := INITIAL, [];
    s, steps := Extend(s, steps, Spawn);
    s, steps := Extend(s, steps, Spawn);
    assert s.threads == [NEW_THREAD, NEW_THREAD];
    var caught := Some(Event(ChildInterrupted, 0, 0));
    assert AcquireThreadLock(NEW_THREAD, Interrupts(1)) ==
           Victim(Halted, Some(LockRecord(true, caught, true)), None, 1, []);
    s, steps := Turn(s, steps, Reaction(false, StepOver(7)));
    assert s.threads[1] == Victim(Halted, Some(LockRecord(true, caught, true)), None, 1, []);
    s, steps := Turn(s, steps, Reaction(true, StepOver(8)));
  }

  const Interrupts: Signals := i => Signal(ChildInterrupted, 0)

  /** Thread 0 hits a breakpoint, the event is collected and processed. */
  lemma Turn(s: System, steps: seq<Step>, r: Reaction) returns (s': System, steps': seq<Step>)
    requires Run(INITIAL, steps) == Ok(s) && |s.threads| == 2
    requires Present(s, 0) && s.threads[0].target.Running? && s.threads[0].threadLock.None? && NoneInFlight(s)
    requires var t := s.threads[0];
             var e := Event(ChildHitBreakpoint, 7, t.born);
             Deliver(Update(s, 0, t.(target := Halted, born := t.born + 1)), 0, e, r, Interrupts).Ok?
    ensures Run(INITIAL, steps') == Ok(s')
    ensures var t := s.threads[0];
            var e := Event(ChildHitBreakpoint, 7, t.born);
            Deliver(Update(s, 0, t.(target := Halted, born := t.born + 1)), 0, e, r, Interrupts) == Ok(s')
  {
    s', steps' := Extend(s, steps, Trap(0, Signal(ChildHitBreakpoint, 7)));
    assert NoneInFlight(s');
    s', steps' := Extend(s', steps', Reap(0));
    var e := s'.threads[0].target.event;
    assert Update(s', 0, s'.threads[0].(target := Rest(e)))
        == Update(s, 0, s.threads[0].(target := Halted, born := s.threads[0].born + 1));
    s', steps' := Extend(s', steps', Dispatch(0, r, Interrupts));
  }

  lemma Extend(s: System, steps: seq<Step>, step: Step) returns (s': System, steps': seq<Step>)
    requires Run(INITIAL, steps) == Ok(s) && Apply(s, step).Ok?
    ensures s' == Apply(s, step).value && steps' == steps + [step] && Run(INITIAL, steps') == Ok(s')
  {
    RunSnoc(INITIAL, steps, step);
    s', steps' := Apply(s, step).value, steps + [step];
  }
}
