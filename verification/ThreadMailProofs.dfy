/**
 Conservation of events and of register sets in every run; order, and the absence of duplicates, in
 every run that starts no thread before its parked event was replayed.
 */
module ThreadMailProofs {
  import opened TargetEvents
  import opened ThreadLocks
  import opened ThreadMail

  // --------------------------------------------------------- what is kept

  function Count(b: bool): nat { if b then 1 else 0 }

  function InKernel(t: Thread): Option<Event> {
    if t.target.Trapped? then Some(t.target.event) else None
  }

  function InRecord(t: Thread): Option<Event> {
    if t.threadLock.Some? then t.threadLock.value.stopEvent else None
  }

  predicate Is(o: Option<Event>, serial: nat) {
    o.Some? && o.value.serial == serial
  }

  /** How often the event with this serial was delivered, plus in how many places it is waiting. */
  function Copies(t: Thread, serial: nat): nat {
    multiset(t.delivered)[serial]
    + Count(Is(InKernel(t), serial)) + Count(Is(InRecord(t), serial)) + Count(Is(t.parked, serial))
  }

  /** An event that was reported was delivered once or is in one place; others are nowhere. */
  predicate Conserved(t: Thread, serial: nat) {
    Copies(t, serial) == Count(serial < t.born)
  }

  /** The registers are saved exactly while the lock record says so. */
  predicate Balanced(t: Thread) {
    !t.removed && !t.target.Gone? ==> t.savedRegisters == if t.Pushed() then 1 else 0
  }

  /** In how many places an event of this thread is waiting. */
  function Places(t: Thread): nat {
    Count(t.target.Trapped?) + Count(InRecord(t).Some?) + Count(t.parked.Some?)
  }

  predicate InOrder(delivered: seq<nat>) {
    forall k :: 0 <= k < |delivered| ==> delivered[k] == k
  }

  /** `e`, if there is one, is the event that is next in order. */
  predicate NextIs(t: Thread, e: Option<Event>) {
    e.Some? ==> e.value.serial == |t.delivered|
  }

  /** At most one event is outstanding, all before it were delivered in order, and a running thread has none. */
  predicate Orderly(t: Thread) {
    && InOrder(t.delivered) && t.born == |t.delivered| + Places(t) && Places(t) <= 1
    && NextIs(t, InKernel(t)) && NextIs(t, InRecord(t)) && NextIs(t, t.parked)
    && (t.target.Running? ==> Places(t) == 0)
  }

  /** Taking the event in one place and delivering it moves one copy. */
  lemma DeliveryConserves(t: Thread, from: Place, serial: nat)
    requires Has(t, from)
    ensures Copies(Delivered(Without(t, from), Taken(t, from)), serial) == Copies(t, serial)
  {
    assert t.delivered + [Taken(t, from).serial] == Delivered(Without(t, from), Taken(t, from)).delivered;
  }

  lemma ServeConserves(t: Thread, from: Place, after: After, serial: nat)
    requires Has(t, from)
    ensures Copies(Do(t, Serve(from, after)).value, serial) == Copies(t, serial)
    ensures Copies(Do(t, Leave(from)).value, serial) == Copies(t, serial)
  {
    DeliveryConserves(t, from, serial);
  }

  /** What stopping a thread catches is one copy more for the caller and one less in the kernel. */
  lemma StopConserves(t: Thread, sig: Signal, serial: nat)
    requires Conserved(t, serial)
    ensures var (t', _, caught) := Stop(t, sig);
            && t' == t.(target := t'.target, born := t'.born)
            && Copies(t', serial) + Count(Is(caught, serial)) == Count(serial < t'.born)
  {
  }

  lemma LockConserves(t: Thread, sig: Signal, serial: nat)
    requires Conserved(t, serial) && !t.HasThreadLock()
    ensures Conserved(AcquireThreadLock(t, sig), serial)
  {
    StopConserves(t, sig, serial);
  }

  lemma SuspendConserves(t: Thread, sig: Signal, handled: bool, serial: nat)
    requires Conserved(t, serial) && SuspendUserThread(t, sig, handled).Ok?
    ensures Conserved(SuspendUserThread(t, sig, handled).value, serial)
  {
    StopConserves(t, sig, serial);
    var (halted, stopped, caught) := Stop(t, sig);
    if !t.engineStopped && caught.Some? {
      SuspendedConserves(halted, stopped, caught.value, handled, serial);
    }
  }

  lemma SuspendedConserves(t: Thread, stopped: bool, e: Event, handled: bool, serial: nat)
    requires !t.HasThreadLock()
    ensures Copies(Suspended(t, stopped, e, handled), serial) == Copies(t, serial) + Count(e.serial == serial)
  {
  }

  lemma MoveConserves(t: Thread, m: Move, serial: nat)
    requires Conserved(t, serial) && Do(t, m).Some?
    ensures Conserved(Do(t, m).value, serial)
  {
    if m.Lock? || m.Unlock? || m.Suspend? {
      StoppingConserves(t, m, serial);
    } else if m.Serve? || m.Leave? || m.Remember? {
      TakingConserves(t, m, serial);
    } else {
      PlainMoveConserves(t, m, serial);
    }
  }

  lemma StoppingConserves(t: Thread, m: Move, serial: nat)
    requires Conserved(t, serial) && Do(t, m).Some? && (m.Lock? || m.Unlock? || m.Suspend?)
    ensures Conserved(Do(t, m).value, serial)
  {
    match m
    case Lock(sig) => LockConserves(t, sig, serial);
    case Suspend(sig, handled) => SuspendConserves(t, sig, handled, serial);
    case Unlock => UnlockConserves(t, serial);
  }

  lemma TakingConserves(t: Thread, m: Move, serial: nat)
    requires Conserved(t, serial) && Do(t, m).Some? && (m.Serve? || m.Leave? || m.Remember?)
    ensures Conserved(Do(t, m).value, serial)
  {
    match m
    case Serve(from, after) => ServeConserves(t, from, after, serial);
    case Leave(from) => ServeConserves(t, from, Staying, serial);
    case Remember(from) => RememberConserves(t, from, serial);
  }

  lemma PlainMoveConserves(t: Thread, m: Move, serial: nat)
    requires Conserved(t, serial) && Do(t, m).Some?
    requires m.TrapIn? || m.Collect? || m.Launch? || m.Repark?
    ensures Conserved(Do(t, m).value, serial)
  {
    if m.TrapIn? {
    } else if m.Repark? {
    }
  }

  lemma RememberConserves(t: Thread, from: Place, serial: nat)
    requires Do(t, Remember(from)).Some?
    ensures Copies(Do(t, Remember(from)).value, serial) == Copies(t, serial)
              && Do(t, Remember(from)).value.born == t.born
  {
    assert InRecord(t).None?;
    if from.Kernel? {
    } else {
    }
  }

  lemma UnlockConserves(t: Thread, serial: nat)
    requires CanPark(t)
    ensures Copies(ReleaseThreadLock(t), serial) == Copies(t, serial)
  {
  }

  lemma MoveBalances(t: Thread, m: Move)
    requires Balanced(t) && Do(t, m).Some?
    ensures Balanced(Do(t, m).value)
  {
    if m.Lock? || m.Suspend? {
      StopBalances(t, m.sig);
    } else if m.Serve? || m.Leave? || m.Remember? {
      TakingBalances(t, m);
    } else {
      PlainMoveBalances(t, m);
    }
  }

  lemma TakingBalances(t: Thread, m: Move)
    requires Balanced(t) && Do(t, m).Some? && (m.Serve? || m.Leave? || m.Remember?)
    ensures Balanced(Do(t, m).value)
  {
    var t' := Without(t, m.from);
    assert Balanced(t');
  }

  lemma PlainMoveBalances(t: Thread, m: Move)
    requires Balanced(t) && Do(t, m).Some?
    requires m.TrapIn? || m.Collect? || m.Unlock? || m.Launch? || m.Repark?
    ensures Balanced(Do(t, m).value)
  {
  }

  lemma StopBalances(t: Thread, sig: Signal)
    requires Balanced(t)
    ensures var t' := Stop(t, sig).0; Balanced(t') && t' == t.(target := t'.target, born := t'.born)
    ensures t.target.Gone? ==> Stop(t, sig).0.target.Gone?
  {
  }

  lemma ServeKeepsOrder(t: Thread, from: Place, after: After)
    requires Orderly(t) && Has(t, from)
    ensures Orderly(Do(t, Serve(from, after)).value) && Orderly(Do(t, Leave(from)).value)
  {
    var t' := Delivered(Without(t, from), Taken(t, from));
    assert Orderly(t') && Places(t') == 0;
  }

  lemma LockKeepsOrder(t: Thread, sig: Signal)
    requires Orderly(t) && !t.HasThreadLock()
    ensures Orderly(AcquireThreadLock(t, sig))
  {
  }

  lemma SuspendKeepsOrder(t: Thread, sig: Signal, handled: bool)
    requires Orderly(t) && SuspendUserThread(t, sig, handled).Ok?
    ensures Orderly(SuspendUserThread(t, sig, handled).value)
  {
    var (halted, stopped, caught) := Stop(t, sig);
    if !t.engineStopped && caught.Some? {
      assert InOrder(t.delivered + [caught.value.serial]) && halted.born == |t.delivered| + 1;
    }
  }

  lemma MoveKeepsOrder(t: Thread, m: Move)
    requires Orderly(t) && Do(t, m).Some? && !m.Launch?
    ensures Orderly(Do(t, m).value)
  {
    match m
    case Lock(sig) => LockKeepsOrder(t, sig);
    case Suspend(sig, handled) => SuspendKeepsOrder(t, sig, handled);
    case Serve(from, after) => ServeKeepsOrder(t, from, after);
    case Leave(from) => ServeKeepsOrder(t, from, Staying);
    case Unlock => UnlockKeepsOrder(t);
    case Remember(from) => RememberKeepsOrder(t, from);
    case _ => PlainMoveKeepsOrder(t, m);
  }

  lemma UnlockKeepsOrder(t: Thread)
    requires Orderly(t) && CanPark(t)
    ensures Orderly(ReleaseThreadLock(t))
  {
  }

  lemma RememberKeepsOrder(t: Thread, from: Place)
    requires Orderly(t) && Do(t, Remember(from)).Some?
    ensures Orderly(Do(t, Remember(from)).value)
  {
  }

  lemma PlainMoveKeepsOrder(t: Thread, m: Move)
    requires Orderly(t) && Do(t, m).Some? && (m.TrapIn? || m.Collect? || m.Repark?)
    ensures Orderly(Do(t, m).value)
  {
  }

  /** A start is the one move that can upset the order, and does so exactly if an event was waiting. */
  lemma LaunchKeepsOrder(t: Thread)
    requires Orderly(t) && Do(t, Launch).Some?
    ensures Orderly(Do(t, Launch).value) <==> !(t.target.Halted? && t.parked.Some?)
  {
  }

  lemma {:induction false} MovesKeep(t: Thread, ms: seq<Move>, serial: nat)
    requires DoAll(t, ms).Some?
    ensures Conserved(t, serial) ==> Conserved(DoAll(t, ms).value, serial)
    ensures Balanced(t) ==> Balanced(DoAll(t, ms).value)
    ensures Orderly(t) && Harmless(ms) ==> Orderly(DoAll(t, ms).value)
    decreases |ms|
  {
    if ms != [] {
      if Conserved(t, serial) {
        MoveConserves(t, ms[0], serial);
      }
      if Balanced(t) {
        MoveBalances(t, ms[0]);
      }
      if Orderly(t) && Harmless(ms) {
        MoveKeepsOrder(t, ms[0]);
      }
      assert Harmless(ms) ==> Harmless(ms[1..]);
      MovesKeep(Do(t, ms[0]).value, ms[1..], serial);
    }
  }

  // ------------------------------------------------------------- whole runs

  /** What every step keeps for every thread, whatever the run did before. */
  predicate AllConserved(s: System, serial: nat) {
    forall j :: 0 <= j < |s.threads| ==> Conserved(s.threads[j], serial) && Balanced(s.threads[j])
  }

  lemma StepConserves(s: System, step: Step, serial: nat)
    requires AllConserved(s, serial) && Apply(s, step).Ok?
    ensures AllConserved(Apply(s, step).value, serial)
  {
    var s' := Apply(s, step).value;
    forall j | 0 <= j < |s'.threads|
      ensures Conserved(s'.threads[j], serial) && Balanced(s'.threads[j])
    {
      if j < |s.threads| {
        var ms := Projection(s, step, j);
        MovesKeep(s.threads[j], ms, serial);
      } else {
        OnlySpawnGrows(s, step);
      }
    }
  }

  lemma OnlySpawnGrows(s: System, step: Step)
    requires Apply(s, step).Ok?
    ensures |Apply(s, step).value.threads| > |s.threads| ==> Apply(s, step).value.threads == s.threads + [NEW_THREAD]
  {
    if !step.Spawn? && |s.threads| > 0 {
      SameSize(s, step);
    }
  }

  lemma NoThreadIsDropped(s: System, step: Step)
    requires Apply(s, step).Ok?
    ensures |s.threads| <= |Apply(s, step).value.threads|
  {
    if !step.Spawn? {
      SameSize(s, step);
    }
  }

  lemma SameSize(s: System, step: Step)
    requires Apply(s, step).Ok? && !step.Spawn?
    ensures |Apply(s, step).value.threads| == |s.threads|
  {
    match step
    case Dispatch(i, r, sigs) =>
      if Present(s, i) && s.threads[i].InFlight() {
        var _ := ProcessMoves(s, i, Kernel, r, sigs, i);
      }
    case Drain(i, r, sigs) =>
      if Present(s, i) && s.holder.None? && s.threads[i].parked.Some? {
        var _ := ReplayMoves(s, i, r, sigs, i);
      }
    case Start(i, next, sigs) =>
      if Present(s, i) && Drained(s, i) {
        var _ := StartMoves(s, i, next, sigs, i);
      }
    case ResumeUser(i, next, sigs) =>
      if Present(s, i) && Drained(s, i) {
        var _ := ResumeMoves(s, i, next, sigs, i);
      }
    case _ =>
  }

  lemma {:induction false} RunConserves(s: System, steps: seq<Step>, serial: nat)
    requires AllConserved(s, serial) && Run(s, steps).Ok?
    ensures AllConserved(Run(s, steps).value, serial)
    decreases |steps|
  {
    if steps != [] {
      StepConserves(s, steps[0], serial);
      RunConserves(Apply(s, steps[0]).value, steps[1..], serial);
    }
  }

  /**
   Conservation, in every run: each event a thread ever reported was delivered exactly once and is
   nowhere else, or was not delivered and is in exactly one of kernel, lock record and pending table;
   and nothing else was delivered or is kept.
   */
  lemma EventsAreConserved(steps: seq<Step>, i: nat, serial: nat)
    requires Run(INITIAL, steps).Ok? && i < |Run(INITIAL, steps).value.threads|
    ensures var t := Run(INITIAL, steps).value.threads[i];
            Copies(t, serial) == if serial < t.born then 1 else 0
  {
    RunConserves(INITIAL, steps, serial);
  }

  /** In every run the registers of a live thread are saved exactly while its lock record says so. */
  lemma RegistersAreBalanced(steps: seq<Step>, i: nat)
    requires Run(INITIAL, steps).Ok? && Present(Run(INITIAL, steps).value, i)
    ensures var t := Run(INITIAL, steps).value.threads[i];
            !t.target.Gone? ==> t.savedRegisters == if t.Pushed() then 1 else 0
  {
    RunConserves(INITIAL, steps, 0);
  }

  // -------------------------------------------------- order and duplicates

  predicate AllOrderly(s: System) {
    forall j :: 0 <= j < |s.threads| ==> Orderly(s.threads[j])
  }

  /**
   A command starts a thread whose own event is still parked. As the table is drained after every
   event and command, the lock must be held for that.
   */
  predicate StartsParked(s: System, step: Step) {
    (step.Start? || step.ResumeUser?) && ThreadStartsParked(s, step, step.i)
  }

  predicate ThreadStartsParked(s: System, step: Step, j: nat) {
    Launches(s, step, j) && s.threads[j].target.Halted? && s.threads[j].parked.Some?
  }

  lemma OrderByMoves(t: Thread, ms: seq<Move>, launched: bool)
    requires Orderly(t) && DoAll(t, ms).Some? && if launched then ms == [Launch] else Harmless(ms)
    ensures Orderly(DoAll(t, ms).value) <==> !(launched && t.target.Halted? && t.parked.Some?)
  {
    if launched {
      DoOne(t, Launch);
      LaunchKeepsOrder(t);
    } else {
      MovesKeep(t, ms, 0);
    }
  }

  lemma OldThreadOrderIsKept(s: System, step: Step, j: nat)
    requires j < |s.threads| && Orderly(s.threads[j]) && Apply(s, step).Ok?
    ensures j < |Apply(s, step).value.threads|
    ensures Orderly(Apply(s, step).value.threads[j]) <==> !ThreadStartsParked(s, step, j)
  {
    var ms := Projection(s, step, j);
    OrderByMoves(s.threads[j], ms, Launches(s, step, j));
  }

  lemma ThreadOrderIsKept(s: System, step: Step, j: nat)
    requires AllOrderly(s) && Apply(s, step).Ok? && j < |Apply(s, step).value.threads|
    ensures Orderly(Apply(s, step).value.threads[j]) <==> !ThreadStartsParked(s, step, j)
  {
    if j < |s.threads| {
      OldThreadOrderIsKept(s, step, j);
    } else {
      OnlySpawnGrows(s, step);
      FreshThreadIsOrderly(Apply(s, step).value.threads[j]);
    }
  }

  lemma FreshThreadIsOrderly(t: Thread)
    requires t.target.Running? && t.threadLock.None? && t.parked.None? && t.born == 0 && |t.delivered| == 0
    ensures Orderly(t)
  {
  }

  lemma OrderOfAll(s: System, step: Step, s': System)
    requires |s.threads| <= |s'.threads|
    requires forall j: nat :: j < |s'.threads| ==> (Orderly(s'.threads[j]) <==> !ThreadStartsParked(s, step, j))
    ensures AllOrderly(s') <==> !StartsParked(s, step)
  {
  }

  /** The step that upsets the order, exactly: all threads stay orderly unless one is started too early. */
  lemma OrderIsKeptUnlessStartedParked(s: System, step: Step)
    requires AllOrderly(s) && Apply(s, step).Ok?
    ensures AllOrderly(Apply(s, step).value) <==> !StartsParked(s, step)
  {
    forall j: nat | j < |Apply(s, step).value.threads|
      ensures Orderly(Apply(s, step).value.threads[j]) <==> !ThreadStartsParked(s, step, j)
    {
      ThreadOrderIsKept(s, step, j);
    }
    NoThreadIsDropped(s, step);
    OrderOfAll(s, step, Apply(s, step).value);
  }

  /** No step of the run starts a thread whose event is parked. */
  predicate Prompt(s: System, steps: seq<Step>)
    decreases |steps|
  {
    steps != [] ==>
      !StartsParked(s, steps[0]) && (Apply(s, steps[0]).Ok? ==> Prompt(Apply(s, steps[0]).value, steps[1..]))
  }

  lemma {:induction false} PromptRunsAreOrderly(s: System, steps: seq<Step>)
    requires AllOrderly(s) && Prompt(s, steps) && Run(s, steps).Ok?
    ensures AllOrderly(Run(s, steps).value)
    decreases |steps|
  {
    if steps != [] {
      OrderIsKeptUnlessStartedParked(s, steps[0]);
      PromptRunsAreOrderly(Apply(s, steps[0]).value, steps[1..]);
    }
  }

  /**
   Order, in every prompt run: the serials delivered are 0, 1, 2, ...; at most one event is
   outstanding, and delivered plus outstanding is everything reported.
   */
  lemma EventsComeInOrder(steps: seq<Step>, i: nat)
    requires Prompt(INITIAL, steps) && Run(INITIAL, steps).Ok? && i < |Run(INITIAL, steps).value.threads|
    ensures var t := Run(INITIAL, steps).value.threads[i];
            InOrder(t.delivered) && t.born == |t.delivered| + Places(t) && Places(t) <= 1
  {
    PromptRunsAreOrderly(INITIAL, steps);
  }

  predicate NoDuplicate(o: Outcome<System, Fault>) {
    o != Throws(DuplicateStopEvent) && o != Throws(DuplicatePendingEvent)
  }

  lemma ProceedMeetsNoDuplicate(s: System, i: nat, next: Next, sigs: Signals)
    requires i < |s.threads|
    ensures NoDuplicate(Proceed(s, i, next, sigs))
  {
  }

  lemma DeliverMeetsNoDuplicate(s: System, i: nat, e: Event, r: Reaction, sigs: Signals)
    requires i < |s.threads| && !s.threads[i].HasThreadLock()
    requires forall j :: 0 <= j < |s.threads| && j != i ==> Orderly(s.threads[j])
    ensures NoDuplicate(Deliver(s, i, e, r, sigs))
  {
    if r.release && s.holder == Some(i) {
      assert CanRelease(s.threads, i);
      var freed := EndStepOver(s, i).value;
      assert freed.threads[i] == s.threads[i];
      ProceedMeetsNoDuplicate(Update(freed, i, Delivered(freed.threads[i], e)), i, r.next, sigs);
    } else {
      ProceedMeetsNoDuplicate(Update(s, i, Delivered(s.threads[i], e)), i, r.next, sigs);
    }
  }

  lemma ProcessMeetsNoDuplicate(s: System, i: nat, from: Place, r: Reaction, sigs: Signals)
    requires AllOrderly(s) && i < |s.threads| && Has(s.threads[i], from)
    ensures NoDuplicate(ProcessEvent(Update(s, i, Without(s.threads[i], from)), i, Taken(s.threads[i], from), r, sigs))
  {
    var t, e := s.threads[i], Taken(s.threads[i], from);
    assert Orderly(t);
    if !IsExit(e.kind) && !t.HasThreadLock() {
      DeliverMeetsNoDuplicate(Update(s, i, Without(t, from)), i, e, r, sigs);
    }
  }

  lemma StepMeetsNoDuplicate(s: System, step: Step)
    requires AllOrderly(s)
    ensures NoDuplicate(Apply(s, step))
  {
    match step
    case Dispatch(i, r, sigs) =>
      if Present(s, i) && s.threads[i].InFlight() {
        ProcessMeetsNoDuplicate(s, i, Kernel, r, sigs);
      }
    case Drain(i, r, sigs) =>
      if Present(s, i) && s.holder.None? && s.threads[i].parked.Some? {
        var s' := Update(s, i, s.threads[i].(parked := None));
        ProcessMeetsNoDuplicate(s, i, Table, r, sigs);
        var next := if s.threads[i].busy && !r.next.Complete? then r.next else Stay;
        ProceedMeetsNoDuplicate(Update(s', i, Delivered(s'.threads[i], s.threads[i].parked.value)), i, next, sigs);
      }
    case Start(i, next, sigs) =>
      if Present(s, i) {
        StartMeetsNoDuplicate(s, i, next, sigs);
      }
    case ResumeUser(i, next, sigs) =>
      if Present(s, i) {
        assert Orderly(s.threads[i]);
        StartMeetsNoDuplicate(s, i, next, sigs);
      }
    case _ =>
  }

  lemma StartMeetsNoDuplicate(s: System, i: nat, next: Next, sigs: Signals)
    requires i < |s.threads|
    ensures NoDuplicate(StartOperation(s, i, next, sigs))
  {
    ProceedMeetsNoDuplicate(Update(s, i, s.threads[i].(engineStopped := false, busy := true)), i,
                            if next.StepOver? then next else Resume, sigs);
  }

  /**
   No prompt run ends in the duplicate cases of `SetStopEvent` and `AddPendingEvent`, whatever else
   was locked, suspended or resumed in it.
   */
  lemma {:induction false} DuplicatesAreUnreachable(s: System, steps: seq<Step>)
    requires AllOrderly(s) && Prompt(s, steps)
    ensures NoDuplicate(Run(s, steps))
    decreases |steps|
  {
    if steps != [] {
      StepMeetsNoDuplicate(s, steps[0]);
      if Apply(s, steps[0]).Ok? {
        OrderIsKeptUnlessStartedParked(s, steps[0]);
        DuplicatesAreUnreachable(Apply(s, steps[0]).value, steps[1..]);
      }
    }
  }
}
