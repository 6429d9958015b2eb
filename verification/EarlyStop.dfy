/**
 The first stop of a new thread. The kernel reports a new thread twice, by a clone event of its
 creator and by an initial stop of its own, in either order. The wait thread sets the stop of an
 unknown thread aside; the engine thread, when it handles the clone event, either finds it there or
 reaps it itself. A run is any interleaving of kernel, wait thread and engine thread.
 */
module EarlyStop {
  import opened TargetEvents
  import opened Sequences

  /** Where the engine thread is in handling one clone event. */
  datatype Handler =
    | Idle
    | Asked(pid: nat, early: bool)    // HasPendingSigstopForNewThread has answered
    | Waiting(pid: nat)               // in waitpid for the new thread, with the wait mutex
    | Initialized(pid: nat)           // the stop of the new thread is accounted for
    | Registered(pid: nat)            // the new engine is in thread_hash

  /**
   `clones` and `stops` are the notifications nobody has reaped. The wait thread may wait while it has
   a `permit`; it is `inside` waitpid, holding the wait mutex, or has a stop `inHand` that it has
   reaped and not yet looked up. `held` are the clone events reaped and not yet handled (in the slot,
   in a lock record or parked), `known` is thread_hash and `pending` is pending_sigstops; `failed` are
   the threads the engine thread gave up because the wait mutex was taken. The history says who
   reaped each initial stop, and which ones were delivered as ordinary events.
   */
  datatype State = State(
    created: set<nat>,
    clones: set<nat>, stops: set<nat>,
    permit: bool, inside: bool, inHand: Option<nat>,
    held: set<nat>,
    handler: Handler,
    known: set<nat>,
    pending: set<nat>,
    failed: set<nat>,
    early: seq<nat>, waited: seq<nat>, ordinary: seq<nat>)

  datatype Step =
    | Create(pid: nat)
    | Enter | ReapClone(pid: nat) | ReapStop(pid: nat) | ReapOther | Look
    | Handle(pid: nat) | Lock | Await | Register | Forget | Request

  const INITIAL := State({}, {}, {}, true, false, None, {}, Idle, {}, {}, {}, [], [], [])

  /** What the wait thread does: an event it publishes costs it its permit, a stop it sets aside does not. */
  function WaitStep(s: State, step: Step): State {
    match step
    case Enter => if s.permit && !s.inside && s.inHand.None? && !s.handler.Waiting? then s.(inside := true) else s
    case ReapClone(pid) =>
      if s.inside && pid in s.clones
      then s.(clones := s.clones - {pid}, held := s.held + {pid}, inside := false, permit := false) else s
    case ReapStop(pid) =>
      if s.inside && pid in s.stops then s.(stops := s.stops - {pid}, inside := false, inHand := Some(pid)) else s
    case ReapOther => if s.inside then s.(inside := false, permit := false) else s
    case Look =>
      if s.inHand.None? then s
      else if s.inHand.value in s.known
      then s.(inHand := None, permit := false, ordinary := s.ordinary + [s.inHand.value])
      else s.(inHand := None, pending := s.pending + {s.inHand.value}, early := s.early + [s.inHand.value])
    case _ => s
  }

  /** What the engine thread does; its wait for the new thread gives up if the wait thread is in waitpid. */
  function EngineStep(s: State, step: Step): State {
    match step
    case Handle(pid) =>
      if pid in s.held && s.handler.Idle?
      then s.(held := s.held - {pid}, handler := Asked(pid, pid in s.pending), pending := s.pending - {pid}) else s
    case Lock =>
      if !s.handler.Asked? then s
      else if s.handler.early then s.(handler := Initialized(s.handler.pid))
      else if s.inside then s.(handler := Idle, failed := s.failed + {s.handler.pid})
      else s.(handler := Waiting(s.handler.pid))
    case Await =>
      if s.handler.Waiting? && s.handler.pid in s.stops
      then s.(stops := s.stops - {s.handler.pid}, waited := s.waited + [s.handler.pid],
              handler := Initialized(s.handler.pid)) else s
    case Register =>
      if s.handler.Initialized?
      then s.(known := s.known + {s.handler.pid}, handler := Registered(s.handler.pid)) else s
    case Forget =>
      if s.handler.Registered? then s.(pending := s.pending - {s.handler.pid}, handler := Idle) else s
    case Request => if s.handler.Idle? then s.(permit := true) else s
    case _ => s
  }

  predicate ByWait(step: Step) {
    step.Enter? || step.ReapClone? || step.ReapStop? || step.ReapOther? || step.Look?
  }

  /** One step; a step that is not enabled, such as a wait for a stop that has gone, changes nothing. */
  function Next(s: State, step: Step): State {
    if step.Create? then
      if step.pid in s.created then s
      else s.(created := s.created + {step.pid}, clones := s.clones + {step.pid}, stops := s.stops + {step.pid})
    else if ByWait(step) then WaitStep(s, step)
    else EngineStep(s, step)
  }

  function Run(s: State, steps: seq<Step>): State
    decreases |steps|
  {
    if steps == [] then s else Run(Next(s, steps[0]), steps[1..])
  }

  // ------------------------------------------------------------- invariant

  /** The initial stop of `pid` was reaped, by whichever thread. */
  predicate Reaped(s: State, pid: nat) {
    s.inHand == Some(pid) || pid in s.early || pid in s.waited
  }

  /** The clone event of `pid` is on its way to the engine thread. */
  predicate CloneUnhandled(s: State, pid: nat) {
    pid in s.clones || pid in s.held
  }

  /** The engine thread did not find the stop of `pid` in the table and has not got it yet. */
  predicate Missing(s: State, pid: nat) {
    s.handler == Asked(pid, false) || s.handler == Waiting(pid)
  }

  predicate Distinct(s: seq<nat>) {
    forall i, j :: 0 <= i < j < |s| ==> s[i] != s[j]
  }

  /** Each created thread's stop is in one place. */
  ghost predicate StopsOk(s: State) {
    && (forall p :: p in s.created <==> p in s.stops || Reaped(s, p))
    && (forall p :: p in s.stops ==> !Reaped(s, p))
    && (forall p :: p in s.early ==> p !in s.waited && s.inHand != Some(p))
    && (forall p :: p in s.waited ==> s.inHand != Some(p))
    && Distinct(s.early) && Distinct(s.waited) && s.ordinary == []
    && (s.inside || s.inHand.Some? ==> s.permit) && !(s.inside && (s.inHand.Some? || s.handler.Waiting?))
  }

  /** Each created thread's clone event is in one place. */
  predicate ClonesOk(s: State) {
    && (forall p :: p in s.clones ==> p !in s.held && p in s.created && p !in s.known && p !in s.failed)
    && (forall p :: p in s.held ==> p in s.created && p !in s.known && p !in s.failed)
    && (forall p :: p in s.failed ==> p in s.created && p !in s.known)
    && (!s.handler.Idle? ==> !CloneUnhandled(s, s.handler.pid) && s.handler.pid !in s.failed
                             && s.handler.pid in s.created)
    && (s.handler.Asked? || s.handler.Waiting? || s.handler.Initialized? ==> s.handler.pid !in s.known)
  }

  ghost predicate TablesOk(s: State) {
    && (forall p :: p in s.created ==>
          CloneUnhandled(s, p) || p in s.known || p in s.failed || (!s.handler.Idle? && s.handler.pid == p))
    && (forall p :: p in s.known ==> p in s.early || p in s.waited)
    && (forall p :: p in s.pending <==> p in s.early && (CloneUnhandled(s, p) || Missing(s, p) || p in s.failed))
    && (s.handler.Initialized? || s.handler.Registered? || (s.handler.Asked? && s.handler.early) ==>
          s.handler.pid in s.early || s.handler.pid in s.waited)
    && (s.handler.Registered? ==> s.handler.pid in s.known)
    && (forall p :: p in s.waited ==> !CloneUnhandled(s, p) && !Missing(s, p) && p !in s.failed)
  }

  ghost predicate Inv(s: State) {
    StopsOk(s) && ClonesOk(s) && TablesOk(s)
  }

  lemma CreateKeepsInv(s: State, pid: nat)
    requires Inv(s)
    ensures Inv(Next(s, Create(pid)))
  {
  }

  lemma ReapingKeepsInv(s: State, step: Step)
    requires Inv(s) && ByWait(step) && !step.Look?
    ensures Inv(Next(s, step))
  {
  }

  lemma LookKeepsInv(s: State)
    requires Inv(s)
    ensures Inv(Next(s, Look))
  {
  }

  lemma HandleKeepsInv(s: State, pid: nat)
    requires Inv(s)
    ensures Inv(Next(s, Handle(pid)))
  {
  }

  lemma LockKeepsPlaces(s: State)
    requires Inv(s)
    ensures StopsOk(Next(s, Lock)) && ClonesOk(Next(s, Lock))
  {
  }

  lemma LockKeepsTables(s: State)
    requires Inv(s)
    ensures TablesOk(Next(s, Lock))
  {
  }

  lemma AwaitKeepsInv(s: State)
    requires Inv(s)
    ensures Inv(Next(s, Await))
  {
  }

  lemma RegisterKeepsInv(s: State)
    requires Inv(s)
    ensures Inv(Next(s, Register))
  {
  }

  lemma FinishingKeepsInv(s: State, step: Step)
    requires Inv(s) && (step.Forget? || step.Request?)
    ensures Inv(Next(s, step))
  {
  }

  lemma NextKeepsInv(s: State, step: Step)
    requires Inv(s)
    ensures Inv(Next(s, step))
  {
    if step.Create? {
      CreateKeepsInv(s, step.pid);
    } else if step.Look? {
      LookKeepsInv(s);
    } else if ByWait(step) {
      ReapingKeepsInv(s, step);
    } else if step.Handle? {
      HandleKeepsInv(s, step.pid);
    } else if step.Lock? {
      LockKeepsPlaces(s);
      LockKeepsTables(s);
    } else if step.Await? {
      AwaitKeepsInv(s);
    } else if step.Register? {
      RegisterKeepsInv(s);
    } else {
      FinishingKeepsInv(s, step);
    }
  }

  lemma {:induction false} RunKeepsInv(s: State, steps: seq<Step>)
    requires Inv(s)
    ensures Inv(Run(s, steps))
    decreases |steps|
  {
    if steps != [] {
      NextKeepsInv(s, steps[0]);
      RunKeepsInv(Next(s, steps[0]), steps[1..]);
    }
  }

  // ---------------------------------------------------------- main results

  /**
   For any number of new threads and any interleaving: no initial stop is delivered as an ordinary
   event; each is reaped at most once, and exactly once if its thread is known; the table holds
   exactly the stops set aside for clone events not yet handled, handled too early to see them, or
   given up.
   */
  lemma InitialStopsAreReapedOnce(steps: seq<Step>, p: nat)
    ensures var s := Run(INITIAL, steps);
            && s.ordinary == []
            && multiset(s.early)[p] + multiset(s.waited)[p] <= 1
            && (p in s.known ==> multiset(s.early)[p] + multiset(s.waited)[p] == 1)
            && (p in s.pending <==>
                multiset(s.early)[p] == 1 && (CloneUnhandled(s, p) || Missing(s, p) || p in s.failed))
  {
    RunKeepsInv(INITIAL, steps);
    var s := Run(INITIAL, steps);
    DistinctCount(s.early, p);
    DistinctCount(s.waited, p);
  }

  /** An event that the wait thread publishes costs it its permit, which only the engine thread gives back. */
  lemma PublishingCostsThePermit(s: State, pid: nat)
    requires s.inside
    ensures Next(s, ReapOther) == s.(inside := false, permit := false)
    ensures pid in s.clones ==> !Next(s, ReapClone(pid)).permit && pid in Next(s, ReapClone(pid)).held
    ensures pid in s.stops ==> Next(s, ReapStop(pid)).permit == s.permit && Next(s, ReapStop(pid)).inHand == Some(pid)
    ensures Next(s, Request).permit <==> s.permit || s.handler.Idle?
  {
  }

  /** Every clone event is handled as part of event processing, when the wait thread has no permit. */
  predicate DuringEvents(s: State, steps: seq<Step>)
    decreases |steps|
  {
    steps != [] ==> (steps[0].Handle? ==> !s.permit) && DuringEvents(Next(s, steps[0]), steps[1..])
  }

  predicate Served(s: State) {
    && s.failed == {} && (!s.handler.Idle? ==> !s.permit)
    && (s.handler.Waiting? || (s.handler.Asked? && !s.handler.early) ==> s.handler.pid in s.stops)
  }

  lemma StepKeepsServed(s: State, step: Step)
    requires Inv(s) && Served(s) && (step.Handle? ==> !s.permit)
    ensures Served(Next(s, step))
  {
    if step.Handle? && step.pid in s.held && s.handler.Idle? {
      assert CloneUnhandled(s, step.pid) && step.pid in s.created;
    }
  }

  lemma {:induction false} RunKeepsServed(s: State, steps: seq<Step>)
    requires Inv(s) && Served(s) && DuringEvents(s, steps)
    ensures Served(Run(s, steps)) && Inv(Run(s, steps))
    decreases |steps|
  {
    if steps != [] {
      NextKeepsInv(s, steps[0]);
      StepKeepsServed(s, steps[0]);
      RunKeepsServed(Next(s, steps[0]), steps[1..]);
    }
  }

  /** The engine thread waits for a stop that the wait thread has taken. */
  predicate Stuck(s: State) {
    s.handler.Waiting? && s.handler.pid !in s.stops
  }

  /**
   While clone events are handled as part of event processing, the engine thread gives no thread up,
   its own wait always finds the stop it waits for, and the table is exactly the early stops of
   unhandled clones.
   */
  lemma EngineNeverWaitsInVain(steps: seq<Step>, p: nat)
    requires DuringEvents(INITIAL, steps)
    ensures var s := Run(INITIAL, steps);
            && !Stuck(s) && s.failed == {}
            && (s.handler.Waiting? ==> Next(s, Await).handler == Initialized(s.handler.pid))
            && (p in s.pending <==> p in s.early && CloneUnhandled(s, p))
  {
    RunKeepsServed(INITIAL, steps);
    ServedIsNotInVain(Run(INITIAL, steps), p);
  }

  lemma ServedIsNotInVain(s: State, p: nat)
    requires Inv(s) && Served(s)
    ensures !Stuck(s) && (s.handler.Waiting? ==> Next(s, Await).handler == Initialized(s.handler.pid))
    ensures p in s.pending <==> p in s.early && CloneUnhandled(s, p)
  {
    if s.handler.Waiting? || (s.handler.Asked? && !s.handler.early) {
      assert s.handler.pid in s.stops && s.handler.pid !in s.early;
    }
  }

  /** The steps of the engine thread that handle one clone event. */
  function Handling(pid: nat): seq<Step> {
    [Handle(pid), Lock, Await, Register, Forget]
  }

  /**
   Handling a clone event as part of event processing makes the new thread known, with its stop reaped
   by the wait thread if that was early and by the engine thread otherwise, and leaves nothing behind.
   */
  lemma HandlingMakesThreadKnown(s: State, pid: nat)
    requires Inv(s) && pid in s.held && s.handler.Idle? && !s.permit
    ensures var s' := Run(s, Handling(pid));
            && s'.handler.Idle? && pid in s'.known && pid !in s'.pending && s'.failed == s.failed
            && s'.ordinary == [] && s'.early == s.early
            && s'.waited == if pid in s.pending then s.waited else s.waited + [pid]
  {
    var s1 := Next(s, Handle(pid));
    HandlingSteps(s, pid);
    HandleKeepsInv(s, pid);
    assert CloneUnhandled(s, pid) && pid in s.created;
    HandlingEnds(s1, pid);
  }

  /** The rest of the handling, once the table was asked. */
  function Rest(s: State): State {
    Next(Next(Next(Next(s, Lock), Await), Register), Forget)
  }

  lemma HandlingSteps(s: State, pid: nat)
    ensures Run(s, Handling(pid)) == Rest(Next(s, Handle(pid)))
  {
    var s1 := Next(s, Handle(pid));
    var s2 := Next(s1, Lock);
    var s3 := Next(s2, Await);
    var s4 := Next(s3, Register);
    RunOne(s4, Forget);
    RunTail(s3, Register, [Forget]);
    RunTail(s2, Await, [Register, Forget]);
    RunTail(s1, Lock, [Await, Register, Forget]);
    RunTail(s, Handle(pid), [Lock, Await, Register, Forget]);
    assert Handling(pid) == [Handle(pid)] + [Lock, Await, Register, Forget];
  }

  lemma RunOne(s: State, step: Step)
    ensures Run(s, [step]) == Next(s, step)
  {
    assert [step][1..] == [];
  }

  lemma RunTail(s: State, step: Step, steps: seq<Step>)
    ensures Run(s, [step] + steps) == Run(Next(s, step), steps)
  {
    assert ([step] + steps)[1..] == steps;
  }

  lemma HandlingEnds(s: State, pid: nat)
    requires s.handler.Asked? && s.handler.pid == pid && !s.inside && pid !in s.pending
    requires !s.handler.early ==> pid in s.stops
    ensures var s' := Rest(s);
            && s'.handler.Idle? && pid in s'.known && pid !in s'.pending && s'.failed == s.failed
            && s'.ordinary == s.ordinary && s'.early == s.early
            && s'.waited == if s.handler.early then s.waited else s.waited + [pid]
  {
  }

  // ------------------------------- when exactly the wait can be in vain

  /** The stop is in the wait thread's hand, or nobody has reaped it and the wait thread may. */
  predicate MayStick(s: State, pid: nat) {
    s.inHand == Some(pid) || (pid in s.stops && s.permit)
  }

  /** The stop was not set aside and the wait thread may be in waitpid when the engine thread wants to be. */
  predicate MayGiveUp(s: State, pid: nat) {
    s.permit && pid !in s.pending
  }

  ghost predicate CanBecomeStuck(s: State, pid: nat) {
    exists steps :: Stuck(Run(s, steps)) && Run(s, steps).handler == Waiting(pid)
  }

  ghost predicate CanBeGivenUp(s: State, pid: nat) {
    exists steps :: pid in Run(s, steps).failed
  }

  /** The handling of `pid` is past the danger, or cannot be disturbed any more. */
  predicate OutOfDanger(s: State, pid: nat) {
    && pid in s.created && pid !in s.failed && !CloneUnhandled(s, pid)
    && (Missing(s, pid) ==> pid in s.stops && !s.permit && !s.inside)
  }

  lemma StepKeepsOutOfDanger(s: State, step: Step, pid: nat)
    requires OutOfDanger(s, pid)
    ensures OutOfDanger(Next(s, step), pid)
  {
  }

  lemma {:induction false} StaysOutOfDanger(s: State, steps: seq<Step>, pid: nat)
    requires OutOfDanger(s, pid)
    ensures OutOfDanger(Run(s, steps), pid)
    decreases |steps|
  {
    if steps != [] {
      StepKeepsOutOfDanger(s, steps[0], pid);
      StaysOutOfDanger(Next(s, steps[0]), steps[1..], pid);
    }
  }

  /** The wait thread goes into waitpid, after it has looked up what it has in hand. */
  lemma GoesInside(s: State, pid: nat) returns (t: State, steps: seq<Step>)
    requires Inv(s) && s.permit && s.handler == Asked(pid, false)
    ensures t == Run(s, steps) && t.inside && t.inHand.None? && t.handler == s.handler && t.stops == s.stops
  {
    steps, t := [], s;
    if s.inHand.Some? {
      t := Next(t, Look);
      steps := [Look];
      assert Run(s, steps) == t;
    }
    if !t.inside {
      RunOneMore(s, steps, Enter);
      t := Next(t, Enter);
      steps := steps + [Enter];
    }
  }

  lemma {:induction false} RunOneMore(s: State, steps: seq<Step>, step: Step)
    ensures Run(s, steps + [step]) == Next(Run(s, steps), step)
    decreases |steps|
  {
    if steps == [] {
      assert [step][1..] == [] && steps + [step] == [step];
    } else {
      RunOneMore(Next(s, steps[0]), steps[1..], step);
      assert (steps + [step])[1..] == steps[1..] + [step];
    }
  }

  lemma CanStick(s: State, pid: nat)
    requires Inv(s) && s.handler == Asked(pid, false) && (s.inHand == Some(pid) || (pid in s.stops && s.permit))
    ensures CanBecomeStuck(s, pid)
  {
    var steps, t := [], s;
    if pid in s.stops {
      t, steps := GoesInside(s, pid);
      RunOneMore(s, steps, ReapStop(pid));
      t := Next(t, ReapStop(pid));
      steps := steps + [ReapStop(pid)];
    }
    RunOneMore(s, steps, Lock);
    t := Next(t, Lock);
    assert Stuck(t) && t.handler == Waiting(pid) && Run(s, steps + [Lock]) == t;
  }

  lemma CanGiveUp(s: State, pid: nat)
    requires Inv(s) && s.handler == Asked(pid, false) && s.permit
    ensures CanBeGivenUp(s, pid)
  {
    var t, steps := GoesInside(s, pid);
    RunOneMore(s, steps, Lock);
    assert pid in Run(s, steps + [Lock]).failed;
  }

  /**
   At the point where the engine thread starts to handle a clone event: some continuation leaves it
   waiting for ever if and only if the stop is in the wait thread's hand or is unreaped and the wait
   thread may wait; and some continuation makes it give the thread up if and only if the wait thread
   may wait and the stop was not set aside.
   */
  lemma DangerAtHandle(s: State, pid: nat)
    requires Inv(s) && pid in s.held && s.handler.Idle?
    ensures CanBecomeStuck(Next(s, Handle(pid)), pid) <==> MayStick(s, pid)
    ensures CanBeGivenUp(Next(s, Handle(pid)), pid) <==> MayGiveUp(s, pid)
  {
    var s' := Next(s, Handle(pid));
    NextKeepsInv(s, Handle(pid));
    assert CloneUnhandled(s, pid);
    if MayStick(s, pid) {
      CanStick(s', pid);
    }
    if MayGiveUp(s, pid) {
      CanGiveUp(s', pid);
    }
    if !MayGiveUp(s, pid) {
      assert OutOfDanger(s', pid);
      forall steps
        ensures OutOfDanger(Run(s', steps), pid)
      {
        StaysOutOfDanger(s', steps, pid);
      }
    }
  }

  /** Once stuck, always stuck. */
  lemma {:induction false} StuckForEver(s: State, steps: seq<Step>)
    requires Inv(s) && Stuck(s)
    ensures Stuck(Run(s, steps)) && Run(s, steps).handler == s.handler
    decreases |steps|
  {
    if steps != [] {
      NextKeepsInv(s, steps[0]);
      StuckForEver(Next(s, steps[0]), steps[1..]);
    }
  }

  /** A parked clone event, drained after a command while the wait thread may wait: both can happen. */
  lemma DrainAfterCommandMayWaitInVain()
    ensures exists steps :: Run(INITIAL, steps).handler == Asked(1, false) && CanBecomeStuck(Run(INITIAL, steps), 1)
                            && CanBeGivenUp(Run(INITIAL, steps), 1)
  {
    var s, steps := CloneIsParked();
    RunKeepsInv(INITIAL, steps);
    DangerAtHandle(s, 1);
    s, steps := Extend(s, steps, Handle(1));
  }

  lemma CloneIsParked() returns (s: State, steps: seq<Step>)
    ensures Run(INITIAL, steps) == s
    ensures 1 in s.held && 1 in s.stops && s.permit && s.handler.Idle? && s.pending == {}
  {
    s, steps := INITIAL, [];
    s, steps := Extend(s, steps, Create(1));
    s, steps := Extend(s, steps, Enter);
    s, steps := Extend(s, steps, ReapClone(1));
    s, steps := Extend(s, steps, Request);
  }

  lemma Extend(s: State, steps: seq<Step>, step: Step) returns (s': State, steps': seq<Step>)
    requires Run(INITIAL, steps) == s
    ensures s' == Next(s, step) && steps' == steps + [step] && Run(INITIAL, steps') == s'
  {
    RunOneMore(INITIAL, steps, step);
    s', steps' := Next(s, step), steps + [step];
  }
}
