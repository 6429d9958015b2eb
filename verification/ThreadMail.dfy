/**
 What becomes of the events of a thread. Every run of the process looks, to a single thread, like a
 run of a small machine of its own; what that machine keeps holds for every thread in every run.
 */
module ThreadMail {
  import opened TargetEvents
  import opened ThreadLocks

  // --------------------------------------------------- the thread's machine

  /** Where an event is when the engine takes it. */
  datatype Place = Kernel | Table

  /** What the engine does with the thread after its event was processed. */
  datatype After = Going | Ending | Staying

  datatype Move =
    | TrapIn(sig: Signal)
    | Collect
    | Lock(sig: Signal)
    | Unlock
    | Serve(from: Place, after: After)
    | Remember(from: Place)
    | Leave(from: Place)
    | Launch                              // a command starts the thread
    | Repark                              // a kept event goes back to the pending table
    | Suspend(sig: Signal, handled: bool)

  predicate Has(t: Thread, from: Place) {
    if from.Kernel? then t.target.Trapped? else t.parked.Some?
  }

  function Taken(t: Thread, from: Place): Event
    requires Has(t, from)
  {
    if from.Kernel? then t.target.event else t.parked.value
  }

  function Without(t: Thread, from: Place): Thread
    requires Has(t, from)
  {
    if from.Kernel? then t.(target := Rest(t.target.event)) else t.(parked := None)
  }

  function Then(t: Thread, after: After): Thread {
    match after
    case Going => Resumed(t)
    case Ending => Completed(t)
    case Staying => t
  }

  function Launched(t: Thread): Thread {
    Resumed(t.(engineStopped := false, busy := true))
  }

  function Accepted(o: Outcome<Thread, Fault>): Option<Thread> {
    match o
    case Ok(t) => Some(t)
    case Throws(_) => None
  }

  function Do(t: Thread, m: Move): Option<Thread> {
    match m
    case TrapIn(sig) =>
      if t.target.Running?
      then Some(t.(target := Trapped(Event(sig.kind, sig.arg, t.born), false), born := t.born + 1)) else None
    case Collect => if t.target.Trapped? then Some(t.(target := Trapped(t.target.event, true))) else None
    case Lock(sig) => if t.HasThreadLock() then None else Some(AcquireThreadLock(t, sig))
    case Unlock => if CanPark(t) then Some(ReleaseThreadLock(t)) else None
    case Serve(from, after) =>
      if Has(t, from) then Some(Then(Delivered(Without(t, from), Taken(t, from)), after)) else None
    case Remember(from) =>
      if !Has(t, from) || !t.HasThreadLock() then None
      else Accepted(SetStopEvent(Without(t, from), Taken(t, from)))
    case Leave(from) => if Has(t, from) then Some(Exited(Without(t, from), Taken(t, from))) else None
    case Launch => if t.engineStopped && !t.HasThreadLock() then Some(Launched(t)) else None
    case Repark =>
      if t.threadLock.None? || t.threadLock.value.pushedRegisters || t.threadLock.value.stopEvent.None?
        || t.parked.Some?
      then None
      else Some(t.(parked := t.threadLock.value.stopEvent, threadLock := None, engineStopped := false, busy := true))
    case Suspend(sig, handled) => Accepted(SuspendUserThread(t, sig, handled))
  }

  function DoAll(t: Thread, ms: seq<Move>): Option<Thread>
    decreases |ms|
  {
    if ms == [] then Some(t)
    else
      match Do(t, ms[0])
      case Some(t') => DoAll(t', ms[1..])
      case None => None
  }

  lemma DoOne(t: Thread, m: Move)
    ensures DoAll(t, [m]) == Do(t, m)
  {
    assert [m][1..] == [];
  }

  lemma DoTwo(t: Thread, m: Move, m': Move)
    requires Do(t, m).Some?
    ensures DoAll(t, [m, m']) == Do(Do(t, m).value, m')
  {
    assert [m, m'][1..] == [m'];
    DoOne(Do(t, m).value, m');
  }

  // ------------------------------------------------- projection of the steps

  /** The command of this step really starts thread `j`. */
  predicate Launches(s: System, step: Step, j: nat) {
    && (step.Start? || (step.ResumeUser? && j < |s.threads| && s.threads[j].threadLock.None?))
    && step.i == j && Present(s, j) && Drained(s, j)
    && s.threads[j].engineStopped && !s.threads[j].HasThreadLock()
  }

  predicate Harmless(ms: seq<Move>) {
    forall k :: 0 <= k < |ms| ==> !ms[k].Launch?
  }

  /** What the end of an event or command by thread `i` does to the other threads. */
  lemma OthersProceed(s: System, i: nat, next: Next, sigs: Signals, j: nat) returns (ms: seq<Move>)
    requires i < |s.threads| && j < |s.threads| && j != i && Proceed(s, i, next, sigs).Ok?
    ensures |Proceed(s, i, next, sigs).value.threads| == |s.threads|
    ensures DoAll(s.threads[j], ms) == Some(Proceed(s, i, next, sigs).value.threads[j])
    ensures ms == [] || (|ms| == 1 && ms[0].Lock?)
  {
    ms := [];
    if next.StepOver? && !s.threads[j].removed {
      ms := [Lock(sigs(j))];
      DoOne(s.threads[j], ms[0]);
    }
  }

  lemma OthersDeliver(s: System, i: nat, e: Event, r: Reaction, sigs: Signals, j: nat) returns (ms: seq<Move>)
    requires i < |s.threads| && j < |s.threads| && j != i && Deliver(s, i, e, r, sigs).Ok?
    requires !s.threads[i].HasThreadLock()
    ensures |Deliver(s, i, e, r, sigs).value.threads| == |s.threads|
    ensures DoAll(s.threads[j], ms) == Some(Deliver(s, i, e, r, sigs).value.threads[j]) && Harmless(ms)
  {
    if r.release && s.holder == Some(i) {
      var freed := EndStepOver(s, i).value;
      assert freed.threads[i] == s.threads[i];
      ms := OthersProceed(Update(freed, i, Delivered(freed.threads[i], e)), i, r.next, sigs, j);
      if !s.threads[j].removed {
        assert Do(s.threads[j], Unlock) == Some(freed.threads[j]);
        if ms == [] {
          ms := [Unlock];
          DoOne(s.threads[j], Unlock);
        } else {
          DoOne(freed.threads[j], ms[0]);
          DoTwo(s.threads[j], Unlock, ms[0]);
          ms := [Unlock, ms[0]];
        }
      }
    } else {
      ms := OthersProceed(Update(s, i, Delivered(s.threads[i], e)), i, r.next, sigs, j);
    }
  }

  function AfterOf(next: Next): After {
    match next
    case Resume => Going
    case StepOver(_) => Going
    case Complete => Ending
    case Stay => Staying
  }

  lemma ActorProceeds(s: System, i: nat, next: Next, sigs: Signals)
    requires i < |s.threads| && Proceed(s, i, next, sigs).Ok?
    ensures |Proceed(s, i, next, sigs).value.threads| == |s.threads|
    ensures Proceed(s, i, next, sigs).value.threads[i] == Then(s.threads[i], AfterOf(next))
  {
  }

  lemma ActorDelivers(s: System, i: nat, e: Event, r: Reaction, sigs: Signals)
    requires i < |s.threads| && !s.threads[i].HasThreadLock() && Deliver(s, i, e, r, sigs).Ok?
    ensures |Deliver(s, i, e, r, sigs).value.threads| == |s.threads|
    ensures Deliver(s, i, e, r, sigs).value.threads[i] == Then(Delivered(s.threads[i], e), AfterOf(r.next))
  {
    if r.release && s.holder == Some(i) {
      var freed := EndStepOver(s, i).value;
      assert freed.threads[i] == s.threads[i];
      ActorProceeds(Update(freed, i, Delivered(freed.threads[i], e)), i, r.next, sigs);
    } else {
      ActorProceeds(Update(s, i, Delivered(s.threads[i], e)), i, r.next, sigs);
    }
  }

  /** Processing the event thread `i` had in the place `from`, as thread `j` sees it. */
  lemma ProcessMoves(s: System, i: nat, from: Place, r: Reaction, sigs: Signals, j: nat) returns (ms: seq<Move>)
    requires i < |s.threads| && j < |s.threads| && Has(s.threads[i], from)
    requires ProcessEvent(Update(s, i, Without(s.threads[i], from)), i, Taken(s.threads[i], from), r, sigs).Ok?
    ensures var o := ProcessEvent(Update(s, i, Without(s.threads[i], from)), i, Taken(s.threads[i], from), r, sigs);
            && |o.value.threads| == |s.threads|
            && DoAll(s.threads[j], ms) == Some(o.value.threads[j]) && Harmless(ms)
  {
    var t, e := s.threads[i], Taken(s.threads[i], from);
    var s' := Update(s, i, Without(t, from));
    if IsExit(e.kind) {
      ms := if i == j then [Leave(from)] else [];
      DoOne(t, Leave(from));
    } else if t.HasThreadLock() {
      ms := if i == j then [Remember(from)] else [];
      DoOne(t, Remember(from));
    } else {
      ActorDelivers(s', i, e, r, sigs);
      if i == j {
        ms := [Serve(from, AfterOf(r.next))];
        DoOne(t, ms[0]);
      } else {
        ms := OthersDeliver(s', i, e, r, sigs, j);
      }
    }
  }

  lemma ReplayMoves(s: System, i: nat, r: Reaction, sigs: Signals, j: nat) returns (ms: seq<Move>)
    requires i < |s.threads| && j < |s.threads| && s.threads[i].parked.Some?
    requires Replay(Update(s, i, s.threads[i].(parked := None)), i, s.threads[i].parked.value, r, sigs).Ok?
    ensures var o := Replay(Update(s, i, s.threads[i].(parked := None)), i, s.threads[i].parked.value, r, sigs);
            && |o.value.threads| == |s.threads|
            && DoAll(s.threads[j], ms) == Some(o.value.threads[j]) && Harmless(ms)
  {
    var t, e := s.threads[i], s.threads[i].parked.value;
    var s' := Update(s, i, t.(parked := None));
    if e.kind.ChildStopped? && e.arg == 0 {
      var next := if t.busy && !r.next.Complete? then r.next else Stay;
      var s'' := Update(s', i, Delivered(s'.threads[i], e));
      ActorProceeds(s'', i, next, sigs);
      if i == j {
        ms := [Serve(Table, AfterOf(next))];
        DoOne(t, ms[0]);
      } else {
        ms := OthersProceed(s'', i, next, sigs, j);
      }
    } else if e.kind.ChildInterrupted? {
      ms := if i == j then [Serve(Table, Going)] else [];
      DoOne(t, Serve(Table, Going));
    } else {
      ms := ProcessMoves(s, i, Table, r, sigs, j);
    }
  }

  lemma StartMoves(s: System, i: nat, next: Next, sigs: Signals, j: nat) returns (ms: seq<Move>)
    requires i < |s.threads| && j < |s.threads| && StartOperation(s, i, next, sigs).Ok?
    ensures |StartOperation(s, i, next, sigs).value.threads| == |s.threads|
    ensures DoAll(s.threads[j], ms) == Some(StartOperation(s, i, next, sigs).value.threads[j])
    ensures if i == j then ms == [Launch] else Harmless(ms)
  {
    var t := s.threads[i];
    var s' := Update(s, i, t.(engineStopped := false, busy := true));
    var next' := if next.StepOver? then next else Resume;
    ActorProceeds(s', i, next', sigs);
    if i == j {
      ms := [Launch];
      DoOne(t, Launch);
    } else {
      ms := OthersProceed(s', i, next', sigs, j);
    }
  }

  /** To thread `j` every step of the process is a few moves of its own machine. */
  lemma Projection(s: System, step: Step, j: nat) returns (ms: seq<Move>)
    requires Apply(s, step).Ok? && j < |s.threads|
    ensures j < |Apply(s, step).value.threads|
    ensures DoAll(s.threads[j], ms) == Some(Apply(s, step).value.threads[j])
    ensures if Launches(s, step, j) then ms == [Launch] else Harmless(ms)
  {
    ms := [];
    match step
    case Spawn =>
    case Trap(i, sig) =>
      if i == j && Present(s, i) && s.threads[i].target.Running? {
        ms := [TrapIn(sig)];
        DoOne(s.threads[j], ms[0]);
      }
    case Reap(i) =>
      if i == j && Apply(s, step).value != s {
        ms := [Collect];
        DoOne(s.threads[j], ms[0]);
      }
    case Dispatch(i, r, sigs) =>
      if Present(s, i) && s.threads[i].InFlight() {
        ms := ProcessMoves(s, i, Kernel, r, sigs, j);
      }
    case Drain(i, r, sigs) =>
      if Present(s, i) && s.holder.None? && s.threads[i].parked.Some? {
        ms := ReplayMoves(s, i, r, sigs, j);
      }
    case Start(i, next, sigs) =>
      if Present(s, i) && Drained(s, i) {
        ms := StartMoves(s, i, next, sigs, j);
      }
    case ResumeUser(i, next, sigs) =>
      if Present(s, i) && Drained(s, i) {
        ms := ResumeMoves(s, i, next, sigs, j);
      }
    case SuspendUser(i, sig, handled) =>
      if i == j && Present(s, i) {
        ms := [Suspend(sig, handled)];
        DoOne(s.threads[j], ms[0]);
      }
  }

  lemma ResumeMoves(s: System, i: nat, next: Next, sigs: Signals, j: nat) returns (ms: seq<Move>)
    requires Present(s, i) && Drained(s, i) && j < |s.threads| && ResumeUserThread(s, i, next, sigs).Ok?
    ensures |ResumeUserThread(s, i, next, sigs).value.threads| == |s.threads|
    ensures DoAll(s.threads[j], ms) == Some(ResumeUserThread(s, i, next, sigs).value.threads[j])
    ensures if Launches(s, ResumeUser(i, next, sigs), j) then ms == [Launch] else Harmless(ms)
  {
    ms := [];
    if s.threads[i].threadLock.Some? {
      if i == j {
        ms := [Repark];
        DoOne(s.threads[j], Repark);
      }
    } else if s.threads[i].engineStopped {
      ms := StartMoves(s, i, next, sigs, j);
    }
  }
}
