/**
 Which operation answers which event, when the engine stops, and what the engine's own acts leave,
 in terms of the event and the operations' answers alone.
 */
module RoutingEffects {
  import opened TargetEvents
  import opened SteppingEngine
  import opened SteppingEngineProofs

  // ------------------------------------------------------ who answers first

  predicate NobodyHoldsBack(chain: seq<Op>, sc: Script) {
    forall j :: 0 <= j < |chain| ==> !sc.holdsBack(chain[j])
  }

  predicate IsCallback(kind: EventKind) {
    kind == ChildCallback || kind == RuntimeInvokeDone
  }

  /** An event no operation takes an interest in before its child has seen it. */
  predicate GoesDown(chain: seq<Op>, sc: Script) {
    && !(sc.event.kind == ChildStopped && sc.event.arg != 0)
    && (sc.event.kind == ChildInterrupted ==> forall j :: 0 <= j < |chain| ==> sc.resume(chain[j]).Declined?)
    && (IsCallback(sc.event.kind) ==>
          forall j :: 0 <= j < |chain| ==> !(chain[j].interruptible && sc.ownsCallback(chain[j])))
  }

  lemma {:induction false} ReverseStartsAtEnd(ops: seq<Op>)
    requires ops != []
    ensures Reverse(ops) != [] && Reverse(ops)[0] == ops[|ops| - 1]
  {
    if |ops| > 1 {
      ReverseStartsAtEnd(ops[1..]);
    }
  }

  /**
   Such an event, for example the plain stop that ends a single step, goes to the last operation of
   the chain first, and on from there until one operation does not hand it on.
   */
  lemma EventGoesToLastFirst(e: Engine, sc: Script)
    requires e.chain != [] && NobodyHoldsBack(e.chain, sc) && GoesDown(e.chain, sc) && ProcessEvent(e, sc, 0).Ok?
    ensures var r := ProcessEvent(e, sc, 0).value;
            && e.visited + [e.chain[|e.chain| - 1]] <= r.engine.visited
            && SettledAt(e, sc, Answerer(e.chain, sc), r)
  {
    NobodyIntercepts(e, sc);
    ScanVisitsASuffix(e, sc);
    LastIsFirst(e, sc, Answerer(e.chain, sc), Scan(e, sc, 0).value);
  }

  lemma NobodyIntercepts(e: Engine, sc: Script)
    requires e.chain != [] && NobodyHoldsBack(e.chain, sc) && GoesDown(e.chain, sc)
    ensures ProcessEvent(e, sc, 0) == Scan(e, sc, 0)
  {
    RoutingIsAScan(e, sc, 0);
    assert FirstIntercept(e.chain, sc, 0).None?;
  }

  lemma LastIsFirst(e: Engine, sc: Script, m: nat, r: Routed)
    requires m < |e.chain| && SettledAt(e, sc, m, r)
    ensures e.visited + [e.chain[|e.chain| - 1]] <= r.engine.visited
  {
    ReverseStartsAtEnd(e.chain[m..]);
  }

  /** A stop by a signal is answered at the root: no operation sees it, and the operation ends or is suspended. */
  lemma SignalIsAnsweredAtRoot(e: Engine, sc: Script)
    requires e.chain != [] && !sc.holdsBack(e.chain[0])
    requires sc.event.kind == ChildStopped && sc.event.arg != 0
    ensures ProcessEvent(e, sc, 0) ==
            Ok(Routed(e, if e.chain[0].interruptible then SuspendOperation else Completed, true))
  {
  }

  lemma {:induction false} AnswerOfFirst(e: Engine, sc: Script, i: nat, k: nat)
    requires i <= k < |e.chain| && !InterceptOf(e.chain[k], sc).Pass?
    requires forall j :: i <= j < k ==> InterceptOf(e.chain[j], sc).Pass?
    ensures ProcessEvent(e, sc, i) == Answer(e, e.chain[k], InterceptOf(e.chain[k], sc))
  {
    RoutingIsAScan(e, sc, i);
    var first := FirstIntercept(e.chain, sc, i);
    assert first == Some(k);
  }

  /** An interrupt is offered from the root down: the first operation that can resume does, unseen by the others. */
  lemma InterruptResumesFirst(e: Engine, sc: Script, k: nat)
    requires k < |e.chain| && NobodyHoldsBack(e.chain, sc) && sc.event.kind == ChildInterrupted
    requires sc.resume(e.chain[k]).Accepted? && forall j :: 0 <= j < k ==> sc.resume(e.chain[j]).Declined?
    ensures ProcessEvent(e, sc, 0) ==
            match PerformAll(e, sc.resume(e.chain[k]).acts)
            case Ok(e') => Ok(Routed(e', Running, false))
            case Throws(f) => Throws(f)
  {
    AnswerOfFirst(e, sc, 0, k);
  }

  /** A callback goes to the invocation that waits for it; nobody else sees it. */
  lemma CallbackGoesToItsOwner(e: Engine, sc: Script, k: nat)
    requires k < |e.chain| && NobodyHoldsBack(e.chain, sc) && IsCallback(sc.event.kind)
    requires e.chain[k].interruptible && sc.ownsCallback(e.chain[k])
    requires forall j :: 0 <= j < k ==> !(e.chain[j].interruptible && sc.ownsCallback(e.chain[j]))
    ensures ProcessEvent(e, sc, 0) == Ok(Routed(e, CompletedCallback, false))
  {
    AnswerOfFirst(e, sc, 0, k);
  }

  /** A step over a breakpoint whose own thread got locked keeps the event from everybody. */
  lemma HeldBackEventIsSeenByNobody(e: Engine, sc: Script, k: nat)
    requires k < |e.chain| && sc.holdsBack(e.chain[k]) && GoesDown(e.chain, sc)
    requires forall j :: 0 <= j < k ==> !sc.holdsBack(e.chain[j])
    ensures ProcessEvent(e, sc, 0) == Ok(Routed(e, Running, false))
  {
    AnswerOfFirst(e, sc, 0, k);
  }

  // --------------------------------------------------- when the engine stops

  lemma {:induction false} ActsKeepFlags(e: Engine, acts: seq<Act>)
    requires PerformAll(e, acts).Ok?
    ensures var e' := PerformAll(e, acts).value;
            && e'.engineStopped == e.engineStopped && e'.stopRequested == e.stopRequested && e'.entered == e.entered
            && e'.reportSuspend == e.reportSuspend && e'.rtiStack == e.rtiStack && e'.dead == e.dead
    decreases |acts|
  {
    if acts != [] {
      ActsKeepFlags(Perform(e, acts[0]).value, acts[1..]);
    }
  }

  predicate SameFlags(e: Engine, e': Engine) {
    && e'.engineStopped == e.engineStopped && e'.entered == e.entered
    && e'.reportSuspend == e.reportSuspend && e'.dead == e.dead
  }

  lemma ReactKeepsFlags(e: Engine, op: Op, sc: Script)
    requires React(e, op, sc).Ok?
    ensures SameFlags(e, React(e, op, sc).value.engine)
  {
    ActsKeepFlags(e.(visited := e.visited + [op]), sc.react(op).acts);
  }

  lemma AfterChildKeepsFlags(below: Routed, sc: Script, k: nat, op: Op)
    requires k < |below.engine.chain| && AfterChild(below, sc, k, op).Ok?
    ensures SameFlags(below.engine, AfterChild(below, sc, k, op).value.engine)
  {
    var cut := Cut(below.engine, k + 1);
    if below.result.ParentResumed? || (!below.result.AskParent? && !below.result.ResumeOperation?) {
    } else if below.result.ResumeOperation? && sc.resume(op).Accepted? {
      ActsKeepFlags(cut, sc.resume(op).acts);
    } else {
      ReactKeepsFlags(cut, op, sc);
    }
  }

  lemma {:induction false} RoutingKeepsFlags(e: Engine, sc: Script, k: nat)
    requires k < |e.chain| && ProcessEvent(e, sc, k).Ok?
    ensures SameFlags(e, ProcessEvent(e, sc, k).value.engine)
    decreases |e.chain| - k
  {
    var op := e.chain[k];
    var intercept := InterceptOf(op, sc);
    if intercept.Resumed? {
      ActsKeepFlags(e, intercept.acts);
    } else if intercept.Pass? && k + 1 == |e.chain| {
      ReactKeepsFlags(e, op, sc);
    } else if intercept.Pass? {
      RoutingKeepsFlags(e, sc, k + 1);
      AfterChildKeepsFlags(ProcessEvent(e, sc, k + 1).value, sc, k, op);
    }
  }

  /** The result of the operations says that the user's operation is over. */
  predicate Over(r: Routed, sc: Script, root: Op) {
    || r.result == Completed || r.result == SuspendOperation || r.result == CompletedCallback
    || (r.result == ResumeOperation && sc.resume(root).Declined?)
  }

  /** But the engine wants another operation first, to leave a place where it should not stop. */
  predicate GoesOn(r: Routed, ending: Ending) {
    r.result != CompletedCallback && !r.hasArgs && ending.another.Some?
  }

  /** The operation is not ended but suspended, and the user enters a nested break state. */
  predicate Suspends(r: Routed, root: Op, ending: Ending, reported: bool) {
    && r.result != CompletedCallback && (r.result == SuspendOperation || reported)
    && root.interruptible && ending.nestedBreakStates
  }

  predicate Halted(e: Engine) {
    e.engineStopped && e.chain == [] && e.tempBreakpoint.None? && !e.stopRequested
  }

  lemma ConcludeEffect(e: Engine, result: EventResult, hasArgs: bool, ending: Ending)
    requires e.chain != [] && Conclude(e, result, hasArgs, ending).Ok?
    ensures var root, e' := e.chain[0], Conclude(e, result, hasArgs, ending).value;
            var suspended := (result == SuspendOperation || root.id in e.reportSuspend)
                             && root.interruptible && ending.nestedBreakStates;
            if !hasArgs && ending.another.Some? then
              && e'.chain != [] && e'.chain[0] == root && |e'.chain| > 1
              && e'.engineStopped == e.engineStopped && e'.entered == e.entered
              && (root.id in e'.reportSuspend <==> suspended)
            else
              && Halted(e') && e'.entered == e.entered + (if suspended then 1 else 0)
              && (suspended ==> e'.nestedBreakStack == e.nestedBreakStack + [root] && root.id in e'.suspended)
              && (!suspended ==> e'.nestedBreakStack == e.nestedBreakStack && e'.suspended == e.suspended)
  {
    var root := e.chain[0];
    var suspended := (result == SuspendOperation || root.id in e.reportSuspend)
      && root.interruptible && ending.nestedBreakStates;
    var reports := e.reportSuspend - {root.id};
    if !hasArgs && ending.another.Some? {
      var e1 := RootOnly(e, if suspended then reports + {root.id} else reports);
      var acts := [Push] + ending.another.value;
      ActsKeepFlags(e1, acts);
      assert acts[1..] == ending.another.value;
      assert Perform(e1, Push).Ok? && |Perform(e1, Push).value.chain| == 2;
    }
  }

  /**
   For every chain, event and answers: the engine stops, with no operation, no temporary breakpoint and
   no stop request, if and only if the operations' result says that the operation is over and no other
   operation is wanted first; and it enters a nested break state if and only if it then suspends.
   */
  lemma EngineStopsExactly(e: Engine, sc: Script, ending: Ending)
    requires e.chain != [] && !e.engineStopped && ProcessOperationEvent(e, sc, ending).Ok?
    ensures ProcessEvent(e, sc, 0).Ok?
    ensures var r, e' := ProcessEvent(e, sc, 0).value, ProcessOperationEvent(e, sc, ending).value;
            var stops := Over(r, sc, e.chain[0]) && !GoesOn(r, ending);
            && (e'.engineStopped <==> stops) && (stops ==> Halted(e')) && (!stops ==> e'.chain != [])
            && e'.entered == e.entered
                 + (if stops && Suspends(r, e.chain[0], ending, e.chain[0].id in e.reportSuspend) then 1 else 0)
  {
    RoutingKeepsFlags(e, sc, 0);
    var r := ProcessEvent(e, sc, 0).value;
    assert r.engine.chain[0] == e.chain[0];
    match r.result
    case Completed => ConcludeEffect(r.engine, Completed, r.hasArgs, ending);
    case SuspendOperation => ConcludeEffect(r.engine, SuspendOperation, r.hasArgs, ending);
    case ResumeOperation =>
      if sc.resume(e.chain[0]).Accepted? {
        ActsKeepFlags(r.engine, sc.resume(e.chain[0]).acts);
      } else {
        ConcludeEffect(r.engine, Completed, r.hasArgs, ending);
      }
    case _ =>
  }

  // ------------------------------------------------------ steps of the engine

  /** An engine that was asked to stop stops at the next event, whatever the operations would have done with it. */
  lemma RequestedStopEndsOperation(e: Engine, step: Step)
    requires Inv(e) && !e.engineStopped && e.stopRequested
    requires step.Handled? || step.Aside? || step.Ordinary? || step.Interrupted?
    ensures var o := Apply(e, step);
            && o.Ok? && Halted(o.value) && o.value.visited == e.visited && o.value.entered == e.entered
            && o.value.nestedBreakStack == e.nestedBreakStack && o.value.rtiStack == e.rtiStack
  {
  }

  /**
   An interrupt, an internal error and an exit end the operation unasked; an exit also ends the thread,
   from which no breakpoint can be removed any more.
   */
  lemma FatalEventsEndOperation(e: Engine, step: Step)
    requires Inv(e) && !e.engineStopped && (step.Interrupted? || step.Fatal? || step.Exit?)
    ensures var o := Apply(e, step);
            && o.Ok? && Halted(o.value) && o.value.visited == e.visited && (o.value.dead <==> step.Exit?)
            && o.value.nestedBreakStack == e.nestedBreakStack
            && (step.Exit? ==> o.value.live == e.live && o.value.gone == e.gone)
  {
  }

  /** A stop request is remembered and changes nothing else. */
  lemma RequestIsRemembered(e: Engine)
    requires Inv(e) && !e.engineStopped
    ensures Apply(e, RequestStop) == Ok(e.(stopRequested := true))
  {
  }

  /** An event that the manager or the engine deals with is not shown to the operations and ends none. */
  lemma SwallowedEventEndsNothing(e: Engine, step: Step)
    requires Inv(e) && !e.engineStopped && !e.stopRequested && (step.Handled? || step.Aside?)
    requires Apply(e, step).Ok?
    ensures var e' := Apply(e, step).value;
            && e.chain <= e'.chain && !e'.engineStopped && e'.visited == e.visited
            && (step.Handled? && !step.resume ==> e' == e)
  {
    if step.Aside? || step.resume {
      ActsKeepFlags(e, step.acts);
      PerformOnlyPushes(e, step.acts);
    }
  }

  /** An ordinary event goes to the operations, after the temporary breakpoint it hit was removed. */
  lemma OrdinaryEventIsRouted(e: Engine, hits: bool, sc: Script, ending: Ending)
    requires Inv(e) && !e.engineStopped && !e.stopRequested
    ensures var e1 := if hits && e.tempBreakpoint.Some?
                      then e.(tempBreakpoint := None, live := e.live - {e.tempBreakpoint.value},
                              gone := e.gone + [e.tempBreakpoint.value]) else e;
            Apply(e, Ordinary(hits, sc, ending)) == ProcessOperationEvent(e1, sc, ending)
  {
  }

  /**
   A command on a stopped engine: the new operation is the root, an invocation is also the innermost of
   the runtime-invoke stack and has a helper below it, and the engine runs. On a running engine it is
   refused.
   */
  lemma CommandBeginsOperation(e: Engine, invoke: bool, acts: seq<Act>)
    requires Inv(e) && !e.dead
    ensures var o := Apply(e, if invoke then StartInvoke(acts) else StartOp(acts));
            && (!e.engineStopped ==> o == Throws(NotStopped))
            && (e.engineStopped && o.Ok? ==>
                  && !o.value.engineStopped && o.value.chain != [] && o.value.chain[0] == Op(e.nextOp, invoke)
                  && (invoke ==> |o.value.chain| > 1 && o.value.chain[1] == Op(e.nextOp + 1, false))
                  && o.value.rtiStack == (if invoke then e.rtiStack + [Op(e.nextOp, true)] else e.rtiStack)
                  && o.value.nextOp > e.nextOp && o.value.nestedBreakStack == e.nestedBreakStack)
  {
    if e.engineStopped {
      var op := Op(e.nextOp, invoke);
      var e1 := e.(engineStopped := false, nextOp := e.nextOp + 1, chain := e.chain + [op]);
      var e2 := if invoke then e1.(rtiStack := e.rtiStack + [op]) else e1;
      var all := if invoke then [Push] + acts else acts;
      var o := PerformAll(e2, all);
      if o.Ok? {
        ActsKeepFlags(e2, all);
        PerformOnlyPushes(e2, all);
        ActsKeepBreakStack(e2, all);
        if invoke {
          assert all[1..] == acts;
          assert Perform(e2, Push).value.chain == [op, Op(e.nextOp + 1, false)];
        }
      }
    }
  }

  lemma {:induction false} ActsKeepBreakStack(e: Engine, acts: seq<Act>)
    requires PerformAll(e, acts).Ok?
    ensures PerformAll(e, acts).value.nestedBreakStack == e.nestedBreakStack
    decreases |acts|
  {
    if acts != [] {
      ActsKeepBreakStack(Perform(e, acts[0]).value, acts[1..]);
    }
  }

  /** What an operation's act does: a breakpoint is inserted once, removed if there, an operation is appended. */
  lemma ActEffect(e: Engine, act: Act)
    requires BreakpointsOk(e)
    ensures var o := Perform(e, act);
            match act
            case InsertBreakpoint =>
              && (o.Ok? <==> e.chain != [] && e.tempBreakpoint.None?)
              && (o.Ok? ==> o.value.tempBreakpoint == Some(e.inserted) && o.value.live == e.live + {e.inserted}
                            && e.inserted !in e.live && o.value.chain == e.chain)
            case RemoveBreakpoint =>
              && o.Ok? && o.value.tempBreakpoint.None? && o.value.chain == e.chain
              && (e.tempBreakpoint.Some? ==> o.value.live == e.live - {e.tempBreakpoint.value}
                                             && o.value.gone == e.gone + [e.tempBreakpoint.value])
            case Push => o.Ok? && o.value.chain == e.chain + [Op(e.nextOp, false)] && o.value.nextOp == e.nextOp + 1
  {
  }

  /** The end of an invocation is accepted only for the innermost one, and takes it off the stacks. */
  lemma InvocationEnds(e: Engine, id: nat)
    requires Inv(e) && !e.engineStopped
    ensures var o := Apply(e, InvokeDone(id));
            && (o.Ok? <==> e.rtiStack != [] && e.rtiStack[|e.rtiStack| - 1].id == id)
            && (o.Ok? ==>
                  && Halted(o.value) && o.value.rtiStack == e.rtiStack[..|e.rtiStack| - 1]
                  && o.value.left == e.left + (if id in e.suspended then 1 else 0))
  {
    PopKeepsStacks(e, id);
    var o := PopInvoke(e, id);
    if o.Ok? {
      CompletionKeepsInv(o.value.(chain := [e.rtiStack[|e.rtiStack| - 1]]));
    }
  }

  /**
   A return command that unwinds an invocation takes the innermost one off the stacks and ends nothing
   else; for any other it is refused.
   */
  lemma InvocationIsUnwound(e: Engine, id: nat)
    requires Inv(e) && !e.engineStopped && !e.chain[0].interruptible
    ensures var o := Apply(e, AbortInvoke(id));
            && (o.Ok? <==> e.rtiStack != [] && e.rtiStack[|e.rtiStack| - 1].id == id)
            && (o.Ok? ==>
                  && o.value.rtiStack == e.rtiStack[..|e.rtiStack| - 1] && o.value.chain == e.chain
                  && !o.value.engineStopped && o.value.left == e.left + (if id in e.suspended then 1 else 0))
  {
    PopKeepsStacks(e, id);
  }
}
