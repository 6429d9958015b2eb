/**
 Event routing as a scan, and what every run of the engine keeps.
 */
module SteppingEngineProofs {
  import opened TargetEvents
  import opened Sequences
  import opened SteppingEngine

  // ------------------------------------------------- routing is a scan

  /** The first operation from position `k` down that answers before its child. */
  function FirstIntercept(chain: seq<Op>, sc: Script, k: nat): (r: Option<nat>)
    requires k <= |chain|
    ensures r.Some? ==> k <= r.value < |chain| && !InterceptOf(chain[r.value], sc).Pass?
                        && forall j :: k <= j < r.value ==> InterceptOf(chain[j], sc).Pass?
    ensures r.None? ==> forall j :: k <= j < |chain| ==> InterceptOf(chain[j], sc).Pass?
    decreases |chain| - k
  {
    if k == |chain| then None
    else if !InterceptOf(chain[k], sc).Pass? then Some(k)
    else FirstIntercept(chain, sc, k + 1)
  }

  /** The operation at `j` hands the event on to its parent. */
  predicate HandsOn(chain: seq<Op>, sc: Script, j: nat)
    requires j < |chain|
  {
    && j > 0
    && var r := sc.react(chain[j]).result;
       r.AskParent? || (r.ResumeOperation? && sc.resume(chain[j - 1]).Declined?)
  }

  /** The deepest operation that does not hand the event on. */
  function Answerer(chain: seq<Op>, sc: Script): (m: nat)
    requires chain != []
    ensures m < |chain| && !HandsOn(chain, sc, m)
    ensures forall j :: m < j < |chain| ==> HandsOn(chain, sc, j)
  {
    var n := |chain| - 1;
    if !HandsOn(chain, sc, n) then n
    else
      var m := Answerer(chain[..n], sc);
      assert forall j :: 0 <= j < n ==> HandsOn(chain, sc, j) == HandsOn(chain[..n], sc, j);
      m
  }

  /** The scan: ask the deepest operation; while it hands the event on, drop it and ask the next. */
  function Scan(e: Engine, sc: Script, k: nat): (o: Outcome<Routed, Fault>)
    requires k < |e.chain|
    ensures o.Ok? ==> e.chain[..k + 1] <= o.value.engine.chain
    decreases |e.chain|
  {
    var n := |e.chain| - 1;
    var r :- React(e, e.chain[n], sc);
    if n == k then Ok(r)
    else if r.result.ParentResumed? then Ok(Routed(r.engine.(chain := e.chain[..n]), Running, false))
    else if r.result.ResumeOperation? && sc.resume(e.chain[n - 1]).Accepted? then
      var e' :- PerformAll(r.engine.(chain := e.chain[..n]), sc.resume(e.chain[n - 1]).acts);
      Ok(Routed(e', Running, false))
    else if r.result.AskParent? || r.result.ResumeOperation? then
      Scan(r.engine.(chain := e.chain[..n]), sc, k)
    else Ok(r)
  }

  function Bind(o: Outcome<Routed, Fault>, sc: Script, k: nat, op: Op): Outcome<Routed, Fault>
    requires o.Ok? ==> k < |o.value.engine.chain|
  {
    var below :- o;
    AfterChild(below, sc, k, op)
  }

  lemma ScanFromChild(e: Engine, sc: Script, k: nat)
    requires k + 2 == |e.chain|
    ensures Scan(e, sc, k) == Bind(Scan(e, sc, k + 1), sc, k, e.chain[k])
  {
    var r := React(e, e.chain[k + 1], sc);
    assert Scan(e, sc, k + 1) == r;
    if r.Ok? {
      var cut := r.value.engine.(chain := e.chain[..k + 1]);
      assert Cut(r.value.engine, k + 1) == cut;
      assert Scan(cut, sc, k) == React(cut, e.chain[k], sc);
    }
  }

  /** Scanning up to `k` is scanning up to its child and letting `k` deal with the result. */
  lemma {:induction false} ScanOneMore(e: Engine, sc: Script, k: nat)
    requires k + 1 < |e.chain|
    ensures Scan(e, sc, k) == Bind(Scan(e, sc, k + 1), sc, k, e.chain[k])
    decreases |e.chain|
  {
    var n := |e.chain| - 1;
    if n == k + 1 {
      ScanFromChild(e, sc, k);
    } else {
      var r := React(e, e.chain[n], sc);
      if r.Ok? && HandsOn(e.chain, sc, n) {
        var cut := r.value.engine.(chain := e.chain[..n]);
        assert Scan(e, sc, k) == Scan(cut, sc, k) && Scan(e, sc, k + 1) == Scan(cut, sc, k + 1);
        ScanOneMore(cut, sc, k);
      } else if r.Ok? {
        assert Scan(e, sc, k) == Scan(e, sc, k + 1);
      }
    }
  }

  /** No parent changes the answer of an operation that intercepted the event. */
  lemma AnswersAreFinal(e: Engine, op: Op, intercept: Intercept, sc: Script, k: nat)
    requires !intercept.Pass? && k < |e.chain|
    requires Answer(e, op, intercept).Ok? ==> e.chain <= Answer(e, op, intercept).value.engine.chain
    ensures Bind(Answer(e, op, intercept), sc, k, e.chain[k]) == Answer(e, op, intercept)
  {
  }

  /** Routing down and up the chain is: the first interception from the root, or else the scan from the end. */
  lemma {:induction false} RoutingIsAScan(e: Engine, sc: Script, k: nat)
    requires k < |e.chain|
    ensures ProcessEvent(e, sc, k) ==
            match FirstIntercept(e.chain, sc, k)
            case Some(j) => Answer(e, e.chain[j], InterceptOf(e.chain[j], sc))
            case None => Scan(e, sc, k)
    decreases |e.chain| - k
  {
    if InterceptOf(e.chain[k], sc).Pass? && k + 1 < |e.chain| {
      RoutingIsAScan(e, sc, k + 1);
      assert ProcessEvent(e, sc, k) == Bind(ProcessEvent(e, sc, k + 1), sc, k, e.chain[k]);
      var first := FirstIntercept(e.chain, sc, k + 1);
      assert FirstIntercept(e.chain, sc, k) == first;
      if first.Some? {
        AnswersAreFinal(e, e.chain[first.value], InterceptOf(e.chain[first.value], sc), sc, k);
      } else {
        ScanOneMore(e, sc, k);
      }
    }
  }

  function Reverse(ops: seq<Op>): seq<Op> {
    if ops == [] then [] else Reverse(ops[1..]) + [ops[0]]
  }

  lemma {:induction false} ReverseSnoc(ops: seq<Op>, op: Op)
    ensures Reverse(ops + [op]) == [op] + Reverse(ops)
  {
    if ops != [] {
      assert (ops + [op])[1..] == ops[1..] + [op];
      ReverseSnoc(ops[1..], op);
    }
  }

  /** Operations pushed on the way are new. */
  predicate OnlyNew(chain: seq<Op>, from: nat, nextOp: nat) {
    forall i :: from <= i < |chain| ==> chain[i].id >= nextOp && !chain[i].interruptible
  }

  lemma {:induction false} PerformOnlyPushes(e: Engine, acts: seq<Act>)
    requires PerformAll(e, acts).Ok?
    ensures var e' := PerformAll(e, acts).value;
            e'.visited == e.visited && e'.nextOp >= e.nextOp && OnlyNew(e'.chain, |e.chain|, e.nextOp)
    decreases |acts|
  {
    if acts != [] {
      PerformOnlyPushes(Perform(e, acts[0]).value, acts[1..]);
    }
  }

  /** The event was settled at position `m` of the chain. */
  predicate SettledAt(e: Engine, sc: Script, m: nat, r: Routed)
    requires m < |e.chain|
  {
    var answer := sc.react(e.chain[m]).result;
    var resumed := m > 0 && (answer.ParentResumed? || answer.ResumeOperation?);
    var kept := if resumed then m else m + 1;
    && r.engine.visited == e.visited + Reverse(e.chain[m..])
    && r.result == (if resumed then Running else answer)
    && e.chain[..kept] <= r.engine.chain
    && OnlyNew(r.engine.chain, kept, e.nextOp)
  }

  lemma SettledAtTheEnd(e: Engine, sc: Script)
    requires e.chain != [] && Scan(e, sc, 0).Ok? && !HandsOn(e.chain, sc, |e.chain| - 1)
    ensures SettledAt(e, sc, |e.chain| - 1, Scan(e, sc, 0).value)
  {
    var n := |e.chain| - 1;
    var op := e.chain[n];
    var r := React(e, op, sc).value;
    PerformOnlyPushes(e.(visited := e.visited + [op]), sc.react(op).acts);
    assert e.chain[n..] == [op] && Reverse([op]) == [op];
    if n > 0 && sc.react(op).result.ResumeOperation? {
      PerformOnlyPushes(r.engine.(chain := e.chain[..n]), sc.resume(e.chain[n - 1]).acts);
    }
  }

  lemma SettledFurtherUp(e: Engine, cut: Engine, sc: Script, m: nat, r: Routed)
    requires e.chain != [] && cut.chain == e.chain[..|e.chain| - 1] && m < |cut.chain|
    requires cut.visited == e.visited + [e.chain[|e.chain| - 1]] && cut.nextOp >= e.nextOp
    requires SettledAt(cut, sc, m, r)
    ensures SettledAt(e, sc, m, r)
  {
    var op := e.chain[|e.chain| - 1];
    assert e.chain[m..] == cut.chain[m..] + [op];
    ReverseSnoc(cut.chain[m..], op);
  }

  /**
   Who sees an event nobody intercepts: `DoProcessEvent` runs on the operations from the last one
   up to the answerer, each once, in that order; the operations below the answerer are dropped (the
   answerer too, if its parent was resumed in its place) and only new operations come after.
   */
  lemma {:induction false} ScanVisitsASuffix(e: Engine, sc: Script)
    requires e.chain != [] && Scan(e, sc, 0).Ok?
    ensures SettledAt(e, sc, Answerer(e.chain, sc), Scan(e, sc, 0).value)
    decreases |e.chain|
  {
    var n := |e.chain| - 1;
    if !HandsOn(e.chain, sc, n) {
      SettledAtTheEnd(e, sc);
    } else {
      var op := e.chain[n];
      var r := React(e, op, sc).value;
      PerformOnlyPushes(e.(visited := e.visited + [op]), sc.react(op).acts);
      var cut := r.engine.(chain := e.chain[..n]);
      assert Scan(e, sc, 0) == Scan(cut, sc, 0);
      ScanVisitsASuffix(cut, sc);
      SettledFurtherUp(e, cut, sc, Answerer(cut.chain, sc), Scan(cut, sc, 0).value);
    }
  }

  // ------------------------------------------------ the engine's invariant

  /** The invocations on the stack that are suspended, in the order of the stack. */
  function Filter(stack: seq<Op>, suspended: set<nat>): seq<Op> {
    if stack == [] then []
    else
      var n := |stack| - 1;
      Filter(stack[..n], suspended) + if stack[n].id in suspended then [stack[n]] else []
  }

  predicate StacksOk(e: Engine) {
    && StacksMatch(e.rtiStack, e.nestedBreakStack, e.suspended, e.nextOp)
    && e.entered == e.left + |e.nestedBreakStack|
  }

  predicate StacksMatch(rtiStack: seq<Op>, nestedBreakStack: seq<Op>, suspended: set<nat>, nextOp: nat) {
    && nestedBreakStack == Filter(rtiStack, suspended)
    && (forall i, j :: 0 <= i < j < |rtiStack| ==> rtiStack[i].id != rtiStack[j].id)
    && (forall i :: 0 <= i < |rtiStack| ==> rtiStack[i].id < nextOp)
    && (forall x :: x in suspended ==> x < nextOp)
  }

  predicate BreakpointsOk(e: Engine) {
    && (!e.dead ==> e.live == if e.tempBreakpoint.Some? then {e.tempBreakpoint.value} else {})
    && (e.dead ==> e.tempBreakpoint.None?)
    && BooksMatch(e.inserted, e.live, e.gone)
  }

  /** Every breakpoint inserted so far is either live or was removed once. */
  predicate BooksMatch(inserted: nat, live: set<nat>, gone: seq<nat>) {
    && (forall i, j :: 0 <= i < j < |gone| ==> gone[i] != gone[j])
    && (forall x :: x in live ==> x < inserted && x !in gone)
    && (forall x :: x in gone ==> x < inserted)
    && (forall x: nat :: x < inserted ==> x in live || x in gone)
  }

  /** Only the root can be an invocation, and then it is the innermost one and not suspended. */
  predicate RootOk(e: Engine) {
    && (forall i :: 0 < i < |e.chain| ==> !e.chain[i].interruptible)
    && (e.chain != [] && e.chain[0].interruptible ==>
          e.rtiStack != [] && e.rtiStack[|e.rtiStack| - 1] == e.chain[0] && e.chain[0].id !in e.suspended)
  }

  /** The invariant in the middle of processing an event. */
  predicate Working(e: Engine) {
    StacksOk(e) && BreakpointsOk(e) && RootOk(e) && e.chain != [] && !e.engineStopped && !e.dead
  }

  /** The invariant between steps. */
  predicate Inv(e: Engine) {
    && StacksOk(e) && BreakpointsOk(e) && RootOk(e)
    && (e.engineStopped <==> e.chain == [])
    && (e.chain == [] ==> e.tempBreakpoint.None?)
    && (e.dead ==> e.engineStopped)
  }

  /** Nothing the code of an operation does can raise anything but a second temporary breakpoint. */
  predicate WorkingOr(o: Outcome<Engine, Fault>) {
    match o
    case Ok(e) => Working(e)
    case Throws(f) => f == BreakpointInUse
  }

  lemma RemovalKeepsBreakpointsOk(e: Engine)
    requires BreakpointsOk(e)
    ensures BreakpointsOk(RemoveTemporaryBreakpoint(e))
  {
  }

  lemma PerformKeepsWorking(e: Engine, act: Act)
    requires Working(e)
    ensures WorkingOr(Perform(e, act))
  {
    RemovalKeepsBreakpointsOk(e);
  }

  lemma {:induction false} PerformAllKeepsWorking(e: Engine, acts: seq<Act>)
    requires Working(e)
    ensures WorkingOr(PerformAll(e, acts))
    decreases |acts|
  {
    if acts != [] {
      PerformKeepsWorking(e, acts[0]);
      var o := Perform(e, acts[0]);
      if o.Ok? {
        PerformAllKeepsWorking(o.value, acts[1..]);
      }
    }
  }

  predicate RoutedOr(o: Outcome<Routed, Fault>) {
    match o
    case Ok(r) => Working(r.engine)
    case Throws(f) => f == BreakpointInUse
  }

  lemma ReactKeepsWorking(e: Engine, op: Op, sc: Script)
    requires Working(e)
    ensures RoutedOr(React(e, op, sc))
  {
    PerformAllKeepsWorking(e.(visited := e.visited + [op]), sc.react(op).acts);
  }

  lemma AfterChildKeepsWorking(below: Routed, sc: Script, k: nat, op: Op)
    requires Working(below.engine) && k < |below.engine.chain|
    ensures RoutedOr(AfterChild(below, sc, k, op))
  {
    var cut := Cut(below.engine, k + 1);
    assert Working(cut);
    if sc.resume(op).Accepted? {
      PerformAllKeepsWorking(cut, sc.resume(op).acts);
    }
    ReactKeepsWorking(cut, op, sc);
  }

  lemma {:induction false} ProcessKeepsWorking(e: Engine, sc: Script, k: nat)
    requires Working(e) && k < |e.chain|
    ensures RoutedOr(ProcessEvent(e, sc, k))
    decreases |e.chain| - k
  {
    var op := e.chain[k];
    var intercept := InterceptOf(op, sc);
    if intercept.Resumed? {
      PerformAllKeepsWorking(e, intercept.acts);
    } else if intercept.Pass? && k + 1 == |e.chain| {
      ReactKeepsWorking(e, op, sc);
    } else if intercept.Pass? {
      ProcessKeepsWorking(e, sc, k + 1);
      var below := ProcessEvent(e, sc, k + 1);
      if below.Ok? {
        AfterChildKeepsWorking(below.value, sc, k, op);
      }
    }
  }

  lemma CompletionKeepsInv(e: Engine)
    requires StacksOk(e) && BreakpointsOk(e) && e.chain != []
    ensures OperationCompleted(e, false).Ok? && Inv(OperationCompleted(e, false).value)
  {
    RemovalKeepsBreakpointsOk(e);
  }

  lemma {:induction false} FilterIgnores(stack: seq<Op>, suspended: set<nat>, id: nat)
    requires forall i :: 0 <= i < |stack| ==> stack[i].id != id
    ensures Filter(stack, suspended + {id}) == Filter(stack, suspended)
  {
    if stack != [] {
      FilterIgnores(stack[..|stack| - 1], suspended, id);
    }
  }

  lemma SuspensionKeepsInv(e: Engine)
    requires Working(e) && e.chain[0].interruptible && e.chain[0].id < e.nextOp
    ensures OperationCompleted(e, true).Ok? && Inv(OperationCompleted(e, true).value)
  {
    RemovalKeepsBreakpointsOk(e);
    var n := |e.rtiStack| - 1;
    FilterIgnores(e.rtiStack[..n], e.suspended, e.rtiStack[n].id);
  }

  predicate InvOr(o: Outcome<Engine, Fault>) {
    match o
    case Ok(e) => Inv(e)
    case Throws(f) => Tolerable(f)
  }

  /** The exceptions that remain possible. */
  predicate Tolerable(f: Fault) {
    f.NotStopped? || f.UnknownInvoke? || f.EmptyInvokeStack? || f.BreakpointInUse? || f.UnexpectedResult?
  }

  lemma RootOnlyKeepsWorking(e: Engine, reports: set<nat>)
    requires Working(e)
    ensures Working(RootOnly(e, reports))
  {
  }

  lemma WorkingIsInv(o: Outcome<Engine, Fault>)
    requires WorkingOr(o)
    ensures InvOr(o)
  {
  }

  /** An operation that asks for another one keeps the engine working. */
  lemma AnotherKeepsInv(e: Engine, reports: set<nat>, acts: seq<Act>)
    requires Working(e)
    ensures InvOr(PerformAll(RootOnly(e, reports), acts))
  {
    RootOnlyKeepsWorking(e, reports);
    PerformAllKeepsWorking(RootOnly(e, reports), acts);
    WorkingIsInv(PerformAll(RootOnly(e, reports), acts));
  }

  lemma EndKeepsInv(e: Engine, reports: set<nat>, suspend: bool)
    requires Working(e) && (suspend ==> e.chain[0].interruptible)
    ensures InvOr(OperationCompleted(RootOnly(e, reports), suspend))
  {
    RootOnlyKeepsWorking(e, reports);
    if suspend {
      SuspensionKeepsInv(RootOnly(e, reports));
    } else {
      CompletionKeepsInv(RootOnly(e, reports));
    }
  }

  lemma ConcludeKeepsInv(e: Engine, result: EventResult, hasArgs: bool, ending: Ending)
    requires Working(e)
    ensures InvOr(Conclude(e, result, hasArgs, ending))
  {
    var root := e.chain[0];
    var suspend := (result.SuspendOperation? || root.id in e.reportSuspend) && root.interruptible
      && ending.nestedBreakStates;
    var reports := e.reportSuspend - {root.id};
    if !hasArgs && ending.another.Some? {
      AnotherKeepsInv(e, if suspend then reports + {root.id} else reports, [Push] + ending.another.value);
    } else {
      EndKeepsInv(e, reports, suspend);
    }
  }

  lemma ResultKeepsInv(r: Routed, sc: Script, ending: Ending)
    requires Working(r.engine)
    ensures InvOr(ActOn(r, sc, ending))
  {
    match r.result
    case Completed => ConcludeKeepsInv(r.engine, Completed, r.hasArgs, ending);
    case SuspendOperation => ConcludeKeepsInv(r.engine, SuspendOperation, r.hasArgs, ending);
    case CompletedCallback => CompletionKeepsInv(r.engine);
    case ResumeOperation =>
      if sc.resume(r.engine.chain[0]).Accepted? {
        PerformAllKeepsWorking(r.engine, sc.resume(r.engine.chain[0]).acts);
      } else {
        ConcludeKeepsInv(r.engine, Completed, r.hasArgs, ending);
      }
    case _ =>
  }

  lemma EventKeepsInv(e: Engine, sc: Script, ending: Ending)
    requires Working(e)
    ensures InvOr(ProcessOperationEvent(e, sc, ending))
  {
    ProcessKeepsWorking(e, sc, 0);
    var o := ProcessEvent(e, sc, 0);
    if o.Ok? {
      ResultKeepsInv(o.value, sc, ending);
    }
  }

  lemma PopKeepsStacks(e: Engine, id: nat)
    requires StacksOk(e)
    ensures match PopInvoke(e, id)
            case Ok(e') => StacksOk(e')
                && e' == e.(rtiStack := e'.rtiStack, nestedBreakStack := e'.nestedBreakStack, left := e'.left)
                           && e.rtiStack != [] && e'.rtiStack == e.rtiStack[..|e.rtiStack| - 1]
            case Throws(f) => f.UnknownInvoke? || f.EmptyInvokeStack?
  {
  }

  lemma StartKeepsInv(e: Engine, interruptible: bool, acts: seq<Act>)
    requires Inv(e) && !e.dead
    ensures InvOr(Start(e, Op(e.nextOp, interruptible), acts))
  {
    if e.engineStopped {
      var op := Op(e.nextOp, interruptible);
      var e' := e.(engineStopped := false, nextOp := e.nextOp + 1, chain := e.chain + [op]);
      if interruptible {
        var e'' := e'.(rtiStack := e.rtiStack + [op]);
        assert e''.rtiStack[..|e.rtiStack|] == e.rtiStack;
        PerformAllKeepsWorking(e'', [Push] + acts);
      } else {
        PerformAllKeepsWorking(e', acts);
      }
    }
  }

  lemma InvokeDoneKeepsInv(e: Engine, id: nat)
    requires Inv(e) && !e.engineStopped
    ensures InvOr(Apply(e, InvokeDone(id)))
  {
    PopKeepsStacks(e, id);
    var o := PopInvoke(e, id);
    if o.Ok? {
      CompletionKeepsInv(o.value.(chain := [e.rtiStack[|e.rtiStack| - 1]]));
    }
  }

  lemma OrdinaryKeepsInv(e: Engine, hits: bool, sc: Script, ending: Ending)
    requires Inv(e) && !e.engineStopped
    ensures InvOr(Apply(e, Ordinary(hits, sc, ending)))
  {
    CompletionKeepsInv(e);
    RemovalKeepsBreakpointsOk(e);
    EventKeepsInv(if hits then RemoveTemporaryBreakpoint(e) else e, sc, ending);
  }

  lemma ApplyKeepsInv(e: Engine, step: Step)
    requires Inv(e)
    ensures InvOr(Apply(e, step))
  {
    if e.dead {
    } else if step.StartOp? || step.StartInvoke? {
      StartKeepsInv(e, step.StartInvoke?, step.acts);
    } else if !e.engineStopped {
      match step
      case RequestStop =>
      case Handled(resume, acts) =>
        CompletionKeepsInv(e);
        PerformAllKeepsWorking(e, acts);
      case Interrupted => CompletionKeepsInv(e);
      case Fatal => CompletionKeepsInv(e);
      case InvokeDone(id) => InvokeDoneKeepsInv(e, id);
      case AbortInvoke(id) => PopKeepsStacks(e, id);
      case Aside(acts) =>
        CompletionKeepsInv(e);
        PerformAllKeepsWorking(e, acts);
      case Ordinary(hits, sc, ending) => OrdinaryKeepsInv(e, hits, sc, ending);
      case Exit => CompletionKeepsInv(e.(tempBreakpoint := None, dead := true));
    }
  }

  // ---------------------------------------------------------- main results

  lemma {:induction false} RunKeepsInv(e: Engine, steps: seq<Step>)
    requires Inv(e)
    ensures InvOr(Run(e, steps))
    decreases |steps|
  {
    if steps != [] {
      ApplyKeepsInv(e, steps[0]);
      var o := Apply(e, steps[0]);
      if o.Ok? {
        RunKeepsInv(o.value, steps[1..]);
      }
    }
  }

  /**
   In every run that does not throw, the nested-break stack is the runtime-invoke stack without the
   invocations that are not suspended, and enter minus leave notifications is its depth; and no run
   at all ends in the "unexpected item" error, the pop of an empty nested-break stack, the failing
   cast, or an event without operation.
   */
  lemma NestedBreaksFollowInvocations(steps: seq<Step>)
    ensures var o := Run(INITIAL, steps);
            && (o.Ok? ==>
                  && o.value.nestedBreakStack == Filter(o.value.rtiStack, o.value.suspended)
                  && o.value.entered - o.value.left == |o.value.nestedBreakStack|)
            && (o.Throws? ==> o.fault != UnexpectedItem && o.fault != EmptyBreakStack
                              && o.fault != BadCast && o.fault != NoOperation)
  {
    RunKeepsInv(INITIAL, steps);
  }

  /**
   In every run that does not throw: at most one temporary breakpoint is in the target, none
   without a current operation, each one ever inserted is still there or was removed exactly once,
   and as long as the thread lives the engine knows the one that is there.
   */
  lemma TemporaryBreakpointsAreTidied(steps: seq<Step>)
    requires Run(INITIAL, steps).Ok?
    ensures var e := Run(INITIAL, steps).value;
            && (!e.dead ==> e.live == if e.tempBreakpoint.Some? then {e.tempBreakpoint.value} else {})
            && (!e.dead && e.chain == [] ==> e.live == {})
            && (forall b: nat :: b < e.inserted ==> multiset(e.gone)[b] == if b in e.live then 0 else 1)
  {
    RunKeepsInv(INITIAL, steps);
    var e := Run(INITIAL, steps).value;
    forall b: nat | b < e.inserted
      ensures multiset(e.gone)[b] == if b in e.live then 0 else 1
    {
      DistinctCount(e.gone, b);
    }
  }
}
