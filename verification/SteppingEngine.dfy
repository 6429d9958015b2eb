/**
 The single-stepping engine of one thread: the chain of operations an event is routed through, the
 runtime-invoke and nested-break stacks, and the temporary breakpoint. What an operation's own code
 does is left open: a `Script` answers for every operation, and every result holds for all scripts.
 */
module SteppingEngine {
  import opened TargetEvents

  /** An operation; runtime invocations are the interruptible ones. */
  datatype Op = Op(id: nat, interruptible: bool)

  datatype EventResult =
    Running | Completed | CompletedCallback | AskParent | ResumeOperation | ParentResumed | SuspendOperation

  /** What the code of an operation does to the engine while it runs. */
  datatype Act = InsertBreakpoint | RemoveBreakpoint | Push

  /** `DoProcessEvent`: the result, what was done on the way, and whether an event to report was made. */
  datatype Reaction = Reaction(result: EventResult, acts: seq<Act>, hasArgs: bool)

  /** `ResumeOperation`. */
  datatype Resumption = Declined | Accepted(acts: seq<Act>)

  /**
   How the operations answer one event. `holdsBack` is the step over a breakpoint whose own thread
   got locked; `ownsCallback` the invocation waiting for this very callback.
   */
  datatype Script = Script(
    event: Signal,
    react: Op -> Reaction,
    resume: Op -> Resumption,
    ownsCallback: Op -> bool,
    holdsBack: Op -> bool)

  /**
   The engine. `live` are the temporary breakpoints really in the target, `inserted` counts all
   that ever were, `gone` lists the ones removed; `entered` and `left` count the notifications
   about nested break states, and `visited` lists the operations whose `DoProcessEvent` ran.
   */
  datatype Engine = Engine(
    chain: seq<Op>,
    rtiStack: seq<Op>,
    nestedBreakStack: seq<Op>,
    suspended: set<nat>,
    reportSuspend: set<nat>,
    tempBreakpoint: Option<nat>,
    live: set<nat>,
    inserted: nat,
    gone: seq<nat>,
    engineStopped: bool,
    stopRequested: bool,
    dead: bool,
    entered: nat,
    left: nat,
    nextOp: nat,
    visited: seq<Op>)

  datatype Fault =
    NotStopped | NoOperation | UnknownInvoke | EmptyInvokeStack | EmptyBreakStack | UnexpectedItem | BadCast
    | BreakpointInUse | UnexpectedResult

  // --------------------------------------------------- primitive operations

  function RemoveTemporaryBreakpoint(e: Engine): Engine {
    match e.tempBreakpoint
    case None => e
    case Some(b) => e.(tempBreakpoint := None, live := e.live - {b}, gone := e.gone + [b])
  }

  function Perform(e: Engine, act: Act): (o: Outcome<Engine, Fault>)
    ensures o.Ok? ==> e.chain <= o.value.chain
  {
    match act
    case InsertBreakpoint =>
      if e.chain == [] then Throws(NoOperation)
      else if e.tempBreakpoint.Some? then Throws(BreakpointInUse)
      else Ok(e.(tempBreakpoint := Some(e.inserted), live := e.live + {e.inserted}, inserted := e.inserted + 1))
    case RemoveBreakpoint => Ok(RemoveTemporaryBreakpoint(e))
    case Push => Ok(e.(chain := e.chain + [Op(e.nextOp, false)], nextOp := e.nextOp + 1))
  }

  function PerformAll(e: Engine, acts: seq<Act>): (o: Outcome<Engine, Fault>)
    ensures o.Ok? ==> e.chain <= o.value.chain
    decreases |acts|
  {
    if acts == [] then Ok(e)
    else
      var e' :- Perform(e, acts[0]);
      PerformAll(e', acts[1..])
  }

  // --------------------------------------------------------------- routing

  datatype Routed = Routed(engine: Engine, result: EventResult, hasArgs: bool)

  /** An operation may answer on the way down, before its child sees the event. */
  datatype Intercept = Pass | Resumed(acts: seq<Act>) | SignalStop | CallbackDone

  function InterceptOf(op: Op, sc: Script): Intercept {
    var kind := sc.event.kind;
    if sc.holdsBack(op) then Resumed([])
    else if op.interruptible && (kind.ChildCallback? || kind.RuntimeInvokeDone?)
      && sc.ownsCallback(op) then CallbackDone
    else if kind.ChildInterrupted? && sc.resume(op).Accepted? then Resumed(sc.resume(op).acts)
    else if kind.ChildStopped? && sc.event.arg != 0 then SignalStop
    else Pass
  }

  function Answer(e: Engine, op: Op, intercept: Intercept): Outcome<Routed, Fault>
    requires !intercept.Pass?
  {
    match intercept
    case Resumed(acts) =>
      var e' :- PerformAll(e, acts);
      Ok(Routed(e', Running, false))
    case SignalStop => Ok(Routed(e, if op.interruptible then SuspendOperation else Completed, true))
    case CallbackDone => Ok(Routed(e, CompletedCallback, false))
  }

  /** `DoProcessEvent` of the operation `op`. */
  function React(e: Engine, op: Op, sc: Script): Outcome<Routed, Fault> {
    var e' :- PerformAll(e.(visited := e.visited + [op]), sc.react(op).acts);
    Ok(Routed(e', sc.react(op).result, sc.react(op).hasArgs))
  }

  function Cut(e: Engine, k: nat): Engine
    requires k <= |e.chain|
  {
    e.(chain := e.chain[..k])
  }

  /** `Operation.ProcessEvent` of the operation at position `k`: child first, then itself. */
  function ProcessEvent(e: Engine, sc: Script, k: nat): (o: Outcome<Routed, Fault>)
    requires k < |e.chain|
    ensures o.Ok? ==> e.chain[..k + 1] <= o.value.engine.chain
    decreases |e.chain| - k
  {
    var op := e.chain[k];
    var intercept := InterceptOf(op, sc);
    if !intercept.Pass? then Answer(e, op, intercept)
    else if k + 1 == |e.chain| then React(e, op, sc)
    else
      var below :- ProcessEvent(e, sc, k + 1);
      AfterChild(below, sc, k, op)
  }

  /** What the operation at position `k` does with the result of its child. */
  function AfterChild(below: Routed, sc: Script, k: nat, op: Op): (o: Outcome<Routed, Fault>)
    requires k < |below.engine.chain|
    ensures o.Ok? ==> below.engine.chain[..k + 1] <= o.value.engine.chain
  {
    if below.result.ParentResumed? then Ok(Routed(Cut(below.engine, k + 1), Running, false))
    else if !below.result.AskParent? && !below.result.ResumeOperation? then Ok(below)
    else
      var cut := Cut(below.engine, k + 1);
      if below.result.ResumeOperation? && sc.resume(op).Accepted? then
        var e' :- PerformAll(cut, sc.resume(op).acts);
        Ok(Routed(e', Running, false))
      else React(cut, op, sc)
  }

  // ------------------------------------------------------------ completion

  /** `SingleSteppingEngine.OperationCompleted`. */
  function OperationCompleted(e: Engine, suspend: bool): Outcome<Engine, Fault> {
    if e.chain == [] then Throws(NoOperation)
    else
      var root := e.chain[0];
      var e' := RemoveTemporaryBreakpoint(e).(engineStopped := true, stopRequested := false, chain := []);
      if !suspend then Ok(e')
      else if !root.interruptible then Throws(BadCast)
      else Ok(e'.(entered := e.entered + 1, suspended := e.suspended + {root.id},
                  nestedBreakStack := e.nestedBreakStack + [root]))
  }

  /** What `frame_changed` decides and what the configuration says when an operation completes. */
  datatype Ending = Ending(another: Option<seq<Act>>, nestedBreakStates: bool)

  /** The engine with nothing below its root operation. */
  function RootOnly(e: Engine, reports: set<nat>): Engine
    requires e.chain != []
  {
    e.(chain := [e.chain[0]], reportSuspend := reports)
  }

  /** `Operation.CompletedOperation` of the root, and what the engine does with its answer. */
  function Conclude(e: Engine, result: EventResult, hasArgs: bool, ending: Ending): Outcome<Engine, Fault>
    requires e.chain != []
  {
    var root := e.chain[0];
    var asked := result.SuspendOperation? || root.id in e.reportSuspend;
    var suspend := asked && root.interruptible && ending.nestedBreakStates;
    var reports := e.reportSuspend - {root.id};
    if !hasArgs && ending.another.Some? then
      PerformAll(RootOnly(e, if suspend then reports + {root.id} else reports), [Push] + ending.another.value)
    else OperationCompleted(RootOnly(e, reports), suspend)
  }

  /** What the engine does with the result of its operations. */
  function ActOn(r: Routed, sc: Script, ending: Ending): Outcome<Engine, Fault>
    requires r.engine.chain != []
  {
    match r.result
    case Running => Ok(r.engine)
    case Completed => Conclude(r.engine, Completed, r.hasArgs, ending)
    case SuspendOperation => Conclude(r.engine, SuspendOperation, r.hasArgs, ending)
    case CompletedCallback => OperationCompleted(r.engine, false)
    case ResumeOperation =>
      if sc.resume(r.engine.chain[0]).Accepted? then PerformAll(r.engine, sc.resume(r.engine.chain[0]).acts)
      else Conclude(r.engine, Completed, r.hasArgs, ending)
    case _ => Throws(UnexpectedResult)
  }

  /** `ProcessOperationEvent`. */
  function ProcessOperationEvent(e: Engine, sc: Script, ending: Ending): Outcome<Engine, Fault> {
    if e.chain == [] then Throws(NoOperation)
    else
      var r :- ProcessEvent(e, sc, 0);
      ActOn(r, sc, ending)
  }

  /** Take the innermost invocation off the stacks; `id` is what the target says finished. */
  function PopInvoke(e: Engine, id: nat): Outcome<Engine, Fault> {
    if e.rtiStack == [] then Throws(EmptyInvokeStack)
    else
      var n := |e.rtiStack| - 1;
      var rti := e.rtiStack[n];
      if rti.id != id then Throws(UnknownInvoke)
      else if rti.id !in e.suspended then Ok(e.(rtiStack := e.rtiStack[..n]))
      else if e.nestedBreakStack == [] then Throws(EmptyBreakStack)
      else
        var m := |e.nestedBreakStack| - 1;
        if e.nestedBreakStack[m] != rti then Throws(UnexpectedItem)
        else Ok(e.(rtiStack := e.rtiStack[..n], nestedBreakStack := e.nestedBreakStack[..m], left := e.left + 1))
  }

  // ------------------------------------------------------------------ runs

  datatype Step =
    | StartOp(acts: seq<Act>)                    // a user command
    | StartInvoke(acts: seq<Act>)                // a runtime invocation by the user
    | RequestStop                                // another thread stopped; this one is to follow
    | Handled(resume: bool, acts: seq<Act>)      // an event the thread manager swallowed
    | Interrupted
    | Fatal                                      // an internal error or a finished callback
    | InvokeDone(id: nat)
    | AbortInvoke(id: nat)                       // a return command unwound an invocation
    | Aside(acts: seq<Act>)                      // an event answered without asking the operations
    | Ordinary(hitsTemporary: bool, script: Script, ending: Ending)
    | Exit

  function Start(e: Engine, op: Op, acts: seq<Act>): Outcome<Engine, Fault> {
    if !e.engineStopped then Throws(NotStopped)
    else
      var e' := e.(engineStopped := false, nextOp := e.nextOp + 1, chain := e.chain + [op]);
      if op.interruptible then PerformAll(e'.(rtiStack := e.rtiStack + [op]), [Push] + acts)
      else PerformAll(e', acts)
  }

  /** One step; a stopped or dead thread reports nothing, so an event step then changes nothing. */
  function Apply(e: Engine, step: Step): Outcome<Engine, Fault> {
    if e.dead then Ok(e)
    else if step.StartOp? then Start(e, Op(e.nextOp, false), step.acts)
    else if step.StartInvoke? then Start(e, Op(e.nextOp, true), step.acts)
    else if e.engineStopped then Ok(e)
    else
      match step
      case RequestStop => Ok(e.(stopRequested := true))
      case Handled(resume, acts) =>
        if e.stopRequested then OperationCompleted(e, false)
        else if !resume then Ok(e)
        else if e.chain == [] then Throws(NoOperation)
        else PerformAll(e, acts)
      case Interrupted => if e.chain == [] then Ok(e) else OperationCompleted(e, false)
      case Fatal => OperationCompleted(e, false)
      case InvokeDone(id) =>
        var e' :- PopInvoke(e, id);
        if e'.chain == [] then Throws(NoOperation)
        else OperationCompleted(e'.(chain := [e.rtiStack[|e.rtiStack| - 1]]), false)
      case AbortInvoke(id) =>
        if e.chain != [] && e.chain[0].interruptible then Ok(e) else PopInvoke(e, id)
      case Aside(acts) =>
        if e.stopRequested then OperationCompleted(e, false) else PerformAll(e, acts)
      case Ordinary(hits, sc, ending) =>
        if e.stopRequested then OperationCompleted(e, false)
        else ProcessOperationEvent(if hits then RemoveTemporaryBreakpoint(e) else e, sc, ending)
      case Exit =>
        var e' := e.(tempBreakpoint := None, dead := true);
        if e.chain == [] then Ok(e') else OperationCompleted(e', false)
      case _ => Ok(e)
  }

  function Run(e: Engine, steps: seq<Step>): Outcome<Engine, Fault>
    decreases |steps|
  {
    if steps == [] then Ok(e)
    else
      var e' :- Apply(e, steps[0]);
      Run(e', steps[1..])
  }

  const INITIAL := Engine([], [], [], {}, {}, None, {}, 0, [], true, false, false, 0, 0, 0, [])
}
