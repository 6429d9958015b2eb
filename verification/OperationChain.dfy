/**
 The operations as the objects they are: each holds a reference to its child, an event travels down
 the references and its result comes back up, and pushing walks to the last operation.
 */
module OperationChain {
  import opened TargetEvents
  import S = SteppingEngine

  class Operation {
    const op: S.Op
    var child: Operation?

    constructor (op: S.Op)
      ensures this.op == op && child == null
    {
      this.op := op;
      child := null;
    }
  }

  ghost function Values(ops: seq<Operation>): seq<S.Op> {
    seq(|ops|, i requires 0 <= i < |ops| => ops[i].op)
  }

  ghost function Next(ops: seq<Operation>, i: nat): Operation? {
    if i + 1 < |ops| then ops[i + 1] else null
  }

  /** A method did what the function says: the same value, or the same exception. */
  ghost predicate Agrees<T(!new)>(fault: Option<S.Fault>, v: T, o: Outcome<T, S.Fault>) {
    match o
    case Ok(w) => fault.None? && v == w
    case Throws(f) => fault == Some(f)
  }

  class Engine {
    var currentOperation: Operation?
    ghost var chain: seq<Operation>
    var rtiStack: seq<S.Op>
    var nestedBreakStack: seq<S.Op>
    var suspended: set<nat>
    var reportSuspend: set<nat>
    var tempBreakpoint: Option<nat>
    var live: set<nat>
    var inserted: nat
    var gone: seq<nat>
    var engineStopped: bool
    var stopRequested: bool
    var dead: bool
    var entered: nat
    var left: nat
    var nextOp: nat
    var visited: seq<S.Op>

    /** `chain` is what following the child references from the current operation gives. */
    ghost predicate Valid()
      reads this, chain
    {
      && currentOperation == (if chain == [] then null else chain[0])
      && (forall i, j :: 0 <= i < j < |chain| ==> chain[i] != chain[j])
      && (forall i :: 0 <= i < |chain| ==> chain[i].child == Next(chain, i))
    }

    ghost function View(): S.Engine
      reads this
    {
      S.Engine(Values(chain), rtiStack, nestedBreakStack, suspended, reportSuspend, tempBreakpoint, live,
               inserted, gone, engineStopped, stopRequested, dead, entered, left, nextOp, visited)
    }

    /** Every operation of the chain was there before or is new. */
    twostate predicate Grown()
      reads this
    {
      forall i :: 0 <= i < |chain| ==> chain[i] in old(chain) || fresh(chain[i])
    }

    method PushOperation(op: S.Op)
      requires Valid()
      modifies this`currentOperation, this`chain, chain
      ensures Valid() && Grown()
      ensures |chain| == |old(chain)| + 1 && chain[..|old(chain)|] == old(chain)
      ensures Values(chain) == Values(old(chain)) + [op]
    {
      var o;
      if currentOperation == null {
        o := new Operation(op);
        currentOperation := o;
      } else {
        var last := currentOperation;
        ghost var k := 0;
        while last.child != null
          invariant 0 <= k < |chain| && last == chain[k]
          decreases |chain| - k
        {
          last := last.child;
          k := k + 1;
        }
        assert k == |chain| - 1;
        o := new Operation(op);
        last.child := o;
      }
      chain := chain + [o];
    }

    method RemoveTemporaryBreakpoint()
      modifies this`tempBreakpoint, this`live, this`gone
      ensures View() == S.RemoveTemporaryBreakpoint(old(View()))
    {
      if tempBreakpoint.Some? {
        live := live - {tempBreakpoint.value};
        gone := gone + [tempBreakpoint.value];
        tempBreakpoint := None;
      }
    }

    method InsertTemporaryBreakpoint() returns (fault: Option<S.Fault>)
      requires Valid()
      modifies this`tempBreakpoint, this`live, this`inserted
      ensures Agrees(fault, View(), S.Perform(old(View()), S.InsertBreakpoint))
    {
      if currentOperation == null {
        return Some(S.NoOperation);
      }
      if tempBreakpoint.Some? {
        return Some(S.BreakpointInUse);
      }
      tempBreakpoint, live, inserted := Some(inserted), live + {inserted}, inserted + 1;
      return None;
    }

    /** Push an operation of the engine's own; these are never interruptible. */
    method PushNew()
      requires Valid()
      modifies this`currentOperation, this`chain, this`nextOp, chain
      ensures Valid() && Grown() && old(chain) <= chain
      ensures Agrees(None, View(), S.Perform(old(View()), S.Push))
    {
      PushOperation(S.Op(nextOp, false));
      nextOp := nextOp + 1;
    }

    method PerformOne(act: S.Act) returns (fault: Option<S.Fault>)
      requires Valid()
      modifies this, chain
      ensures Valid() && Grown() && old(chain) <= chain
      ensures Agrees(fault, View(), S.Perform(old(View()), act))
    {
      fault := None;
      match act {
        case InsertBreakpoint =>
          fault := InsertTemporaryBreakpoint();
        case RemoveBreakpoint =>
          RemoveTemporaryBreakpoint();
        case Push =>
          PushNew();
      }
    }

    method Perform(acts: seq<S.Act>) returns (fault: Option<S.Fault>)
      requires Valid()
      modifies this, chain
      ensures Valid() && Grown() && old(chain) <= chain
      ensures Agrees(fault, View(), S.PerformAll(old(View()), acts))
    {
      var k := 0;
      while k < |acts|
        invariant k <= |acts| && Valid() && Grown() && old(chain) <= chain
        invariant S.PerformAll(View(), acts[k..]) == S.PerformAll(old(View()), acts)
      {
        assert acts[k..][1..] == acts[k + 1..];
        fault := PerformOne(acts[k]);
        if fault.Some? {
          return;
        }
        k := k + 1;
      }
      return None;
    }

    /** `child = null` in the operation at position `k`. */
    method DropChild(o: Operation, ghost k: nat)
      requires Valid() && k < |chain| && chain[k] == o
      modifies this`chain, o
      ensures Valid() && chain == old(chain)[..k + 1]
      ensures View() == S.Cut(old(View()), k + 1)
    {
      o.child := null;
      chain := chain[..k + 1];
    }

    /** `DoProcessEvent` of the last operation of the chain. */
    method React(o: Operation, sc: S.Script) returns (fault: Option<S.Fault>, result: S.EventResult, hasArgs: bool)
      requires Valid()
      modifies this, chain
      ensures Valid() && Grown() && old(chain) <= chain
      ensures Agrees(fault, S.Routed(View(), result, hasArgs), S.React(old(View()), o.op, sc))
    {
      visited := visited + [o.op];
      fault := Perform(sc.react(o.op).acts);
      return fault, sc.react(o.op).result, sc.react(o.op).hasArgs;
    }

    /** What the operation `o` at position `k` does with the result of its child. */
    method AfterChild(o: Operation, ghost k: nat, sc: S.Script, answer: S.EventResult, answerArgs: bool)
      returns (fault: Option<S.Fault>, result: S.EventResult, hasArgs: bool)
      requires Valid() && k < |chain| && chain[k] == o
      modifies this, chain
      ensures Valid() && Grown() && old(chain)[..k + 1] <= chain
      ensures Agrees(fault, S.Routed(View(), result, hasArgs),
                S.AfterChild(S.Routed(old(View()), answer, answerArgs), sc, k, o.op))
    {
      if answer.ParentResumed? {
        DropChild(o, k);
        return None, S.Running, false;
      }
      if !answer.AskParent? && !answer.ResumeOperation? {
        return None, answer, answerArgs;
      }
      DropChild(o, k);
      if answer.ResumeOperation? && sc.resume(o.op).Accepted? {
        fault := Perform(sc.resume(o.op).acts);
        return fault, S.Running, false;
      }
      fault, result, hasArgs := React(o, sc);
    }

    /** The answer of an operation that does not let its child see the event. */
    method Answer(o: Operation, intercept: S.Intercept)
      returns (fault: Option<S.Fault>, result: S.EventResult, hasArgs: bool)
      requires Valid() && !intercept.Pass?
      modifies this, chain
      ensures Valid() && Grown() && old(chain) <= chain
      ensures Agrees(fault, S.Routed(View(), result, hasArgs), S.Answer(old(View()), o.op, intercept))
    {
      fault := None;
      match intercept {
        case Resumed(acts) =>
          fault := Perform(acts);
          result, hasArgs := S.Running, false;
        case SignalStop =>
          result, hasArgs := if o.op.interruptible then S.SuspendOperation else S.Completed, true;
        case CallbackDone =>
          result, hasArgs := S.CompletedCallback, false;
      }
    }

    /** `Operation.ProcessEvent` of `o`, which is at position `k` of the chain. */
    method ProcessEvent(o: Operation, ghost k: nat, sc: S.Script)
      returns (fault: Option<S.Fault>, result: S.EventResult, hasArgs: bool)
      requires Valid() && k < |chain| && chain[k] == o
      modifies this, chain
      ensures Valid() && Grown() && old(chain)[..k + 1] <= chain
      ensures Agrees(fault, S.Routed(View(), result, hasArgs), S.ProcessEvent(old(View()), sc, k))
      decreases |chain| - k, 1
    {
      var intercept := S.InterceptOf(o.op, sc);
      if !intercept.Pass? {
        fault, result, hasArgs := Answer(o, intercept);
      } else if o.child == null {
        fault, result, hasArgs := React(o, sc);
      } else {
        fault, result, hasArgs := AskChild(o, k, sc);
      }
    }

    /** The part of `Operation.ProcessEvent` for an operation that has a child. */
    method AskChild(o: Operation, ghost k: nat, sc: S.Script)
      returns (fault: Option<S.Fault>, result: S.EventResult, hasArgs: bool)
      requires Valid() && k < |chain| && chain[k] == o && o.child != null && S.InterceptOf(o.op, sc).Pass?
      modifies this, chain
      ensures Valid() && Grown() && old(chain)[..k + 1] <= chain
      ensures Agrees(fault, S.Routed(View(), result, hasArgs), S.ProcessEvent(old(View()), sc, k))
      decreases |chain| - k, 0
    {
      ghost var before, prefix := View(), chain[..k + 1];
      fault, result, hasArgs := ProcessEvent(o.child, k + 1, sc);
      assert chain[..k + 1] == prefix && chain[k] == o;
      if fault.None? {
        assert S.ProcessEvent(before, sc, k) == S.AfterChild(S.Routed(View(), result, hasArgs), sc, k, o.op);
        fault, result, hasArgs := AfterChild(o, k, sc, result, hasArgs);
        assert prefix <= chain;
      }
    }
  }
}
