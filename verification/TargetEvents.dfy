/**
 The events a debuggee thread reports (`ChildEventType` and `ChildEvent`), shared by the
 engine, the thread locks and the process.
 */
module TargetEvents {

  datatype Option<+T> = None | Some(value: T)

  /** A computation of the debugger either ends normally or raises one of its exceptions. */
  datatype Outcome<+T, +F> = Ok(value: T) | Throws(fault: F) {
    predicate IsFailure() { Throws? }

    function PropagateFailure<U>(): Outcome<U, F>
      requires Throws?
    {
      Throws(fault)
    }

    function Extract(): T
      requires Ok?
    {
      value
    }
  }

  datatype EventKind =
    | NoEvent | UnknownError | ChildExited | ChildStopped | ChildSignaled | ChildCallback
    | ChildCallbackCompleted | ChildHitBreakpoint | ChildMemoryChanged | ChildCreatedThread
    | ChildForked | ChildExecd | ChildCalledExit | ChildNotification | ChildInterrupted
    | RuntimeInvokeDone | InternalErrorEvent | UnhandledException | ThrowException | HandleException

  /** What the kernel says about a stopped thread. */
  datatype Signal = Signal(kind: EventKind, arg: int)

  /** An event; `serial` counts the events of its thread, so that every event is distinct. */
  datatype Event = Event(kind: EventKind, arg: int, serial: nat)

  /** The thread is gone; nothing can be read from or written to it any more. */
  predicate IsExit(kind: EventKind) {
    kind.ChildExited? || kind.ChildSignaled?
  }
}
