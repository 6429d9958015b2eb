/**
 Unwinding a stack: ordinary unwinding, detours over callback frames, and the runtime's list of
 last managed frames (LMF) where ordinary unwinding gives up.
 */
module Backtraces {
  import opened TargetEvents

  const LIMIT := 0x1_0000_0000_0000_0000

  type Address = a: nat | a < LIMIT

  const NULL: Address := 0

  datatype Mode = Default | Native | Managed

  datatype FrameType = Normal | LmfFrame | Callback | RuntimeInvoke

  /** A frame as far as unwinding looks at it; `located` says that it has a method and a source address. */
  datatype Frame = Frame(kind: FrameType, sp: Address, managed: bool, located: bool, wrapper: bool, level: nat)

  /** `Failed` carries the frame created before the exception, if there was one. */
  datatype CallbackLookup = NoCallback | Failed(created: Option<Frame>)
    | Found(invoke: bool, callback: Frame, next: Frame)

  /** The debuggee during one backtrace: its registers and memory do not change. */
  datatype Target = Target(
    managedProcess: bool,
    unwind: Frame -> Option<Frame>,
    callbackAt: Address -> CallbackLookup,
    lmfAddress: Address, lmfHead: Address,
    getLmf: Address -> (Option<Frame>, Address))

  /** A callback frame is not below the frame it follows. */
  ghost predicate CallbacksAscend(t: Target) {
    forall f: Frame :: t.unwind(f).Some? && t.callbackAt(t.unwind(f).value.sp).Found? ==>
                         f.sp <= t.callbackAt(t.unwind(f).value.sp).callback.sp
  }

  predicate IsFrameOkForMode(t: Target, frame: Frame, mode: Mode) {
    if mode.Native? then true
    else if mode.Default? && !t.managedProcess then true
    else if !frame.managed then false
    else if mode.Default? then true
    else frame.located && !frame.wrapper
  }

  /** The fields of a backtrace. */
  datatype Trace = Trace(frames: seq<Frame>, last: Frame, triedLmf: bool, lmf: Address)

  function Add(b: Trace, f: Frame): Trace {
    b.(frames := b.frames + [f.(level := |b.frames|)], last := f.(level := |b.frames|))
  }

  /** The frame an attempt comes up with, and whether it is reached over a callback. */
  datatype Attempt = Attempt(trace: Trace, frame: Option<Frame>, callback: bool)

  function CallbackFrame(invoke: bool, f: Frame): Frame {
    f.(kind := if invoke then RuntimeInvoke else Callback)
  }

  function AsNormal(f: Option<Frame>): Option<Frame> {
    if f.Some? then Some(f.value.(kind := Normal)) else None
  }

  /** `UnwindStack` and `TryCallback`. */
  function Unwound(b: Trace, t: Target): Attempt {
    var frame := AsNormal(t.unwind(b.last));
    if frame.None? then Attempt(b, None, false)
    else
      match t.callbackAt(frame.value.sp)
      case NoCallback => Attempt(b, frame, false)
      case Failed(created) => Attempt(b, if created.Some? then AsNormal(created) else frame, false)
      case Found(invoke, callback, next) =>
        Attempt(Add(b, CallbackFrame(invoke, callback)), AsNormal(Some(next)), true)
  }

  /** The detour over the LMF list; an empty list ends the backtrace. */
  function FromLmf(b: Trace, t: Target): (Trace, Option<Frame>) {
    if !b.triedLmf && t.lmfAddress == NULL then (b.(triedLmf := true), None)
    else
      var head := if b.triedLmf then b.lmf else t.lmfHead;
      if head == NULL then (b.(triedLmf := true, lmf := head), None)
      else
        var (frame, lmf) := t.getLmf(head);
        (b.(triedLmf := true, lmf := lmf),
         if frame.Some? && frame.value.sp > b.last.sp then Some(frame.value.(kind := LmfFrame)) else None)
  }

  /** The frame of an attempt if it is reached over a callback or fits the mode, or else the next LMF frame. */
  function Chosen(a: Attempt, t: Target, mode: Mode): (Trace, Option<Frame>) {
    if a.callback || (a.frame.Some? && IsFrameOkForMode(t, a.frame.value, mode)) then (a.trace, a.frame)
    else FromLmf(a.trace, t)
  }

  /** `TryUnwind`: the trace afterwards, and whether a frame was found. */
  function NextFrame(b: Trace, t: Target, mode: Mode, until: Address): (Trace, bool) {
    var a := Unwound(b, t);
    var (b', frame) := Chosen(a, t, mode);
    if frame.None? || frame.value.sp <= b'.last.sp || (until != NULL && frame.value.sp >= until) then (b', false)
    else (Add(b', frame.value), true)
  }

  /** How many rounds can follow. */
  function Measure(b: Trace, max: int): nat {
    if max == -1 then LIMIT - b.last.sp
    else if |b.frames| <= max then max + 1 - |b.frames|
    else 0
  }

  lemma RoundsShrink(b: Trace, t: Target, mode: Mode, until: Address, max: int)
    requires max == -1 ==> CallbacksAscend(t)
    ensures var (b', more) := NextFrame(b, t, mode, until);
            more && (max == -1 || |b'.frames| <= max) ==> Measure(b', max) < Measure(b, max)
  {
  }

  /** All rounds of `GetBacktrace`. */
  ghost function Rounds(b: Trace, t: Target, mode: Mode, until: Address, max: int): Trace
    requires max == -1 ==> CallbacksAscend(t)
    decreases Measure(b, max)
  {
    var (b', more) := NextFrame(b, t, mode, until);
    RoundsShrink(b, t, mode, until, max);
    if !more || (max != -1 && |b'.frames| > max) then b' else Rounds(b', t, mode, until, max)
  }

  /** A wrapper is not shown as the last frame. */
  function Trimmed(frames: seq<Frame>, t: Target, mode: Mode): seq<Frame> {
    if mode.Default? && |frames| > 1 && !IsFrameOkForMode(t, frames[|frames| - 1], Managed)
    then frames[..|frames| - 1] else frames
  }

  class Backtrace {
    var frames: seq<Frame>
    var lastFrame: Frame
    var triedLmf: bool
    var lmfAddress: Address

    ghost function View(): Trace
      reads this
    {
      Trace(frames, lastFrame, triedLmf, lmfAddress)
    }

    constructor (first: Frame)
      ensures View() == Trace([first], first, false, NULL)
    {
      frames, lastFrame, triedLmf, lmfAddress := [first], first, false, NULL;
    }

    method AddFrame(f: Frame)
      modifies this
      ensures View() == Add(old(View()), f)
    {
      var levelled := f.(level := |frames|);
      frames := frames + [levelled];
      lastFrame := levelled;
    }

    method TryCallback(t: Target, unwound: Option<Frame>) returns (ok: bool, frame: Option<Frame>)
      requires unwound == AsNormal(t.unwind(lastFrame))
      modifies this
      ensures Attempt(View(), frame, ok) == Unwound(old(View()), t)
    {
      frame := unwound;
      if frame.None? {
        return false, frame;
      }
      var lookup := t.callbackAt(frame.value.sp);
      match lookup
      case NoCallback => return false, frame;
      case Failed(created) =>
        if created.Some? {
          frame := AsNormal(created);
        }
        return false, frame;
      case Found(invoke, callback, next) =>
        AddFrame(CallbackFrame(invoke, callback));
        return true, AsNormal(Some(next));
    }

    method TryLMF(t: Target) returns (frame: Option<Frame>)
      requires lmfAddress != NULL && triedLmf
      modifies this`lmfAddress
      ensures (View(), frame) == FromLmf(old(View()), t)
    {
      var (found, lmf) := t.getLmf(lmfAddress);
      lmfAddress := lmf;
      if found.None? || found.value.sp <= lastFrame.sp {
        return None;
      }
      return Some(found.value.(kind := LmfFrame));
    }

    method TryUnwind(t: Target, mode: Mode, until: Address) returns (more: bool)
      modifies this
      ensures (View(), more) == NextFrame(old(View()), t, mode, until)
    {
      var unwound := t.unwind(lastFrame);
      var ok, frame := TryCallback(t, AsNormal(unwound));
      if !ok && (frame.None? || !IsFrameOkForMode(t, frame.value, mode)) {
        if !triedLmf {
          triedLmf := true;
          if t.lmfAddress == NULL {
            return false;
          }
          lmfAddress := t.lmfHead;
        }
        if lmfAddress == NULL {
          return false;
        }
        frame := TryLMF(t);
      }
      if frame.None? || frame.value.sp <= lastFrame.sp || (until != NULL && frame.value.sp >= until) {
        return false;
      }
      AddFrame(frame.value);
      return true;
    }

    method GetBacktrace(t: Target, mode: Mode, until: Address, max: int)
      requires max == -1 ==> CallbacksAscend(t)
      modifies this
      ensures var b := Rounds(old(View()), t, mode, until, max);
              View() == b.(frames := Trimmed(b.frames, t, mode))
    {
      ghost var all := Rounds(View(), t, mode, until, max);
      var more := true;
      while more
        invariant more ==> Rounds(View(), t, mode, until, max) == all
        invariant !more ==> View() == all
        decreases more, Measure(View(), max)
      {
        RoundsShrink(View(), t, mode, until, max);
        more := TryUnwind(t, mode, until);
        if max != -1 && |frames| > max {
          more := false;
        }
      }
      if mode.Default? && |frames| > 1 && !IsFrameOkForMode(t, frames[|frames| - 1], Managed) {
        frames := frames[..|frames| - 1];
      }
    }
  }

  // ---------------------------------------------------------- main results

  predicate Detour(f: Frame) {
    f.kind.Callback? || f.kind.RuntimeInvoke?
  }

  /**
   Levels are positions; every frame but the first is a callback, or lies strictly above its
   predecessor and below `until`, and then it fits the mode, or comes from the LMF list, or was
   reached over a callback.
   */
  predicate WellFormed(frames: seq<Frame>, t: Target, mode: Mode, until: Address) {
    && (forall i :: 0 <= i < |frames| ==> frames[i].level == i)
    && (forall i :: 0 < i < |frames| ==> Follows(frames[i - 1], frames[i], t, mode, until))
  }

  predicate Follows(f: Frame, g: Frame, t: Target, mode: Mode, until: Address) {
    Detour(g) || (f.sp < g.sp && (until != NULL ==> g.sp < until)
                  && (IsFrameOkForMode(t, g, mode) || g.kind.LmfFrame? || Detour(f)))
  }

  predicate Sound(b: Trace, t: Target, mode: Mode, until: Address) {
    b.frames != [] && b.last == b.frames[|b.frames| - 1] && WellFormed(b.frames, t, mode, until)
  }

  lemma AddKeepsSound(b: Trace, f: Frame, t: Target, mode: Mode, until: Address)
    requires Sound(b, t, mode, until) && Follows(b.last, f.(level := |b.frames|), t, mode, until)
    ensures Sound(Add(b, f), t, mode, until)
  {
  }

  lemma TryUnwindKeepsSound(b: Trace, t: Target, mode: Mode, until: Address)
    requires Sound(b, t, mode, until)
    ensures Sound(NextFrame(b, t, mode, until).0, t, mode, until)
  {
    var a := Unwound(b, t);
    if a.callback {
      var lookup := t.callbackAt(AsNormal(t.unwind(b.last)).value.sp);
      AddKeepsSound(b, CallbackFrame(lookup.invoke, lookup.callback), t, mode, until);
    }
    assert Sound(a.trace, t, mode, until);
    var (b', frame) := Chosen(a, t, mode);
    assert Sound(b', t, mode, until);
    if NextFrame(b, t, mode, until).1 {
      AddKeepsSound(b', frame.value, t, mode, until);
    }
  }

  lemma {:induction false} RoundsKeepSound(b: Trace, t: Target, mode: Mode, until: Address, max: int)
    requires max == -1 ==> CallbacksAscend(t)
    requires Sound(b, t, mode, until)
    ensures Sound(Rounds(b, t, mode, until, max), t, mode, until)
    decreases Measure(b, max)
  {
    var (b', more) := NextFrame(b, t, mode, until);
    TryUnwindKeepsSound(b, t, mode, until);
    RoundsShrink(b, t, mode, until, max);
    if more && (max == -1 || |b'.frames| <= max) {
      RoundsKeepSound(b', t, mode, until, max);
    }
  }

  lemma {:induction false} RoundsKeepFirst(b: Trace, t: Target, mode: Mode, until: Address, max: int)
    requires max == -1 ==> CallbacksAscend(t)
    ensures b.frames <= Rounds(b, t, mode, until, max).frames
    ensures max != -1 ==> |Rounds(b, t, mode, until, max).frames| <= 2 + if |b.frames| <= max then max else |b.frames|
    decreases Measure(b, max)
  {
    var (b', more) := NextFrame(b, t, mode, until);
    RoundsShrink(b, t, mode, until, max);
    if more && (max == -1 || |b'.frames| <= max) {
      RoundsKeepFirst(b', t, mode, until, max);
    }
  }

  /** What a caller of a fresh backtrace sees. */
  ghost function FramesOf(first: Frame, t: Target, mode: Mode, until: Address, max: int): seq<Frame>
    requires max == -1 ==> CallbacksAscend(t)
  {
    Trimmed(Rounds(Trace([first], first, false, NULL), t, mode, until, max).frames, t, mode)
  }

  /**
   For every unwinder, stack, mode and limit the frames are well-formed and begin with the first
   one; a limit is exceeded by two frames at most.
   */
  lemma BacktraceIsSound(first: Frame, t: Target, mode: Mode, until: Address, max: int)
    requires max == -1 ==> CallbacksAscend(t)
    requires first.level == 0
    ensures var frames := FramesOf(first, t, mode, until, max);
            && WellFormed(frames, t, mode, until) && [first] <= frames
            && (max >= 1 ==> |frames| <= max + 2)
  {
    var start := Trace([first], first, false, NULL);
    RoundsKeepSound(start, t, mode, until, max);
    RoundsKeepFirst(start, t, mode, until, max);
  }

  predicate Ascending(frames: seq<Frame>) {
    forall i :: 0 < i < |frames| ==> frames[i - 1].sp <= frames[i].sp
  }

  predicate AscendingTrace(b: Trace) {
    b.frames != [] && b.last == b.frames[|b.frames| - 1] && Ascending(b.frames)
  }

  lemma AddAscends(b: Trace, f: Frame)
    requires AscendingTrace(b) && b.last.sp <= f.sp
    ensures AscendingTrace(Add(b, f))
  {
  }

  lemma LmfAscends(b: Trace, t: Target)
    ensures FromLmf(b, t).0.frames == b.frames && FromLmf(b, t).0.last == b.last
    ensures FromLmf(b, t).1.Some? ==> FromLmf(b, t).1.value.sp > b.last.sp
  {
  }

  lemma NextFrameAscends(b: Trace, t: Target, mode: Mode, until: Address)
    requires CallbacksAscend(t) && AscendingTrace(b)
    ensures AscendingTrace(NextFrame(b, t, mode, until).0)
  {
    var a := Unwound(b, t);
    if a.callback {
      var lookup := t.callbackAt(t.unwind(b.last).value.sp);
      AddAscends(b, CallbackFrame(lookup.invoke, lookup.callback));
    }
    assert AscendingTrace(a.trace);
    LmfAscends(a.trace, t);
    var (b', frame) := Chosen(a, t, mode);
    assert AscendingTrace(b');
    if NextFrame(b, t, mode, until).1 {
      AddAscends(b', frame.value);
    }
  }

  lemma {:induction false} RoundsAscend(b: Trace, t: Target, mode: Mode, until: Address, max: int)
    requires CallbacksAscend(t) && AscendingTrace(b)
    ensures AscendingTrace(Rounds(b, t, mode, until, max))
    decreases Measure(b, max)
  {
    var (b', more) := NextFrame(b, t, mode, until);
    NextFrameAscends(b, t, mode, until);
    RoundsShrink(b, t, mode, until, max);
    if more && (max == -1 || |b'.frames| <= max) {
      RoundsAscend(b', t, mode, until, max);
    }
  }

  lemma {:induction false} AscendingIsSorted(frames: seq<Frame>, i: nat, j: nat)
    requires Ascending(frames) && i <= j < |frames|
    ensures frames[i].sp <= frames[j].sp
    decreases j
  {
    if i < j {
      AscendingIsSorted(frames, i, j - 1);
    }
  }

  /** Where callbacks ascend the whole backtrace does, over any distance. */
  lemma BacktraceAscends(first: Frame, t: Target, mode: Mode, until: Address, max: int, i: nat, j: nat)
    requires CallbacksAscend(t)
    requires i <= j < |FramesOf(first, t, mode, until, max)|
    ensures FramesOf(first, t, mode, until, max)[i].sp <= FramesOf(first, t, mode, until, max)[j].sp
  {
    RoundsAscend(Trace([first], first, false, NULL), t, mode, until, max);
    AscendingIsSorted(FramesOf(first, t, mode, until, max), i, j);
  }

  function After(b: Trace, t: Target, mode: Mode, until: Address, n: nat): Option<Trace> {
    if n == 0 then Some(b)
    else
      var before := After(b, t, mode, until, n - 1);
      if before.None? then None
      else
        var (b', more) := NextFrame(before.value, t, mode, until);
        if more then Some(b') else None
  }

  /** A stack on which every frame is called from a callback that lies below it. */
  const DESCENDING := Target(
    false,
    (f: Frame) => Some(Frame(Normal, 8, false, false, false, 0)),
    (sp: Address) => Found(false, Frame(Normal, 2, false, false, false, 0), Frame(Normal, 4, false, false, false, 0)),
    NULL, NULL,
    (lmf: Address) => (None, NULL))

  /** Without a limit the assumption is needed: on a descending callback unwinding never ends. */
  lemma {:induction false} DescendingCallbacksNeverEnd(n: nat)
    ensures !CallbacksAscend(DESCENDING)
    ensures var first := Frame(Normal, 4, false, false, false, 0);
            var b := After(Trace([first], first, false, NULL), DESCENDING, Native, NULL, n);
            b.Some? && |b.value.frames| == 2 * n + 1
  {
    var first := Frame(Normal, 4, false, false, false, 0);
    assert DESCENDING.unwind(first).Some? && DESCENDING.callbackAt(DESCENDING.unwind(first).value.sp).callback.sp == 2;
    if n > 0 {
      DescendingCallbacksNeverEnd(n - 1);
    }
  }
}
