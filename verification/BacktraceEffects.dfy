/**
 Which frames a backtrace finds: each way a round can go, when the rounds end, and whole backtraces
 of stacks that the ordinary unwinder can follow.
 */
module BacktraceEffects {
  import opened TargetEvents
  import opened Backtraces

  // ------------------------------------------------------------- one round

  /** The frame is above the last one and below the limit. */
  predicate Acceptable(last: Frame, f: Frame, until: Address) {
    last.sp < f.sp && (until == NULL || f.sp < until)
  }

  /** The frame as it is appended to a trace of `n` frames. */
  function Placed(f: Frame, kind: FrameType, n: nat): Frame {
    f.(kind := kind, level := n)
  }

  predicate Appended(b: Trace, b': Trace, f: Frame) {
    b'.frames == b.frames + [f] && b'.last == f
  }

  /** An ordinary frame without callback that fits the mode is taken exactly if it is acceptable. */
  lemma OrdinaryFrame(b: Trace, t: Target, mode: Mode, until: Address, f: Frame)
    requires t.unwind(b.last) == Some(f) && t.callbackAt(f.sp) == NoCallback && IsFrameOkForMode(t, f, mode)
    ensures var (b', more) := NextFrame(b, t, mode, until);
            && (more <==> Acceptable(b.last, f, until))
            && (more ==> Appended(b, b', Placed(f, Normal, |b.frames|))) && (!more ==> b' == b)
            && b'.triedLmf == b.triedLmf && b'.lmf == b.lmf
  {
  }

  /**
   A callback at the unwound frame: the callback frame is appended whatever it is, and the frame behind
   it exactly if it is acceptable after the callback frame.
   */
  lemma CallbackDetour(b: Trace, t: Target, mode: Mode, until: Address, f: Frame)
    requires t.unwind(b.last) == Some(f) && t.callbackAt(f.sp).Found?
    ensures var lookup := t.callbackAt(f.sp);
            var detour := Placed(lookup.callback, if lookup.invoke then RuntimeInvoke else Callback, |b.frames|);
            var (b', more) := NextFrame(b, t, mode, until);
            && (more <==> Acceptable(detour, lookup.next, until))
            && b'.frames == b.frames + [detour]
                 + (if more then [Placed(lookup.next, Normal, |b.frames| + 1)] else [])
            && b'.last == b'.frames[|b'.frames| - 1]
  {
  }

  /** Where the runtime's list of frames begins for this trace, if it has not run out. */
  function ListHead(b: Trace, t: Target): Option<Address> {
    if b.triedLmf then (if b.lmf == NULL then None else Some(b.lmf))
    else if t.lmfAddress == NULL || t.lmfHead == NULL then None
    else Some(t.lmfHead)
  }

  /** The frame that unwinding offers, without a callback. */
  function Offered(b: Trace, t: Target): Option<Frame> {
    var f := t.unwind(b.last);
    if f.None? then None
    else
      match t.callbackAt(f.value.sp)
      case Failed(created) => if created.Some? then created else f
      case _ => f
  }

  predicate NoDetour(b: Trace, t: Target) {
    t.unwind(b.last).Some? ==> !t.callbackAt(t.unwind(b.last).value.sp).Found?
  }

  /**
   Where unwinding offers nothing, or nothing that fits the mode, the next frame of the list is taken
   exactly if there is one and it is acceptable; the list moves on in any case.
   */
  lemma ListFrame(b: Trace, t: Target, mode: Mode, until: Address)
    requires NoDetour(b, t) && (Offered(b, t).Some? ==> !IsFrameOkForMode(t, AsNormal(Offered(b, t)).value, mode))
    ensures var head := ListHead(b, t);
            var (b', more) := NextFrame(b, t, mode, until);
            && b'.triedLmf
            && (head.None? ==> !more && b'.frames == b.frames)
            && (head.Some? ==>
                  && b'.lmf == t.getLmf(head.value).1
                  && var f := t.getLmf(head.value).0;
                     && (more <==> f.Some? && Acceptable(b.last, f.value, until))
                     && (more ==> Appended(b, b', Placed(f.value, LmfFrame, |b.frames|)))
                     && (!more ==> b'.frames == b.frames && b'.last == b.last))
  {
  }

  /** An offered frame that fits the mode is taken exactly if it is acceptable, also after a failed lookup. */
  lemma OfferedFrame(b: Trace, t: Target, mode: Mode, until: Address)
    requires NoDetour(b, t) && Offered(b, t).Some? && IsFrameOkForMode(t, AsNormal(Offered(b, t)).value, mode)
    ensures var f := Offered(b, t).value;
            var (b', more) := NextFrame(b, t, mode, until);
            && (more <==> Acceptable(b.last, f, until))
            && (more ==> Appended(b, b', Placed(f, Normal, |b.frames|))) && (!more ==> b' == b)
  {
  }

  /**
   When the rounds end, exactly: the frame that the callback, the unwinder or the list comes up with is
   missing or not acceptable.
   */
  lemma RoundEndsExactly(b: Trace, t: Target, mode: Mode, until: Address)
    ensures var f := t.unwind(b.last);
            NextFrame(b, t, mode, until).1 <==>
            if f.Some? && t.callbackAt(f.value.sp).Found? then
              Acceptable(t.callbackAt(f.value.sp).callback, t.callbackAt(f.value.sp).next, until)
            else if Offered(b, t).Some? && IsFrameOkForMode(t, AsNormal(Offered(b, t)).value, mode) then
              Acceptable(b.last, Offered(b, t).value, until)
            else
              && ListHead(b, t).Some? && t.getLmf(ListHead(b, t).value).0.Some?
              && Acceptable(b.last, t.getLmf(ListHead(b, t).value).0.value, until)
  {
    var f := t.unwind(b.last);
    if f.Some? && t.callbackAt(f.value.sp).Found? {
      CallbackDetour(b, t, mode, until, f.value);
    } else if Offered(b, t).Some? && IsFrameOkForMode(t, AsNormal(Offered(b, t)).value, mode) {
      OfferedFrame(b, t, mode, until);
    } else {
      ListFrame(b, t, mode, until);
    }
  }

  // ---------------------------------------------------------- modes and trim

  /** Which frames fit: everything for a native backtrace, managed code by default, and no wrappers when asked. */
  lemma ModesAreNested(t: Target, f: Frame)
    ensures IsFrameOkForMode(t, f, Native)
    ensures IsFrameOkForMode(t, f, Default) <==> t.managedProcess ==> f.managed
    ensures IsFrameOkForMode(t, f, Managed) <==> f.managed && f.located && !f.wrapper
    ensures IsFrameOkForMode(t, f, Managed) ==> IsFrameOkForMode(t, f, Default)
  {
  }

  /** By default a last frame that is not managed code of the user is dropped, unless it is the only one. */
  lemma LastFrameIsTrimmed(frames: seq<Frame>, t: Target, mode: Mode)
    requires frames != []
    ensures var last := frames[|frames| - 1];
            Trimmed(frames, t, mode) ==
            if mode == Default && |frames| > 1 && !(last.managed && last.located && !last.wrapper)
            then frames[..|frames| - 1] else frames
  {
  }

  // --------------------------------------------------------- whole backtraces

  /** `g` follows `f` at position `n` by ordinary unwinding. */
  predicate FollowsByUnwinding(t: Target, mode: Mode, until: Address, f: Frame, g: Frame, n: nat) {
    && t.unwind(f).Some? && t.callbackAt(t.unwind(f).value.sp) == NoCallback
    && g == Placed(t.unwind(f).value, Normal, n)
    && IsFrameOkForMode(t, t.unwind(f).value, mode) && Acceptable(f, g, until)
  }

  predicate IsChain(t: Target, mode: Mode, until: Address, chain: seq<Frame>) {
    forall i :: 0 <= i < |chain| - 1 ==> FollowsByUnwinding(t, mode, until, chain[i], chain[i + 1], i + 1)
  }

  /** Unwinding has nothing to offer after this frame, and the runtime keeps no list. */
  predicate EndOfStack(t: Target, last: Frame) {
    t.unwind(last).None? && t.lmfAddress == NULL
  }

  /** How many frames a limit lets through; the limit is looked at only after a round. */
  function Limit(max: int): nat {
    if max + 1 < 2 then 2 else max + 1
  }

  lemma {:induction false} RoundsFollowChain(b: Trace, t: Target, mode: Mode, until: Address, max: int,
      chain: seq<Frame>)
    requires (max == -1 ==> CallbacksAscend(t)) && !b.triedLmf
    requires IsChain(t, mode, until, chain) && b.frames != [] && b.frames <= chain && b.last == b.frames[|b.frames| - 1]
    requires max != -1 ==> |b.frames| < Limit(max)
    requires EndOfStack(t, chain[|chain| - 1]) || (max != -1 && |chain| >= Limit(max))
    ensures Rounds(b, t, mode, until, max).frames ==
            if max == -1 || |chain| <= Limit(max) then chain else chain[..Limit(max)]
    decreases |chain| - |b.frames|
  {
    var n := |b.frames|;
    var (b', more) := NextFrame(b, t, mode, until);
    RoundsShrink(b, t, mode, until, max);
    if n == |chain| {
      assert b.frames == chain;
      ListFrame(b, t, mode, until);
    } else {
      assert FollowsByUnwinding(t, mode, until, chain[n - 1], chain[n], n);
      OrdinaryFrame(b, t, mode, until, t.unwind(b.last).value);
      assert b'.frames == chain[..n + 1];
      if max == -1 || n + 1 <= max {
        RoundsFollowChain(b', t, mode, until, max, chain);
      }
    }
  }

  /**
   The whole backtrace: for every chain of frames that ordinary unwinding produces, to the end of the
   stack or up to the limit, the backtrace is that chain, cut at the limit, less an unwanted last frame.
   */
  lemma BacktraceIsTheChain(t: Target, mode: Mode, until: Address, max: int, chain: seq<Frame>)
    requires max == -1 ==> CallbacksAscend(t)
    requires chain != [] && IsChain(t, mode, until, chain)
    requires EndOfStack(t, chain[|chain| - 1]) || (max != -1 && |chain| >= Limit(max))
    ensures FramesOf(chain[0], t, mode, until, max) ==
            Trimmed(if max == -1 || |chain| <= Limit(max) then chain else chain[..Limit(max)], t, mode)
  {
    assert [chain[0]] == chain[..1];
    RoundsFollowChain(Trace([chain[0]], chain[0], false, NULL), t, mode, until, max, chain);
  }
}
