/**
 The step operation: stepping until the target leaves a range of addresses, with the special
 treatment of method epilogues.
 */
module SourceStep {
  import opened TargetEvents
  import opened SymbolLookup

  const NULL: nat := 0

  datatype StepMode =
    | RunMode | SingleInstruction | NativeInstruction | NextInstruction
    | SourceLine | NextLine | StepFrameMode | Finish | FinishNative

  datatype StepFrame = StepFrame(mode: StepMode, start: nat, end: nat)

  predicate LineMode(mode: StepMode) {
    mode.SourceLine? || mode.NextLine?
  }

  /** The address lies in the frame; neither may be null. */
  predicate InStepFrame(frame: Option<StepFrame>, address: nat) {
    && address != NULL && frame.Some? && frame.value.start != NULL
    && frame.value.start <= address < frame.value.end
  }

  /** The address is behind the last line of the method found there. */
  predicate InEpilogue(found: Option<Method>, address: nat) {
    found.Some? && found.value.bounds.Some? && address >= found.value.bounds.value.1
  }

  function EpilogueFrame(m: Method): StepFrame
    requires m.bounds.Some?
  {
    StepFrame(Finish, m.bounds.value.1, m.end)
  }

  /** How the target goes on. */
  datatype How = Step | Next | StepNative | Continue | Trampoline

  datatype StepResult = Completed | Resumed(how: How)

  datatype Instruction = Plain | Call(sized: bool, target: nat)

  /** A stop of the target: address, stack pointer and surroundings. */
  datatype Stop = Stop(
    address: nat, stack: nat, files: seq<SymbolFile>,
    instruction: Instruction, current: Option<Method>, trampoline: bool)

  /** A call, of known size, that leaves the method it is made in. */
  predicate LeavesMethod(stop: Stop) {
    && stop.instruction.Call? && stop.instruction.sized
    && !(&& stop.instruction.target != NULL && stop.current.Some? && stop.current.value.bounds.Some?
         && var (first, last) := stop.current.value.bounds.value;
            first <= stop.instruction.target < last)
  }

  /** There is a method with source, or an invoke wrapper, at the target of the call. */
  ghost predicate Enters(stop: Stop)
    requires stop.instruction.Call?
  {
    exists m :: FilesAnswer(stop.files, stop.instruction.target, Some(m)) && (m.hasSource || m.invokeWrapper)
  }

  /** A call that leaves the method, in a mode that may enter what it calls. */
  predicate MayEnter(mode: StepMode, stop: Stop) {
    LeavesMethod(stop) && !mode.SingleInstruction? && !mode.Finish? && !mode.NextLine?
  }

  /**
   How the target goes on from inside the frame: a call that leaves the method is stepped over when
   finishing or stepping by line; otherwise a trampoline is followed, a method with source or an invoke
   wrapper is entered, and any other is stepped over. Everything else is a single step.
   */
  ghost predicate GoesOnBy(mode: StepMode, stop: Stop, how: How) {
    && (mode.SingleInstruction? ==> how.StepNative?)
    && (!mode.SingleInstruction? && !LeavesMethod(stop) ==> how.Step?)
    && (LeavesMethod(stop) && (mode.Finish? || mode.NextLine?) ==> how.Next?)
    && (MayEnter(mode, stop) && stop.trampoline ==> how.Trampoline?)
    && (MayEnter(mode, stop) && !stop.trampoline ==> how == if Enters(stop) then Step else Next)
  }

  /** The epilogue check cannot make progress: the end of the method's lines is recorded as null. */
  predicate Endless(mode: StepMode, frame: Option<StepFrame>, address: nat, found: Option<Method>) {
    && LineMode(mode) && !InStepFrame(frame, address)
    && found.Some? && found.value.bounds.Some? && found.value.bounds.value.1 == NULL
  }

  class OperationStep {
    const stepMode: StepMode
    var stepFrame: Option<StepFrame>

    constructor (mode: StepMode, frame: Option<StepFrame>)
      ensures stepMode == mode && stepFrame == frame
    {
      stepMode, stepFrame := mode, frame;
    }

    /** `is_in_step_frame`. */
    method IsInStepFrame(address: nat) returns (inside: bool)
      ensures inside <==> InStepFrame(stepFrame, address)
    {
      if address == NULL || stepFrame.None? || stepFrame.value.start == NULL {
        return false;
      }
      if address < stepFrame.value.start || address >= stepFrame.value.end {
        return false;
      }
      return true;
    }

    /** `check_method_operation`. */
    method CheckMethodOperation(address: nat, files: seq<SymbolFile>) returns (again: bool, ghost found: Option<Method>)
      modifies this`stepFrame
      ensures LineMode(stepMode) ==>
                FilesAnswer(files, address, found) && (found.Some? ==> Contains(found.value, address))
      ensures again <==> LineMode(stepMode) && InEpilogue(found, address)
      ensures stepFrame == if again then Some(EpilogueFrame(found.value)) else old(stepFrame)
    {
      if !LineMode(stepMode) {
        return false, None;
      }
      var m := Lookup(files, address);
      found := m;
      if m.None? {
        return false, found;
      }
      if m.value.bounds.Some? && address >= m.value.bounds.value.1 {
        stepFrame := Some(StepFrame(Finish, m.value.bounds.value.1, m.value.end));
        return true, found;
      }
      return false, found;
    }

    /** The end of `Step`: how to resume from inside the frame. */
    method Proceed(stop: Stop) returns (how: How)
      ensures GoesOnBy(stepMode, stop, how)
    {
      if stepMode.SingleInstruction? {
        return StepNative;
      }
      if !stop.instruction.Call? || !stop.instruction.sized {
        return Step;
      }
      var target := stop.instruction.target;
      if stop.current.Some? && stop.current.value.bounds.Some? && target != NULL {
        var (first, last) := stop.current.value.bounds.value;
        if target >= first && target < last {
          return Step;
        }
      }
      if stepMode.Finish? || stepMode.NextLine? {
        return Next;
      }
      if stop.trampoline {
        return Trampoline;
      }
      var callee := Lookup(stop.files, stop.instruction.target);
      if Enters(stop) {
        var m :| FilesAnswer(stop.files, stop.instruction.target, Some(m)) && (m.hasSource || m.invokeWrapper);
        FilesAnswerIsUnique(stop.files, stop.instruction.target, callee, Some(m));
      }
      if callee.Some? && callee.value.invokeWrapper {
        return Step;
      }
      if callee.None? || !callee.value.hasSource {
        return Next;
      }
      return Step;
    }

    /**
     `Step` for the modes that watch a frame. With `first` it always goes on. Otherwise it completes
     exactly when the address is outside the frame and, in a line mode, not in the epilogue of the
     method found there; an epilogue becomes the new frame, which takes one more round of the loop.
     */
    method StepInFrame(first: bool, stop: Stop)
      returns (result: StepResult, ghost found: Option<Method>, ghost extra: nat)
      requires !first && !InStepFrame(stepFrame, stop.address) ==>
                 forall m :: FilesAnswer(stop.files, stop.address, Some(m)) ==>
                   !Endless(stepMode, stepFrame, stop.address, Some(m))
      modifies this`stepFrame
      ensures first || InStepFrame(old(stepFrame), stop.address) ==>
                result.Resumed? && stepFrame == old(stepFrame) && extra == 0
      ensures !first && !InStepFrame(old(stepFrame), stop.address) ==>
                && (LineMode(stepMode) ==> FilesAnswer(stop.files, stop.address, found))
                && (result.Completed? <==> !(LineMode(stepMode) && InEpilogue(found, stop.address)))
                && stepFrame == (if result.Completed? then old(stepFrame) else Some(EpilogueFrame(found.value)))
                && extra == if result.Completed? then 0 else 1
      ensures result.Resumed? ==> GoesOnBy(stepMode, stop, result.how)
    {
      extra, found := 0, None;
      var inFrame := IsInStepFrame(stop.address);
      while !first && !inFrame
        invariant inFrame == InStepFrame(stepFrame, stop.address)
        invariant extra == 0 ==> stepFrame == old(stepFrame)
        invariant extra > 0 ==> extra == 1 && inFrame && !first && !InStepFrame(old(stepFrame), stop.address)
        invariant extra > 0 ==> FilesAnswer(stop.files, stop.address, found) && LineMode(stepMode)
                                && InEpilogue(found, stop.address) && stepFrame == Some(EpilogueFrame(found.value))
        decreases !inFrame
      {
        var again;
        again, found := CheckMethodOperation(stop.address, stop.files);
        if !again {
          return Completed, found, extra;
        }
        inFrame := IsInStepFrame(stop.address);
        extra := extra + 1;
      }
      var how := Proceed(stop);
      return Resumed(how), found, extra;
    }

    /** `Step` in all modes. */
    method StepOnce(first: bool, stop: Stop) returns (result: StepResult)
      requires stepMode.FinishNative? ==> stepFrame.Some?
      requires !first && !InStepFrame(stepFrame, stop.address) ==>
                 forall m :: FilesAnswer(stop.files, stop.address, Some(m)) ==>
                   !Endless(stepMode, stepFrame, stop.address, Some(m))
      modifies this`stepFrame
      ensures stepMode.RunMode? ==>
                && stepFrame == old(stepFrame)
                && (result.Completed? <==>
                  stepFrame.Some? && stepFrame.value.end != NULL && stop.address == stepFrame.value.end)
      ensures stepMode.RunMode? && result.Resumed? ==> result.how.Continue?
      ensures var below := stepMode.FinishNative? && stop.stack <= old(stepFrame).value.end;
              && (below ==> result == Resumed(Next) && stepFrame == old(stepFrame))
              && (!below && !stepMode.RunMode? && result.Resumed? ==> GoesOnBy(stepMode, stop, result.how))
              && (!below && !stepMode.RunMode? && !LineMode(stepMode) ==>
                    && stepFrame == old(stepFrame)
                    && (result.Completed? <==> !first && !InStepFrame(stepFrame, stop.address)))
      ensures LineMode(stepMode) ==>
                exists found ::
                  && (!first && !InStepFrame(old(stepFrame), stop.address) ==>
                        FilesAnswer(stop.files, stop.address, found))
                  && Verdict(stepMode, first, old(stepFrame), stop.address, found) == (result.Completed?, stepFrame)
    {
      if stepMode.RunMode? {
        var until := if stepFrame.Some? then stepFrame.value.end else NULL;
        if until != NULL && stop.address == until {
          return Completed;
        }
        return Resumed(Continue);
      }
      if stepMode.FinishNative? && stop.stack <= stepFrame.value.end {
        return Resumed(Next);
      }
      ghost var found;
      ghost var extra;
      result, found, extra := StepInFrame(first, stop);
      assert LineMode(stepMode) ==>
        Verdict(stepMode, first, old(stepFrame), stop.address, found) == (result.Completed?, stepFrame);
    }
  }

  // ------------------------------------------------------ sequences of stops

  /** Whether a step completes at a stop, and the frame it has afterwards. */
  function Verdict(mode: StepMode, first: bool, frame: Option<StepFrame>, address: nat, found: Option<Method>)
    : (bool, Option<StepFrame>)
  {
    if first || InStepFrame(frame, address) then (false, frame)
    else if LineMode(mode) && InEpilogue(found, address) then (false, Some(EpilogueFrame(found.value)))
    else (true, frame)
  }

  /** A stop as the frame check sees it: its address and the method found there. */
  datatype Visit = Visit(address: nat, found: Option<Method>)

  /** What `Lookup` guarantees, and that the line tables hold no null end. */
  predicate Plausible(v: Visit) {
    v.found.Some? ==>
      Contains(v.found.value, v.address) && (v.found.value.bounds.Some? ==> v.found.value.bounds.value.1 != NULL)
  }

  /** The position of the stop at which the step completes. */
  function Walk(mode: StepMode, frame: Option<StepFrame>, visits: seq<Visit>): (k: Option<nat>)
    ensures k.Some? ==> k.value < |visits|
    decreases |visits|
  {
    if visits == [] then None
    else
      var (completed, frame') := Verdict(mode, false, frame, visits[0].address, visits[0].found);
      if completed then Some(0)
      else
        var k := Walk(mode, frame', visits[1..]);
        if k.None? then None else Some(k.value + 1)
  }

  /** The first stop outside the frame. */
  predicate FirstOutside(frame: Option<StepFrame>, visits: seq<Visit>, k: nat) {
    && k < |visits| && !InStepFrame(frame, visits[k].address)
    && forall i :: 0 <= i < k ==> InStepFrame(frame, visits[i].address)
  }

  lemma FirstOutsideOfTail(frame: Option<StepFrame>, visits: seq<Visit>, k: nat)
    requires visits != [] && InStepFrame(frame, visits[0].address)
    ensures FirstOutside(frame, visits, k) <==> k > 0 && FirstOutside(frame, visits[1..], k - 1)
  {
    if k > 0 && FirstOutside(frame, visits[1..], k - 1) {
      assert forall i :: 1 <= i < k ==> visits[i] == visits[1..][i - 1];
    }
    if FirstOutside(frame, visits, k) {
      assert forall i :: 0 <= i < k - 1 ==> visits[1..][i] == visits[i + 1];
    }
  }

  /**
   For every sequence of stops: a finish step completes exactly at the first stop outside its frame,
   and so does a line step that meets no epilogue.
   */
  lemma {:induction false} CompletesAtFirstOutside(mode: StepMode, frame: Option<StepFrame>, visits: seq<Visit>, k: nat)
    requires mode.Finish? || (LineMode(mode) && forall v :: v in visits ==> !InEpilogue(v.found, v.address))
    ensures Walk(mode, frame, visits) == Some(k) <==> FirstOutside(frame, visits, k)
    decreases |visits|
  {
    if visits != [] {
      assert visits[0] in visits;
      if InStepFrame(frame, visits[0].address) {
        FirstOutsideOfTail(frame, visits, k);
        if k > 0 {
          CompletesAtFirstOutside(mode, frame, visits[1..], k - 1);
        }
      }
    }
  }

  /** The frame in force after `k` stops at none of which the step completed. */
  function FrameInForce(mode: StepMode, frame: Option<StepFrame>, visits: seq<Visit>, k: nat): Option<StepFrame>
    requires k <= |visits|
    decreases k
  {
    if k == 0 then frame
    else FrameInForce(mode, Verdict(mode, false, frame, visits[0].address, visits[0].found).1, visits[1..], k - 1)
  }

  /** Stop `k` is outside the frame in force and, in a line mode, not in an epilogue. */
  predicate LeavesAt(mode: StepMode, frame: Option<StepFrame>, visits: seq<Visit>, k: nat) {
    && k < |visits|
    && !InStepFrame(FrameInForce(mode, frame, visits, k), visits[k].address)
    && !(LineMode(mode) && InEpilogue(visits[k].found, visits[k].address))
  }

  lemma LeavesAtTail(mode: StepMode, frame: Option<StepFrame>, visits: seq<Visit>, k: nat)
    requires visits != [] && k > 0
    ensures var frame' := Verdict(mode, false, frame, visits[0].address, visits[0].found).1;
            LeavesAt(mode, frame, visits, k) <==> LeavesAt(mode, frame', visits[1..], k - 1)
  {
    assert k < |visits| ==> visits[1..][k - 1] == visits[k];
  }

  /**
   The step over every sequence of stops, in every mode that watches a frame: it completes at stop `k`
   if and only if that is the first stop outside the frame in force and, in a line mode, not in an
   epilogue.
   */
  lemma {:induction false} CompletesAtFirstLeaving(mode: StepMode, frame: Option<StepFrame>, visits: seq<Visit>, k: nat)
    ensures Walk(mode, frame, visits) == Some(k) <==>
            LeavesAt(mode, frame, visits, k) && forall i: nat :: i < k ==> !LeavesAt(mode, frame, visits, i)
    decreases |visits|
  {
    if visits != [] {
      var (completed, frame') := Verdict(mode, false, frame, visits[0].address, visits[0].found);
      assert completed <==> LeavesAt(mode, frame, visits, 0);
      if !completed && k > 0 {
        CompletesAtFirstLeaving(mode, frame', visits[1..], k - 1);
        forall i: nat | 0 < i <= k
          ensures LeavesAt(mode, frame, visits, i) <==> LeavesAt(mode, frame', visits[1..], i - 1)
        {
          LeavesAtTail(mode, frame, visits, i);
        }
        FirstOfTail(mode, frame, frame', visits, k);
      }
    }
  }

  lemma FirstOfTail(
    mode: StepMode, frame: Option<StepFrame>, frame': Option<StepFrame>, visits: seq<Visit>, k: nat)
    requires visits != [] && k > 0 && !LeavesAt(mode, frame, visits, 0)
    requires forall i: nat :: 0 < i <= k ==>
               (LeavesAt(mode, frame, visits, i) <==> LeavesAt(mode, frame', visits[1..], i - 1))
    ensures (forall i: nat :: i < k ==> !LeavesAt(mode, frame, visits, i)) <==>
            (forall i: nat :: i < k - 1 ==> !LeavesAt(mode, frame', visits[1..], i))
  {
    if forall i: nat :: i < k ==> !LeavesAt(mode, frame, visits, i) {
      forall i: nat | i < k - 1
        ensures !LeavesAt(mode, frame', visits[1..], i)
      {
        assert !LeavesAt(mode, frame, visits, i + 1);
      }
    }
  }

  /** An earlier or present stop lay in an epilogue, and this address is in that epilogue. */
  ghost predicate InVisitedEpilogue(visits: seq<Visit>, i: nat)
    requires i < |visits|
  {
    exists j :: 0 <= j <= i && InEpilogue(visits[j].found, visits[j].address)
                && InStepFrame(Some(EpilogueFrame(visits[j].found.value)), visits[i].address)
  }

  lemma VisitedInTail(visits: seq<Visit>, i: nat)
    requires 0 < i < |visits| && InVisitedEpilogue(visits[1..], i - 1)
    ensures InVisitedEpilogue(visits, i)
  {
    var j :| 0 <= j <= i - 1 && InEpilogue(visits[1..][j].found, visits[1..][j].address)
      && InStepFrame(Some(EpilogueFrame(visits[1..][j].found.value)), visits[1..][i - 1].address);
    assert visits[j + 1] == visits[1..][j];
  }

  /**
   A line step, over every sequence of stops: up to its completion every stop is in its frame or in
   an epilogue it has come to, and it does not complete in an epilogue.
   */
  lemma {:induction false} LineStepPassesOnlyItsFrame(mode: StepMode, frame: Option<StepFrame>, visits: seq<Visit>,
      i: nat)
    requires LineMode(mode) && (forall v :: v in visits ==> Plausible(v)) && i < |visits|
    requires var k := Walk(mode, frame, visits); k.None? || i <= k.value
    ensures Walk(mode, frame, visits) == Some(i) ==> !InEpilogue(visits[i].found, visits[i].address)
    ensures Walk(mode, frame, visits) != Some(i) ==>
              InStepFrame(frame, visits[i].address) || InVisitedEpilogue(visits, i)
    decreases |visits|
  {
    var v := visits[0];
    assert v in visits;
    var (completed, frame') := Verdict(mode, false, frame, v.address, v.found);
    if !completed && i == 0 && !InStepFrame(frame, v.address) {
      assert InStepFrame(Some(EpilogueFrame(v.found.value)), visits[0].address);
    }
    if !completed && i > 0 {
      LineStepPassesOnlyItsFrame(mode, frame', visits[1..], i - 1);
      assert visits[1..][i - 1] == visits[i];
      if Walk(mode, frame, visits) != Some(i) && !InStepFrame(frame', visits[i].address) {
        VisitedInTail(visits, i);
      } else if Walk(mode, frame, visits) != Some(i) && frame' != frame {
        assert InEpilogue(visits[0].found, visits[0].address) && frame' == Some(EpilogueFrame(visits[0].found.value));
      }
    }
  }

  /** The step left its frame for an epilogue. */
  ghost predicate LeftForEpilogue(frame: Option<StepFrame>, visits: seq<Visit>, k: nat)
    requires k <= |visits|
  {
    exists j :: 0 <= j < k && !InStepFrame(frame, visits[j].address) && InEpilogue(visits[j].found, visits[j].address)
  }

  /** A line step completes inside the frame it started with only after it left it for an epilogue. */
  lemma {:induction false} CompletesInsideOnlyAfterEpilogue(mode: StepMode, frame: Option<StepFrame>,
      visits: seq<Visit>, k: nat)
    requires LineMode(mode) && Walk(mode, frame, visits) == Some(k) && InStepFrame(frame, visits[k].address)
    ensures LeftForEpilogue(frame, visits, k)
    decreases |visits|
  {
    var v := visits[0];
    if InStepFrame(frame, v.address) {
      CompletesInsideOnlyAfterEpilogue(mode, frame, visits[1..], k - 1);
      var j :| 0 <= j < k - 1 && !InStepFrame(frame, visits[1..][j].address)
        && InEpilogue(visits[1..][j].found, visits[1..][j].address);
      assert visits[j + 1] == visits[1..][j];
    } else {
      assert InEpilogue(visits[0].found, visits[0].address);
    }
  }

  /**
   And it may: from its line into the method's own epilogue, and out of it into the same line of a
   recursive caller.
   */
  lemma MayCompleteInsideItsLine()
    ensures exists frame: Option<StepFrame>, visits: seq<Visit>, k: nat ::
              && (forall v :: v in visits ==> Plausible(v))
              && Walk(SourceLine, frame, visits) == Some(k) && k < |visits| && InStepFrame(frame, visits[k].address)
  {
    var m := Method(1, true, 100, 120, Some((102, 110)), true, false);
    var line := Some(StepFrame(StepFrameMode, 104, 108));
    var visits := [Visit(106, Some(m)), Visit(112, Some(m)), Visit(105, Some(m))];
    assert visits[1..] == [Visit(112, Some(m)), Visit(105, Some(m))];
    assert visits[1..][1..] == [Visit(105, Some(m))];
    assert Walk(SourceLine, Some(EpilogueFrame(m)), visits[1..][1..]) == Some(0);
    assert Walk(SourceLine, line, visits[1..]) == Some(1);
    assert Walk(SourceLine, line, visits) == Some(2);
    assert InStepFrame(line, visits[2].address);
  }

  // -------------------------------------------------------- the null line end

  /** The frame after `n` rounds of the loop that all ask for another. */
  function FrameAfter(frame: Option<StepFrame>, found: Method, n: nat): Option<StepFrame>
    requires found.bounds.Some?
  {
    if n == 0 then frame else Some(EpilogueFrame(found))
  }

  /**
   The loop goes round for ever exactly when the method found records a null end of its lines;
   otherwise one more round settles it.
   */
  lemma EndlessExactlyForNullEnd(mode: StepMode, frame: Option<StepFrame>, address: nat, m: Method)
    requires LineMode(mode) && !InStepFrame(frame, address) && Contains(m, address) && m.bounds.Some?
    ensures Endless(mode, frame, address, Some(m)) <==>
            forall n: nat :: !InStepFrame(FrameAfter(frame, m, n), address) && InEpilogue(Some(m), address)
  {
    assert FrameAfter(frame, m, 1) == Some(EpilogueFrame(m));
    if InEpilogue(Some(m), address) && !InStepFrame(FrameAfter(frame, m, 1), address) {
      assert m.bounds.value.1 == NULL;
    }
  }
}
