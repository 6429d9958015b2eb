/**
 The hand-over between the wait thread, the engine thread and a client: two events, a monitor with
 one waiter, and one slot each for an event and a command. Every access to a shared variable is a
 step of its own; a run is any interleaving of the steps of the three threads.
 */
module Handshake {
  import opened TargetEvents
  import opened Sequences

  datatype Command = Command(id: nat, create: bool)

  datatype WaitPc =
    | WSleep                                   // wait_event.WaitOne
    | WWoken | WPolling | WGiveBack
    | WGate(ev: nat) | WLock(ev: nat) | WLocked(ev: nat) | WReset(ev: nat)
    | WPublished | WDone

  datatype EnginePc =
    | EWait | EPulsed                          // inside Monitor.Wait
    | EAwake
    | EEvent(ev: nat, cmd: Option<Command>)
    | EGate(cmd: Option<Command>) | ERequest(cmd: Option<Command>)
    | ERun(command: Command) | ECreate(command: Command) | EFinish(command: Command)

  datatype ClientPc =
    | CIdle | CGate(cmd: Command) | CLock(cmd: Command)
    | CLocked(cmd: Command) | CReset(cmd: Command) | CPublished(cmd: Command) | CAwait(cmd: Command)

  datatype Owner = Free | ByEngine | ByWait | ByClient

  /**
   The shared variables, the three program counters, and the history: events published and
   processed, commands issued, run and returned, creations run; `lost` says that the wait thread
   went back to sleep after a failed wait, `error` that one of the InternalErrors was raised.
   */
  datatype State = State(
    w: WaitPc, e: EnginePc, c: ClientPc,
    monitor: Owner,
    waitEvent: bool,
    engineEvent: bool,
    waiting: bool,
    currentEvent: Option<nat>,
    currentCommand: Option<Command>,
    published: seq<nat>, processed: seq<nat>,
    issued: nat, ran: seq<nat>, returned: seq<nat>,
    creates: nat,
    lost: bool,
    error: bool)

  datatype WaitMove =
    | WTake | WMark | WFail | WUnknown | WReturn | WFind(ev: nat) | WPass | WEnter | WClose | WPublish | WClear | WLeave

  datatype EngineMove = EEnter | ETake | EProcess | EOpen | EReqWait | ERunCommand | ECreateWait | EDone

  datatype ClientMove = CBegin(create: bool) | CTimeout | CPass | CEnter | CClose | CPublish | CLeave | CReturn

  datatype Step = Wait(wait: WaitMove) | Engine(engine: EngineMove) | Client(client: ClientMove)

  /** `RequestWait` raises its error while the wait thread waits, and otherwise sets the wait event. */
  predicate ErrorAfterRequest(s: State) {
    s.error || s.waiting
  }

  predicate WaitEventAfterRequest(s: State) {
    s.waitEvent || !s.waiting
  }

  /** `event_queue.Signal ()`. */
  function Pulsed(e: EnginePc): EnginePc {
    if e.EWait? then EPulsed else e
  }

  function WaitStep(s: State, step: WaitMove): State {
    match step
    case WTake => if s.w.WSleep? && s.waitEvent then s.(waitEvent := false, w := WWoken) else s
    case WMark => if s.w.WWoken? then s.(waiting := true, w := WPolling) else s
    case WFail => if s.w.WPolling? then s.(w := WSleep, lost := true) else s
    case WUnknown => if s.w.WPolling? then s.(waiting := false, w := WGiveBack) else s
    case WReturn =>
      if s.w.WGiveBack?
      then s.(error := ErrorAfterRequest(s), waitEvent := WaitEventAfterRequest(s), w := WSleep) else s
    case WFind(ev) => if s.w.WPolling? then s.(w := WGate(ev)) else s
    case WPass => if s.w.WGate? && s.engineEvent then s.(w := WLock(s.w.ev)) else s
    case WEnter => if s.w.WLock? && s.monitor.Free? then s.(monitor := ByWait, w := WLocked(s.w.ev)) else s
    case WClose => if s.w.WLocked? then s.(engineEvent := false, w := WReset(s.w.ev)) else s
    case WPublish =>
      if !s.w.WReset? then s
      else if s.currentEvent.Some? then s.(error := true)
      else s.(currentEvent := Some(s.w.ev), published := s.published + [s.w.ev], w := WPublished)
    case WClear => if s.w.WPublished? then s.(waiting := false, w := WDone) else s
    case WLeave => if s.w.WDone? then s.(e := Pulsed(s.e), monitor := Free, w := WSleep) else s
  }

  /** What the engine thread does with the contents of the two slots. */
  function Take(event: Option<nat>, command: Option<Command>): EnginePc {
    if event.Some? then EEvent(event.value, command)
    else if command.Some? then ERun(command.value)
    else EWait
  }

  function EngineStep(s: State, step: EngineMove): State {
    match step
    case EEnter => if s.e.EPulsed? && s.monitor.Free? then s.(monitor := ByEngine, e := EAwake) else s
    case ETake =>
      if !s.e.EAwake? then s
      else s.(currentEvent := None, currentCommand := None, e := Take(s.currentEvent, s.currentCommand),
              monitor := if Take(s.currentEvent, s.currentCommand).EWait? then Free else s.monitor)
    case EProcess => if s.e.EEvent? then s.(processed := s.processed + [s.e.ev], e := EGate(s.e.cmd)) else s
    case EOpen =>
      if s.e.EGate? then s.(engineEvent := if s.e.cmd.None? then true else s.engineEvent, e := ERequest(s.e.cmd)) else s
    case EReqWait =>
      if !s.e.ERequest? then s
      else if s.e.cmd.Some?
      then s.(error := ErrorAfterRequest(s), waitEvent := WaitEventAfterRequest(s), e := ERun(s.e.cmd.value))
      else s.(error := ErrorAfterRequest(s), waitEvent := WaitEventAfterRequest(s), e := EWait, monitor := Free)
    case ERunCommand =>
      if !s.e.ERun? then s
      else
        s.(ran := s.ran + [s.e.command.id],
           creates := if s.e.command.create then s.creates + 1 else s.creates,
           e := if s.e.command.create then ECreate(s.e.command) else EFinish(s.e.command))
    case ECreateWait =>
      if s.e.ECreate?
      then s.(error := ErrorAfterRequest(s), waitEvent := WaitEventAfterRequest(s), e := EFinish(s.e.command)) else s
    case EDone => if s.e.EFinish? then s.(engineEvent := true, e := EWait, monitor := Free) else s
  }

  function ClientStep(s: State, step: ClientMove): State {
    match step
    case CBegin(create) => if s.c.CIdle? then s.(c := CGate(Command(s.issued, create)), issued := s.issued + 1) else s
    case CTimeout => if s.c.CGate? then s.(c := CIdle) else s
    case CPass => if s.c.CGate? && s.engineEvent then s.(c := CLock(s.c.cmd)) else s
    case CEnter => if s.c.CLock? && s.monitor.Free? then s.(monitor := ByClient, c := CLocked(s.c.cmd)) else s
    case CClose => if s.c.CLocked? then s.(engineEvent := false, c := CReset(s.c.cmd)) else s
    case CPublish => if s.c.CReset? then s.(currentCommand := Some(s.c.cmd), c := CPublished(s.c.cmd)) else s
    case CLeave => if s.c.CPublished? then s.(e := Pulsed(s.e), monitor := Free, c := CAwait(s.c.cmd)) else s
    case CReturn => if s.c.CAwait? && s.engineEvent then s.(c := CIdle, returned := s.returned + [s.c.cmd.id]) else s
  }

  /** One step of one thread; a step that is not enabled changes nothing. */
  function Next(s: State, step: Step): State {
    match step
    case Wait(move) => WaitStep(s, move)
    case Engine(move) => EngineStep(s, move)
    case Client(move) => ClientStep(s, move)
  }

  function Run(s: State, steps: seq<Step>): State
    decreases |steps|
  {
    if steps == [] then s else Run(Next(s, steps[0]), steps[1..])
  }

  const INITIAL := State(WSleep, EWait, CIdle, Free, false, true, false, None, None, [], [], 0, [], [], 0, false, false)

  // ------------------------------------------------------------- invariant

  function Count(b: bool): nat { if b then 1 else 0 }

  /** The wait thread may wait, is waiting, or carries an event. */
  predicate WaitThreadActive(s: State) {
    !s.w.WSleep? && !s.w.WPublished? && !s.w.WDone?
  }

  /** An event is in the slot or in the hands of the engine thread, which will ask for the next. */
  predicate EventUnderWay(s: State) {
    s.currentEvent.Some? || s.e.EEvent? || s.e.EGate? || s.e.ERequest?
  }

  /** Who may, or will, wait for the target. */
  function Permits(s: State): nat {
    Count(s.waitEvent) + Count(WaitThreadActive(s)) + Count(EventUnderWay(s))
  }

  /** The command the engine thread has taken and not yet run. */
  function Taken(s: State): Option<Command> {
    match s.e
    case EEvent(_, cmd) => cmd
    case EGate(cmd) => cmd
    case ERequest(cmd) => cmd
    case ERun(command) => Some(command)
    case _ => None
  }

  predicate MonitorOk(s: State) {
    && (s.monitor.ByEngine? <==> !s.e.EWait? && !s.e.EPulsed?)
    && (s.monitor.ByWait? <==> s.w.WLocked? || s.w.WReset? || s.w.WPublished? || s.w.WDone?)
    && (s.monitor.ByClient? <==> s.c.CLocked? || s.c.CReset? || s.c.CPublished?)
  }

  /** A wait was requested on behalf of some process. */
  predicate Requested(s: State) {
    if s.e.ECreate? then s.creates > 1 else s.creates > 0
  }

  predicate PermitsOk(s: State) {
    && Permits(s) == Count(Requested(s) && !s.lost)
    && (s.e.ECreate? ==> s.creates >= 1)
    && (s.lost ==> s.waiting && s.w.WSleep? && Requested(s))
    && (!s.lost ==>
      (s.waiting <==> s.w.WPolling? || s.w.WGate? || s.w.WLock? || s.w.WLocked? || s.w.WReset? || s.w.WPublished?))
  }

  predicate EventsOk(s: State) {
    && s.published == s.processed
                      + (if s.e.EEvent? then [s.e.ev] else [])
                      + (if s.currentEvent.Some? then [s.currentEvent.value] else [])
    && (s.currentEvent.Some? ==> s.e.EPulsed? || s.e.EAwake? || s.w.WPublished? || s.w.WDone?)
    && (s.w.WPublished? || s.w.WDone? ==> s.currentEvent.Some?)
    && (s.currentCommand.Some? ==> s.e.EPulsed? || s.e.EAwake? || s.c.CPublished?)
  }

  predicate HistoryOk(ran: seq<nat>, returned: seq<nat>, issued: nat) {
    && (forall i, j :: 0 <= i < j < |ran| ==> ran[i] != ran[j])
    && (forall x :: x in ran ==> x < issued)
    && (forall x :: x in returned ==> x in ran)
  }

  /** Where the client's command is. */
  predicate CommandsOk(s: State) {
    && HistoryOk(s.ran, s.returned, s.issued)
    && (!s.c.CIdle? ==> s.c.cmd.id < s.issued)
    && (s.currentCommand.Some? ==> (s.c.CPublished? || s.c.CAwait?) && s.currentCommand.value == s.c.cmd)
    && (Taken(s).Some? ==> s.c.CAwait? && Taken(s).value == s.c.cmd)
    && (s.e.ECreate? || s.e.EFinish? ==> s.c.CAwait? && s.e.command == s.c.cmd && s.c.cmd.id in s.ran)
    && (s.c.CAwait? && (s.currentCommand.Some? || Taken(s).Some? || s.e.ECreate? || s.e.EFinish?) ==> !s.engineEvent)
    && (s.c.CReset? || s.c.CPublished? ==> !s.engineEvent)
    && (s.c.CPublished? ==> s.currentCommand.Some?)
    && (!s.c.CIdle? && !s.c.CAwait? ==> s.c.cmd.id !in s.ran)
    && (s.c.CAwait? ==> (s.c.cmd.id !in s.ran <==> s.currentCommand.Some? || Taken(s).Some?))
  }

  /** What holds however many processes are created. */
  predicate Books(s: State) {
    MonitorOk(s) && EventsOk(s) && CommandsOk(s)
  }

  /** The request for a process other than the first finds the wait event set. */
  predicate Benign(s: State, step: Step) {
    step == Engine(ECreateWait) && s.e.ECreate? && s.creates > 1 ==> s.waitEvent
  }

  /** Every step of the run is benign. */
  predicate Tame(s: State, steps: seq<Step>)
    decreases |steps|
  {
    steps != [] ==> Benign(s, steps[0]) && Tame(Next(s, steps[0]), steps[1..])
  }

  predicate Inv(s: State) {
    Books(s) && PermitsOk(s) && !s.error
  }

  lemma WaitKeepsMonitor(s: State, step: WaitMove)
    requires MonitorOk(s)
    ensures MonitorOk(WaitStep(s, step))
  {
  }

  lemma WaitKeepsEvents(s: State, step: WaitMove)
    requires MonitorOk(s) && EventsOk(s)
    ensures EventsOk(WaitStep(s, step))
  {
    if step.WPublish? || step.WLeave? {
      PublishingKeepsEvents(s, step);
    } else {
      var s' := WaitStep(s, step);
      assert s'.currentEvent == s.currentEvent && s'.published == s.published && s'.e == s.e;
    }
  }

  lemma PublishingKeepsEvents(s: State, step: WaitMove)
    requires MonitorOk(s) && EventsOk(s) && (step.WPublish? || step.WLeave?)
    ensures EventsOk(WaitStep(s, step))
  {
  }

  /** What the wait thread leaves alone. */
  predicate CommandsUntouched(s: State, s': State) {
    && s'.ran == s.ran && s'.returned == s.returned && s'.issued == s.issued && s'.c == s.c
    && s'.currentCommand == s.currentCommand
    && (s'.e == s.e || (s.e.EWait? && s'.e.EPulsed?)) && (s'.engineEvent ==> s.engineEvent)
  }

  /** The wait thread is past polling the target. */
  predicate HandsOver(step: WaitMove) {
    step.WPass? || step.WEnter? || step.WClose? || step.WPublish? || step.WClear? || step.WLeave?
  }

  lemma HandingOverLeavesCommands(s: State, step: WaitMove)
    requires HandsOver(step)
    ensures CommandsUntouched(s, WaitStep(s, step))
  {
  }

  lemma PollingLeavesCommands(s: State, step: WaitMove)
    requires !HandsOver(step)
    ensures CommandsUntouched(s, WaitStep(s, step))
  {
  }

  lemma UntouchedCommands(s: State, s': State)
    requires CommandsOk(s) && CommandsUntouched(s, s')
    ensures CommandsOk(s')
  {
  }

  lemma WaitKeepsBooks(s: State, step: WaitMove)
    requires Books(s)
    ensures Books(WaitStep(s, step))
  {
    WaitKeepsMonitor(s, step);
    WaitKeepsEvents(s, step);
    if HandsOver(step) {
      HandingOverLeavesCommands(s, step);
    } else {
      PollingLeavesCommands(s, step);
    }
    UntouchedCommands(s, WaitStep(s, step));
  }

  lemma WaitKeepsPermits(s: State, step: WaitMove)
    requires Inv(s)
    ensures var s' := WaitStep(s, step); PermitsOk(s') && !s'.error
  {
  }

  lemma EngineKeepsMonitor(s: State, step: EngineMove)
    requires MonitorOk(s)
    ensures MonitorOk(EngineStep(s, step))
  {
  }

  lemma EngineKeepsEvents(s: State, step: EngineMove)
    requires MonitorOk(s) && EventsOk(s)
    ensures EventsOk(EngineStep(s, step))
  {
    if step.ETake? || step.EProcess? {
      TakingKeepsEvents(s, step);
    } else {
      RestKeepsEvents(s, step);
    }
  }

  lemma TakingKeepsEvents(s: State, step: EngineMove)
    requires MonitorOk(s) && EventsOk(s) && (step.ETake? || step.EProcess?)
    ensures EventsOk(EngineStep(s, step))
  {
  }

  lemma RestKeepsEvents(s: State, step: EngineMove)
    requires MonitorOk(s) && EventsOk(s) && !step.ETake? && !step.EProcess?
    ensures EventsOk(EngineStep(s, step))
  {
  }

  lemma EngineKeepsPermits(s: State, step: EngineMove)
    requires Inv(s) && Benign(s, Engine(step))
    ensures PermitsOk(EngineStep(s, step)) && !EngineStep(s, step).error
  {
  }

  lemma TakingKeepsCommands(s: State)
    requires Books(s)
    ensures CommandsOk(EngineStep(s, ETake))
  {
    var s' := EngineStep(s, ETake);
    assert s'.ran == s.ran && s'.returned == s.returned && s'.issued == s.issued && s'.c == s.c;
    if s.e.EAwake? {
      assert s.monitor.ByEngine? && !s.c.CPublished?;
      assert s'.currentCommand.None? && Taken(s') == s.currentCommand;
    }
  }

  lemma RunningKeepsCommands(s: State)
    requires Books(s)
    ensures CommandsOk(EngineStep(s, ERunCommand))
  {
    if s.e.ERun? {
      var ran := s.ran + [s.e.command.id];
      assert s.e.command == s.c.cmd && s.c.cmd.id !in s.ran;
      assert forall x :: x in ran <==> x in s.ran || x == s.e.command.id;
    }
  }

  lemma EngineKeepsCommands(s: State, step: EngineMove)
    requires Books(s)
    ensures CommandsOk(EngineStep(s, step))
  {
    if step.ETake? {
      TakingKeepsCommands(s);
    } else if step.ERunCommand? {
      RunningKeepsCommands(s);
    } else if step.EOpen? || step.EDone? {
      OpeningKeepsCommands(s, step);
    } else {
      var s' := EngineStep(s, step);
      assert s'.ran == s.ran && s'.returned == s.returned && s'.issued == s.issued && s'.c == s.c;
      assert s'.engineEvent == s.engineEvent && s'.currentCommand == s.currentCommand;
    }
  }

  lemma OpeningKeepsCommands(s: State, step: EngineMove)
    requires Books(s) && (step.EOpen? || step.EDone?)
    ensures CommandsOk(EngineStep(s, step))
  {
  }

  lemma ClientKeepsEvents(s: State, step: ClientMove)
    requires Books(s)
    ensures MonitorOk(ClientStep(s, step)) && EventsOk(ClientStep(s, step))
  {
  }

  lemma ClientKeepsCommands(s: State, step: ClientMove)
    requires Books(s)
    ensures CommandsOk(ClientStep(s, step))
  {
  }

  lemma ClientKeepsPermits(s: State, step: ClientMove)
    requires Inv(s)
    ensures PermitsOk(ClientStep(s, step)) && !ClientStep(s, step).error
  {
  }

  lemma NextKeepsBooks(s: State, step: Step)
    requires Books(s)
    ensures Books(Next(s, step))
  {
    match step
    case Wait(move) => WaitKeepsBooks(s, move);
    case Engine(move) =>
      EngineKeepsMonitor(s, move);
      EngineKeepsEvents(s, move);
      EngineKeepsCommands(s, move);
    case Client(move) =>
      ClientKeepsEvents(s, move);
      ClientKeepsCommands(s, move);
  }

  lemma NextKeepsInv(s: State, step: Step)
    requires Inv(s) && Benign(s, step)
    ensures Inv(Next(s, step))
  {
    NextKeepsBooks(s, step);
    match step
    case Wait(move) => WaitKeepsPermits(s, move);
    case Engine(move) => EngineKeepsPermits(s, move);
    case Client(move) => ClientKeepsPermits(s, move);
  }

  lemma {:induction false} RunKeepsBooks(s: State, steps: seq<Step>)
    requires Books(s)
    ensures Books(Run(s, steps))
    decreases |steps|
  {
    if steps != [] {
      NextKeepsBooks(s, steps[0]);
      RunKeepsBooks(Next(s, steps[0]), steps[1..]);
    }
  }

  lemma {:induction false} RunKeepsInv(s: State, steps: seq<Step>)
    requires Inv(s) && Tame(s, steps)
    ensures Inv(Run(s, steps))
    decreases |steps|
  {
    if steps != [] {
      NextKeepsInv(s, steps[0]);
      RunKeepsInv(Next(s, steps[0]), steps[1..]);
    }
  }

  /** Some interleaving leads from `s` to `t`; a tame one leads there. */
  ghost predicate Leads(s: State, t: State) {
    exists steps :: Run(s, steps) == t
  }

  ghost predicate TamelyLeads(s: State, t: State) {
    exists steps :: Tame(s, steps) && Run(s, steps) == t
  }

  /** The states of all interleavings in which every creation after the first finds the wait event set. */
  ghost predicate Reachable(s: State) {
    TamelyLeads(INITIAL, s)
  }

  /** Nothing has happened yet. */
  predicate Fresh(s: State) {
    && s.w.WSleep? && s.e.EWait? && s.c.CIdle? && s.monitor.Free?
    && !s.waitEvent && !s.waiting && s.currentEvent.None? && s.currentCommand.None?
    && s.published == s.processed && |s.ran| == 0 && |s.returned| == 0
    && s.creates == 0 && !s.lost && !s.error
  }

  lemma FreshIsGood(s: State)
    requires Fresh(s)
    ensures Inv(s)
  {
  }

  lemma GoodFromFresh(start: State, s: State)
    requires Fresh(start) && TamelyLeads(start, s)
    ensures Inv(s)
  {
    var steps :| Tame(start, steps) && Run(start, steps) == s;
    FreshIsGood(start);
    RunKeepsInv(start, steps);
  }

  lemma ReachableStatesAreGood(s: State)
    requires Reachable(s)
    ensures Inv(s)
  {
    GoodFromFresh(INITIAL, s);
  }

  lemma BooksFromFresh(start: State, s: State)
    requires Fresh(start) && Leads(start, s)
    ensures Books(s)
  {
    var steps :| Run(start, steps) == s;
    FreshIsGood(start);
    RunKeepsBooks(start, steps);
  }

  // ---------------------------------------------------------- main results

  /**
   For every tame interleaving: no InternalError is ever raised, so in particular no published event
   is overwritten; there is at most one permit to wait, and exactly one from the first request until
   a wait fails; and events are processed in the order of publication, all but the one in the slot or
   in the engine thread's hands.
   */
  lemma HandshakeIsSafe(s: State)
    requires Reachable(s)
    ensures !s.error && Permits(s) <= 1
    ensures Requested(s) && !s.lost ==> Permits(s) == 1
    ensures s.processed <= s.published && |s.published| <= |s.processed| + 1
  {
    ReachableStatesAreGood(s);
  }

  /**
   In every interleaving, tame or not: no command runs twice, and a client that came back, or may come
   back, had its own command run exactly once.
   */
  lemma CommandsRunOnce(s: State, id: nat)
    requires Leads(INITIAL, s)
    ensures multiset(s.ran)[id] <= 1
    ensures id in s.returned ==> multiset(s.ran)[id] == 1
    ensures s.c.CAwait? && s.c.cmd.id == id && s.engineEvent ==> multiset(s.ran)[id] == 1
  {
    BooksFromFresh(INITIAL, s);
    DistinctCount(s.ran, id);
  }

  /** In every interleaving a wake-up is never lost: what a publisher left behind has roused the engine thread. */
  lemma NoLostWakeUp(s: State)
    requires Leads(INITIAL, s) && !s.monitor.ByWait? && !s.monitor.ByClient?
    ensures s.currentEvent.Some? || s.currentCommand.Some? ==> s.e.EPulsed? || s.e.EAwake?
  {
    BooksFromFresh(INITIAL, s);
  }

  /** A wait that fails is the last one: nobody may wait any more, and the flag that raises the error stays set. */
  lemma FailedWaitIsTheLast(s: State)
    requires Reachable(s) && s.w.WPolling?
    ensures var s' := Next(s, Wait(WFail)); s'.w.WSleep? && s'.lost && s'.waiting && Permits(s') == 0
  {
    ReachableStatesAreGood(s);
  }

  /** The command `id` was issued, has not run, and is not in anybody's hands any more. */
  predicate GivenUp(s: State, id: nat) {
    id < s.issued && id !in s.ran && (s.c.CIdle? || s.c.cmd.id != id)
  }

  lemma WaitKeepsGivenUp(s: State, step: WaitMove, id: nat)
    requires GivenUp(s, id)
    ensures GivenUp(WaitStep(s, step), id)
  {
    if HandsOver(step) {
      HandingOverLeavesCommands(s, step);
    } else {
      PollingLeavesCommands(s, step);
    }
  }

  lemma EngineKeepsGivenUp(s: State, step: EngineMove, id: nat)
    requires CommandsOk(s) && GivenUp(s, id)
    ensures GivenUp(EngineStep(s, step), id)
  {
    if step.ERunCommand? {
      assert s.e.ERun? ==> Taken(s) == Some(s.e.command) && s.e.command == s.c.cmd;
    } else {
      var s' := EngineStep(s, step);
      assert s'.ran == s.ran && s'.c == s.c && s'.issued == s.issued;
    }
  }

  lemma ClientKeepsGivenUp(s: State, step: ClientMove, id: nat)
    requires GivenUp(s, id)
    ensures GivenUp(ClientStep(s, step), id)
  {
  }

  lemma {:induction false} NeverRuns(s: State, steps: seq<Step>, id: nat)
    requires Books(s) && GivenUp(s, id)
    ensures GivenUp(Run(s, steps), id)
    decreases |steps|
  {
    if steps != [] {
      NextKeepsBooks(s, steps[0]);
      match steps[0] {
        case Wait(move) => WaitKeepsGivenUp(s, move, id);
        case Engine(move) => EngineKeepsGivenUp(s, move, id);
        case Client(move) => ClientKeepsGivenUp(s, move, id);
      }
      NeverRuns(Next(s, steps[0]), steps[1..], id);
    }
  }

  /** A client that does not get through the gate in time is free again, and its command never runs. */
  lemma TimedOutCommandNeverRuns(s: State, steps: seq<Step>)
    requires Leads(INITIAL, s) && s.c.CGate?
    ensures var s' := Next(s, Client(CTimeout));
            s'.c.CIdle? && s.c.cmd.id !in Run(s', steps).ran && s.c.cmd.id < Run(s', steps).issued
  {
    BooksFromFresh(INITIAL, s);
    NextKeepsBooks(s, Client(CTimeout));
    NeverRuns(Next(s, Client(CTimeout)), steps, s.c.cmd.id);
  }

  // ------------------------------------------------------------- the gate

  /** Somebody is bound to open the gate again: an event or a command is on its way through the engine thread. */
  predicate GateWillOpen(s: State) {
    || s.w.WReset? || s.w.WPublished? || s.w.WDone? || s.currentEvent.Some? || s.e.EEvent? || s.e.EGate?
    || s.c.CReset? || s.c.CPublished? || s.currentCommand.Some? || Taken(s).Some? || s.e.ECreate? || s.e.EFinish?
  }

  predicate GateOk(s: State) {
    s.engineEvent || GateWillOpen(s)
  }

  lemma WaitKeepsGate(s: State, step: WaitMove)
    requires Books(s) && GateOk(s)
    ensures GateOk(WaitStep(s, step))
  {
  }

  lemma EngineKeepsGate(s: State, step: EngineMove)
    requires Books(s) && GateOk(s)
    ensures GateOk(EngineStep(s, step))
  {
  }

  lemma ClientKeepsGate(s: State, step: ClientMove)
    requires Books(s) && GateOk(s)
    ensures GateOk(ClientStep(s, step))
  {
  }

  lemma {:induction false} RunKeepsGate(s: State, steps: seq<Step>)
    requires Books(s) && GateOk(s)
    ensures Books(Run(s, steps)) && GateOk(Run(s, steps))
    decreases |steps|
  {
    if steps != [] {
      NextKeepsBooks(s, steps[0]);
      match steps[0] {
        case Wait(move) => WaitKeepsGate(s, move);
        case Engine(move) => EngineKeepsGate(s, move);
        case Client(move) => ClientKeepsGate(s, move);
      }
      RunKeepsGate(Next(s, steps[0]), steps[1..]);
    }
  }

  /** In every interleaving the gate is closed only while somebody is bound to open it. */
  lemma GateIsNeverForgotten(s: State)
    requires Leads(INITIAL, s)
    ensures s.engineEvent || GateWillOpen(s)
  {
    GateFromFresh(INITIAL, s);
  }

  lemma GateFromFresh(start: State, s: State)
    requires Fresh(start) && start.engineEvent && Leads(start, s)
    ensures Books(s) && GateOk(s)
  {
    var steps :| Run(start, steps) == s;
    FreshIsGood(start);
    RunKeepsGate(start, steps);
  }

  /** A step of the debugger itself that is not blocked, as against a report of the target or a user's request. */
  predicate CanGoOn(s: State, step: Step) {
    && Next(s, step) != s
    && (step.Engine? || step == Client(CReturn) || step == Wait(WClose) || step == Wait(WPublish)
        || step == Wait(WClear) || step == Wait(WLeave))
  }

  /** In every tame interleaving a client that waits for its command is never stranded: somebody can go on. */
  lemma ClientIsNeverStranded(s: State) returns (step: Step)
    requires Reachable(s) && s.c.CAwait?
    ensures CanGoOn(s, step)
  {
    ReachableStatesAreGood(s);
    ReachableIsLed(s);
    GateIsNeverForgotten(s);
    if s.engineEvent {
      step := Client(CReturn);
      assert Next(s, step).c.CIdle?;
    } else if s.monitor.ByWait? {
      step := WaitMoveOf(s);
    } else if s.monitor.ByEngine? {
      step := EngineMoveOf(s);
    } else {
      step := Engine(EEnter);
      assert s.monitor.Free? && s.e.EPulsed?;
      assert Next(s, step).e.EAwake?;
    }
  }

  lemma ReachableIsLed(s: State)
    requires Reachable(s)
    ensures Leads(INITIAL, s)
  {
  }

  lemma WaitMoveOf(s: State) returns (step: Step)
    requires Inv(s) && s.monitor.ByWait?
    ensures CanGoOn(s, step)
  {
    step := if s.w.WLocked? then Wait(WClose) else if s.w.WReset? then Wait(WPublish)
            else if s.w.WPublished? then Wait(WClear) else Wait(WLeave);
    assert Next(s, step).w != s.w;
  }

  lemma EngineMoveOf(s: State) returns (step: Step)
    requires Inv(s) && s.monitor.ByEngine?
    ensures CanGoOn(s, step)
  {
    step := Engine(match s.e
                   case EAwake => ETake
                   case EEvent(_, _) => EProcess
                   case EGate(_) => EOpen
                   case ERequest(_) => EReqWait
                   case ERun(_) => ERunCommand
                   case ECreate(_) => ECreateWait
                   case _ => EDone);
    assert Next(s, step).e != s.e;
  }

  /**
   The condition is exact. At the request for a second or later process: the error is raised if and
   only if the wait thread is waiting; with the wait event set nothing changes but the engine thread's
   place; and otherwise a second permit appears.
   */
  lemma LaterCreation(s: State, command: Command)
    requires Reachable(s) && s.e == ECreate(command) && s.creates > 1
    ensures var s' := EngineStep(s, ECreateWait);
            && (s'.error <==> s.waiting)
            && (s.waitEvent ==> s' == s.(e := EFinish(command)))
            && (!s.waiting && !s.waitEvent ==> Permits(s') == 2)
            && (!s'.error && Permits(s') <= 1 <==> s.waitEvent)
  {
    ReachableStatesAreGood(s);
    assert s.waitEvent ==> !s.waiting;
  }

  lemma {:induction false} RunOneMore(s: State, steps: seq<Step>, step: Step)
    ensures Run(s, steps + [step]) == Next(Run(s, steps), step)
    ensures Tame(s, steps) && Benign(Run(s, steps), step) ==> Tame(s, steps + [step])
    decreases |steps|
  {
    if steps == [] {
      assert [step][1..] == [] && steps + [step] == [step];
    } else {
      RunOneMore(Next(s, steps[0]), steps[1..], step);
      assert (steps + [step])[1..] == steps[1..] + [step];
    }
  }

  /** `t` is reached from `s`, and tamely so if `tame`. */
  ghost predicate Reaches(s: State, t: State, tame: bool) {
    Leads(s, t) && (tame ==> TamelyLeads(s, t))
  }

  lemma Onward(s: State, t: State, step: Step, tame: bool)
    requires Reaches(s, t, tame)
    ensures Reaches(s, Next(t, step), tame && Benign(t, step))
  {
    var steps :| Run(s, steps) == t && (tame ==> Tame(s, steps));
    RunOneMore(s, steps, step);
  }

  /** Nothing is under way between the client and the engine thread. */
  predicate Quiet(s: State) {
    s.c.CIdle? && s.e.EWait? && s.monitor.Free? && s.engineEvent && s.currentEvent.None? && s.currentCommand.None?
  }

  lemma Submitted(start: State, s: State, tame: bool) returns (t: State)
    requires Reaches(start, s, tame) && Quiet(s)
    ensures Reaches(start, t, tame)
    ensures var command := Command(s.issued, true);
            t == s.(c := CAwait(command), issued := s.issued + 1, engineEvent := false,
                    currentCommand := Some(command), e := EPulsed)
  {
    t := s;
    Onward(start, t, Client(CBegin(true)), tame);
    t := Next(t, Client(CBegin(true)));
    Onward(start, t, Client(CPass), tame);
    t := Next(t, Client(CPass));
    Onward(start, t, Client(CEnter), tame);
    t := Next(t, Client(CEnter));
    Onward(start, t, Client(CClose), tame);
    t := Next(t, Client(CClose));
    Onward(start, t, Client(CPublish), tame);
    t := Next(t, Client(CPublish));
    Onward(start, t, Client(CLeave), tame);
    t := Next(t, Client(CLeave));
  }

  lemma Created(start: State, s: State, tame: bool) returns (t: State)
    requires Reaches(start, s, tame) && Quiet(s) && !s.error
    ensures Reaches(start, t, tame && (s.creates > 0 ==> s.waitEvent)) && t.creates == s.creates + 1
    ensures t.error == s.waiting && (!t.error ==> Quiet(t) && t.waitEvent && t.w == s.w && t.waiting == s.waiting)
  {
    t := Submitted(start, s, tame);
    Onward(start, t, Engine(EEnter), tame);
    t := Next(t, Engine(EEnter));
    Onward(start, t, Engine(ETake), tame);
    t := Next(t, Engine(ETake));
    Onward(start, t, Engine(ERunCommand), tame);
    t := Next(t, Engine(ERunCommand));
    Onward(start, t, Engine(ECreateWait), tame);
    var tame' := tame && Benign(t, Engine(ECreateWait));
    t := Next(t, Engine(ECreateWait));
    Onward(start, t, Engine(EDone), tame');
    t := Next(t, Engine(EDone));
    Onward(start, t, Client(CReturn), tame');
    t := Next(t, Client(CReturn));
  }

  lemma FirstCreation() returns (s: State)
    ensures Reaches(INITIAL, s, true) && Quiet(s) && !s.error && s.creates == 1
    ensures s.waitEvent && !s.waiting && s.w.WSleep?
  {
    assert Run(INITIAL, []) == INITIAL && Tame(INITIAL, []);
    s := Created(INITIAL, INITIAL, true);
  }

  /** With two creations the error can be raised: the wait thread is waiting when the second one runs. */
  lemma SecondCreationMayFail()
    ensures exists s :: Leads(INITIAL, s) && s.creates == 2 && s.error
  {
    var s := FirstCreation();
    Onward(INITIAL, s, Wait(WTake), true);
    s := Next(s, Wait(WTake));
    Onward(INITIAL, s, Wait(WMark), true);
    s := Next(s, Wait(WMark));
    s := Created(INITIAL, s, true);
  }

  /** And it can be harmless: the wait thread has not yet taken up the first permit. */
  lemma SecondCreationMayBeHarmless()
    ensures exists s :: Reachable(s) && s.creates == 2 && !s.error
  {
    var s := FirstCreation();
    s := Created(INITIAL, s, true);
  }

  /** The wait thread has found an event and hands it over. */
  lemma EventIsPublished(start: State, s: State, ev: nat) returns (t: State)
    requires Leads(start, s) && s.w.WPolling? && s.e.EWait? && s.monitor.Free? && s.engineEvent && s.currentEvent.None?
    ensures Leads(start, t)
    ensures t == s.(w := WSleep, engineEvent := false, waiting := false, currentEvent := Some(ev),
                    published := s.published + [ev], e := EPulsed)
  {
    t := s;
    Onward(start, t, Wait(WFind(ev)), false);
    t := Next(t, Wait(WFind(ev)));
    Onward(start, t, Wait(WPass), false);
    t := Next(t, Wait(WPass));
    Onward(start, t, Wait(WEnter), false);
    t := Next(t, Wait(WEnter));
    Onward(start, t, Wait(WClose), false);
    t := Next(t, Wait(WClose));
    Onward(start, t, Wait(WPublish), false);
    t := Next(t, Wait(WPublish));
    Onward(start, t, Wait(WClear), false);
    t := Next(t, Wait(WClear));
    Onward(start, t, Wait(WLeave), false);
    t := Next(t, Wait(WLeave));
  }

  /**
   An event found while nothing else is under way makes the round: it is published, processed once, the
   gate is open again, the engine thread sleeps, and the wait thread may wait for the next one.
   */
  lemma EventMakesTheRound(s: State, ev: nat) returns (t: State)
    requires s.w.WPolling? && s.waiting && s.e.EWait? && s.monitor.Free? && s.engineEvent
    requires s.currentEvent.None? && s.currentCommand.None?
    ensures Leads(s, t)
    ensures t == s.(w := WSleep, waiting := false, waitEvent := true,
                    published := s.published + [ev], processed := s.processed + [ev])
  {
    assert Run(s, []) == s;
    t := EventIsPublished(s, s, ev);
    Onward(s, t, Engine(EEnter), false);
    t := Next(t, Engine(EEnter));
    Onward(s, t, Engine(ETake), false);
    t := Next(t, Engine(ETake));
    Onward(s, t, Engine(EProcess), false);
    t := Next(t, Engine(EProcess));
    Onward(s, t, Engine(EOpen), false);
    t := Next(t, Engine(EOpen));
    Onward(s, t, Engine(EReqWait), false);
    t := Next(t, Engine(EReqWait));
  }
}
