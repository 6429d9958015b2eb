/**
 The session's pending breakpoint requests: how they are collected, how one round sorts them out,
 and how the engine carries out the ones that need a call into the debuggee.
 */
module PendingBreakpoints {
  import opened TargetEvents
  import opened Sequences

  datatype Action = Insert | Remove

  /** A direct handle is inserted by the debugger itself, a function handle by the runtime. */
  datatype Handle = Direct | Function

  datatype Resolution = NotFound | Found(handle: Handle) | Fails

  /** How breakpoints resolve, and which direct insertions and removals raise no exception. */
  datatype Environment = Environment(resolve: nat -> Resolution, works: (nat, Action) -> bool)

  datatype Request = Request(breakpoint: nat, action: Action)

  /** Adding a key to a dictionary that has it already. */
  datatype Fault = DuplicateKey

  datatype SessionEvent = Breakpoint | CatchPoint

  /** `Breakpoint.Resolve`: a breakpoint keeps the handle it once got, and with it `IsActivated`. */
  function Resolve(handles: map<nat, Handle>, env: Environment, b: nat): Resolution {
    if b in handles then Found(handles[b]) else env.resolve(b)
  }

  // ---------------------------------------------------- the fates of a round

  datatype Fate = NoOp | Applied | QueuedInsert | QueuedRemove | StillPending

  /** What becomes of one request in a round that starts with these handles. */
  function FateOf(handles: map<nat, Handle>, env: Environment, r: Request): Fate {
    if r.action.Insert? == (r.breakpoint in handles) then NoOp
    else
      match Resolve(handles, env, r.breakpoint)
      case Found(Direct) => if env.works(r.breakpoint, r.action) then Applied else StillPending
      case Found(Function) => if r.action.Insert? then QueuedInsert else QueuedRemove
      case _ => StillPending
  }

  /** The handles after a round: every request that is no no-op was resolved. */
  function HandlesAfter(handles: map<nat, Handle>, env: Environment, pending: map<nat, Action>): map<nat, Handle> {
    map b | b in handles.Keys + pending.Keys && (b in handles || Resolved(handles, env, pending, b)) ::
      if b in handles then handles[b] else env.resolve(b).handle
  }

  predicate Resolved(handles: map<nat, Handle>, env: Environment, pending: map<nat, Action>, b: nat) {
    b in pending && pending[b].Insert? && env.resolve(b).Found?
  }

  /** The requests of one fate, in the order of the table. */
  function Select(handles: map<nat, Handle>, env: Environment, requests: seq<Request>, fate: Fate)
    : seq<Request>
  {
    if requests == [] then []
    else
      var n := |requests| - 1;
      var q := requests[n];
      var rest := Select(handles, env, requests[..n], fate);
      if FateOf(handles, env, q) == fate then rest + [q] else rest
  }

  /** The queue handed to the engine: all insertions, then all removals. */
  function QueueOf(handles: map<nat, Handle>, env: Environment, requests: seq<Request>): seq<Request> {
    Select(handles, env, requests, QueuedInsert) + Select(handles, env, requests, QueuedRemove)
  }

  predicate DistinctKeys(requests: seq<Request>) {
    forall i, j :: 0 <= i < j < |requests| ==> requests[i].breakpoint != requests[j].breakpoint
  }

  /** `requests` is the table in some order of enumeration. */
  predicate Enumerates(requests: seq<Request>, pending: map<nat, Action>) {
    && DistinctKeys(requests)
    && (forall q :: q in requests ==> q.breakpoint in pending && pending[q.breakpoint] == q.action)
    && (forall b :: b in pending ==> Request(b, pending[b]) in requests)
  }

  predicate EnumeratesKeys(order: seq<nat>, events: map<nat, SessionEvent>) {
    && (forall i, j :: 0 <= i < j < |order| ==> order[i] != order[j])
    && (forall b :: b in order ==> b in events)
    && (forall b :: b in events ==> b in order)
  }

  /** The breakpoints of the requests of one fate. */
  function With(handles: map<nat, Handle>, env: Environment, requests: seq<Request>, fate: Fate): set<nat> {
    set q | q in requests && FateOf(handles, env, q) == fate :: q.breakpoint
  }

  /** The variables of the second loop. */
  datatype Round = Round(
    pending: map<nat, Action>, handles: map<nat, Handle>,
    applied: seq<Request>, inserts: seq<Request>, removals: seq<Request>)

  /** One turn of the second loop; an exception leaves the request where it is. */
  function Turn(r: Round, env: Environment, q: Request): Round {
    var found := Resolve(r.handles, env, q.breakpoint);
    if !found.Found? then r
    else
      var applied := found.handle.Direct? && env.works(q.breakpoint, q.action);
      Round(if found.handle.Direct? && !applied then r.pending else r.pending - {q.breakpoint},
            r.handles[q.breakpoint := found.handle],
            if applied then r.applied + [q] else r.applied,
            if found.handle.Function? && q.action.Insert? then r.inserts + [q] else r.inserts,
            if found.handle.Function? && q.action.Remove? then r.removals + [q] else r.removals)
  }

  function Turns(r: Round, env: Environment, requests: seq<Request>): Round {
    if requests == [] then r
    else
      var n := |requests| - 1;
      Turn(Turns(r, env, requests[..n]), env, requests[n])
  }

  class Session {
    var events: map<nat, SessionEvent>
    var pending: map<nat, Action>
    var handles: map<nat, Handle>
    var reachedMain: bool
    var catchPoints: map<nat, nat>
    /** The breakpoints whose `IsEnabled` was cleared. */
    var disabled: set<nat>
    /** What was done directly, in order. */
    ghost var applied: seq<Request>

    /** `AddEvent` for an exception catch point, which has a table of its own that is filled first. */
    method AddCatchPoint(uniqueId: nat, index: nat) returns (ok: bool)
      modifies this`events, this`catchPoints
      ensures ok <==> uniqueId !in old(catchPoints) && index !in old(events)
      ensures catchPoints == if uniqueId in old(catchPoints) then old(catchPoints)
                else old(catchPoints)[uniqueId := index]
      ensures events == if ok then old(events)[index := CatchPoint] else old(events)
    {
      if uniqueId in catchPoints {
        return false;
      }
      catchPoints := catchPoints[uniqueId := index];
      if index in events {
        return false;
      }
      events := events[index := CatchPoint];
      return true;
    }

    /** `AddEvent` for a breakpoint; it throws after the event was added when the breakpoint is still pending. */
    method AddEvent(index: nat) returns (ok: bool)
      modifies this`events, this`pending
      ensures ok <==> index !in old(events) && (!reachedMain || index !in old(pending))
      ensures events == if index in old(events) then old(events) else old(events)[index := Breakpoint]
      ensures pending == if ok && reachedMain then old(pending)[index := Insert] else old(pending)
    {
      if index in events {
        return false;
      }
      events := events[index := Breakpoint];
      if reachedMain {
        if index in pending {
          return false;
        }
        pending := pending[index := Insert];
      }
      return true;
    }

    /** `RemoveEvent` for an exception catch point. */
    method RemoveCatchPoint(uniqueId: nat, index: nat)
      modifies this`events, this`catchPoints
      ensures events == old(events) - {index} && catchPoints == old(catchPoints) - {uniqueId}
    {
      catchPoints := catchPoints - {uniqueId};
      events := events - {index};
    }

    /** `RemoveEvent` for a breakpoint: it is disabled at once and its removal becomes pending. */
    method RemoveEvent(index: nat)
      modifies this`events, this`pending, this`disabled
      ensures events == old(events) - {index} && disabled == old(disabled) + {index}
      ensures pending == if reachedMain then old(pending)[index := Remove] else old(pending) - {index}
    {
      disabled := disabled + {index};
      events := events - {index};
      pending := pending - {index};
      if reachedMain {
        pending := pending[index := Remove];
      }
    }

    /** `ActivateOrDeactivateEventAsync` for a breakpoint. */
    method ActivateOrDeactivateEventAsync(b: nat, activate: bool) returns (accepted: bool)
      modifies this`pending
      ensures accepted <==> activate != (b in handles)
      ensures pending == if accepted then old(pending)[b := if activate then Insert else Remove] else old(pending)
    {
      if activate == (b in handles) {
        return false;
      }
      pending := pending[b := if activate then Insert else Remove];
      return true;
    }

    /** The first part of `HasPendingBreakpoints` and `GetPendingBreakpoints`. */
    method ReachMain(order: seq<nat>) returns (ok: bool)
      requires EnumeratesKeys(order, events)
      modifies this`pending, this`reachedMain
      ensures ok <==> old(reachedMain) || forall b :: b in events && events[b].Breakpoint? ==> b !in old(pending)
      ensures ok ==> reachedMain
      ensures ok ==> pending == if old(reachedMain) then old(pending) else WithBreakpoints(old(pending), events)
    {
      if reachedMain {
        return true;
      }
      var k := 0;
      while k < |order|
        invariant k <= |order| && !reachedMain
        invariant forall b :: b in old(pending) || (b in order[..k] && events[b].Breakpoint?) <==> b in pending
        invariant forall b :: b in old(pending) ==> pending[b] == old(pending)[b]
        invariant forall b :: b in pending && b !in old(pending) ==> pending[b].Insert?
        invariant forall b :: b in order[..k] && events[b].Breakpoint? ==> b !in old(pending)
      {
        var b := order[k];
        assert b in order && b !in order[..k];
        if events[b].Breakpoint? {
          if b in pending {
            return false;
          }
          pending := pending[b := Insert];
        }
        k := k + 1;
      }
      assert order[..k] == order;
      assert pending == WithBreakpoints(old(pending), events);
      reachedMain := true;
      return true;
    }

    /** The first loop: requests that ask for what is already so are dropped; the module has no say. */
    method DropNoOps(requests: seq<Request>, env: Environment, userOnly: set<nat>, foreignModule: bool)
      modifies this`pending
      ensures pending == old(pending) - With(handles, env, requests, NoOp)
    {
      var k := 0;
      while k < |requests|
        invariant k <= |requests|
        invariant pending == old(pending) - With(handles, env, requests[..k], NoOp)
      {
        var q := requests[k];
        assert requests[..k + 1] == requests[..k] + [q];
        k := k + 1;
        if q.action.Insert? == (q.breakpoint in handles) {
          pending := pending - {q.breakpoint};
          continue;
        }
        if q.action.Insert? && q.breakpoint in userOnly && foreignModule {
          continue;
        }
      }
      assert requests[..k] == requests;
    }

    /** The second loop: every request is resolved and applied, queued or left for later. */
    method SortOut(requests: seq<Request>, env: Environment) returns (inserts: seq<Request>, removals: seq<Request>)
      modifies this`pending, this`handles, this`applied
      ensures Round(pending, handles, applied, inserts, removals) ==
              Turns(Round(old(pending), old(handles), old(applied), [], []), env, requests)
    {
      inserts, removals := [], [];
      var k := 0;
      while k < |requests|
        invariant k <= |requests|
        invariant Round(pending, handles, applied, inserts, removals) ==
                  Turns(Round(old(pending), old(handles), old(applied), [], []), env, requests[..k])
      {
        var q := requests[k];
        assert requests[..k + 1][..k] == requests[..k];
        k := k + 1;
        var found := Resolve(handles, env, q.breakpoint);
        if !found.Found? {
          continue;
        }
        handles := handles[q.breakpoint := found.handle];
        if found.handle.Direct? {
          if env.works(q.breakpoint, q.action) {
            applied := applied + [q];
            pending := pending - {q.breakpoint};
          }
          continue;
        }
        pending := pending - {q.breakpoint};
        if q.action.Insert? {
          inserts := inserts + [q];
        } else {
          removals := removals + [q];
        }
      }
      assert requests[..k] == requests;
    }

    /**
     The rest of `GetPendingBreakpoints`, once main was reached. The result is null exactly when every request
     was a no-op; otherwise it is the queue. What is left pending, what was applied, and which
     breakpoints have a handle afterwards follow from the fates.
     */
    method SortRequests(requests: seq<Request>, env: Environment, userOnly: set<nat>, foreignModule: bool)
      returns (queue: Option<seq<Request>>)
      requires Enumerates(requests, pending)
      modifies this`pending, this`handles, this`applied
      ensures queue.None? <==> forall q :: q in requests ==> FateOf(old(handles), env, q) == NoOp
      ensures queue.Some? ==> queue.value == QueueOf(old(handles), env, requests)
      ensures applied == old(applied) + Select(old(handles), env, requests, Applied)
      ensures pending == StillPendingOf(old(handles), env, old(pending))
      ensures handles == HandlesAfter(old(handles), env, old(pending))
    {
      DropNoOps(requests, env, userOnly, foreignModule);
      RoundMeaning(handles, env, old(pending), requests, applied);
      NothingLeft(handles, env, old(pending), requests, applied);
      if |pending| == 0 {
        return None;
      }
      var inserts, removals := SortOut(Serious(handles, requests), env);
      return Some(inserts + removals);
    }

    /**
     `GetPendingBreakpoints`. It fails exactly when main is reached by this call while one of the
     session's breakpoints is already pending; otherwise every request of the table, which then
     holds all of the session's breakpoints, meets its fate.
     */
    method GetPendingBreakpoints(
      order: seq<nat>, requests: seq<Request>, env: Environment, userOnly: set<nat>, foreignModule: bool)
      returns (result: Outcome<Option<seq<Request>>, Fault>)
      requires EnumeratesKeys(order, events)
      requires Enumerates(requests, if reachedMain then pending else WithBreakpoints(pending, events))
      modifies this`pending, this`reachedMain, this`handles, this`applied
      ensures result.Ok? <==> old(reachedMain) || forall b :: b in events && events[b].Breakpoint? ==>
                b !in old(pending)
      ensures result.Throws? ==> handles == old(handles) && applied == old(applied)
      ensures result.Ok? ==>
                && reachedMain
                && result.value == (if forall q :: q in requests ==> FateOf(old(handles), env, q) == NoOp then None
                                    else Some(QueueOf(old(handles), env, requests)))
                && applied == old(applied) + Select(old(handles), env, requests, Applied)
                && var table := if old(reachedMain) then old(pending) else WithBreakpoints(old(pending), events);
                   pending == StillPendingOf(old(handles), env, table)
                     && handles == HandlesAfter(old(handles), env, table)
    {
      var ok := ReachMain(order);
      if !ok {
        return Throws(DuplicateKey);
      }
      var queue := SortRequests(requests, env, userOnly, foreignModule);
      return Ok(queue);
    }

    /** `HasPendingBreakpoints`. */
    method HasPendingBreakpoints(order: seq<nat>) returns (result: Outcome<bool, Fault>)
      requires EnumeratesKeys(order, events)
      modifies this`pending, this`reachedMain
      ensures result.Ok? <==> old(reachedMain) || forall b :: b in events && events[b].Breakpoint? ==>
                b !in old(pending)
      ensures result.Ok? ==> reachedMain && result.value == (pending != map[])
                             && pending == if old(reachedMain) then old(pending)
                               else WithBreakpoints(old(pending), events)
    {
      var ok := ReachMain(order);
      if !ok {
        return Throws(DuplicateKey);
      }
      return Ok(|pending| > 0);
    }
  }

  /** The requests the first loop leaves, in their order. */
  function Serious(handles: map<nat, Handle>, requests: seq<Request>): seq<Request> {
    if requests == [] then []
    else
      var n := |requests| - 1;
      var rest := Serious(handles, requests[..n]);
      if requests[n].action.Insert? == (requests[n].breakpoint in handles) then rest else rest + [requests[n]]
  }

  /** The requests a round leaves for later. */
  function StillPendingOf(handles: map<nat, Handle>, env: Environment, pending: map<nat, Action>): map<nat, Action> {
    map b | b in pending && FateOf(handles, env, Request(b, pending[b])) == StillPending :: pending[b]
  }

  // ------------------------------------------------- the loops and the fates

  lemma {:induction false} SeriousMembers(handles: map<nat, Handle>, env: Environment, requests: seq<Request>)
    requires DistinctKeys(requests)
    ensures forall q :: q in Serious(handles, requests) <==> q in requests && FateOf(handles, env, q) != NoOp
    ensures DistinctKeys(Serious(handles, requests))
  {
    if requests != [] {
      var n := |requests| - 1;
      SeriousMembers(handles, env, requests[..n]);
      assert requests == requests[..n] + [requests[n]];
      assert forall q :: q in requests[..n] ==> q.breakpoint != requests[n].breakpoint;
    }
  }

  lemma {:induction false} SelectSerious(handles: map<nat, Handle>, env: Environment, requests: seq<Request>,
      fate: Fate)
    requires fate != NoOp
    ensures Select(handles, env, Serious(handles, requests), fate) == Select(handles, env, requests, fate)
  {
    if requests != [] {
      var n := |requests| - 1;
      var q := requests[n];
      var rest := Serious(handles, requests[..n]);
      SelectSerious(handles, env, requests[..n], fate);
      if FateOf(handles, env, q) != NoOp {
        assert (rest + [q])[..|rest|] == rest;
      }
    }
  }

  ghost predicate HandlesSoFar(handles: map<nat, Handle>, env: Environment, done: seq<Request>, now: map<nat, Handle>) {
    && (forall b :: b in now <==> b in handles || (Request(b, Insert) in done && env.resolve(b).Found?))
    && (forall b :: b in now ==> now[b] == if b in handles then handles[b] else env.resolve(b).handle)
  }

  /** A turn in terms of the fate of its request. */
  lemma TurnByFate(r: Round, env: Environment, q: Request)
    requires FateOf(r.handles, env, q) != NoOp
    ensures var r' := Turn(r, env, q);
            var fate := FateOf(r.handles, env, q);
            && r'.applied == (if fate.Applied? then r.applied + [q] else r.applied)
            && r'.inserts == (if fate.QueuedInsert? then r.inserts + [q] else r.inserts)
            && r'.removals == (if fate.QueuedRemove? then r.removals + [q] else r.removals)
            && r'.pending == (if fate.StillPending? then r.pending else r.pending - {q.breakpoint})
  {
  }

  lemma HandlesOneMore(r: Round, env: Environment, done: seq<Request>, q: Request, now: Round)
    requires HandlesSoFar(r.handles, env, done, now.handles)
    requires forall p :: p in done ==> p.breakpoint != q.breakpoint
    requires FateOf(r.handles, env, q) != NoOp
    ensures HandlesSoFar(r.handles, env, done + [q], Turn(now, env, q).handles)
    ensures FateOf(now.handles, env, q) == FateOf(r.handles, env, q)
  {
  }

  /** A turn does to its request what its fate says, though other breakpoints have got handles meanwhile. */
  lemma {:induction false} TurnsMeaning(r: Round, env: Environment, requests: seq<Request>)
    requires DistinctKeys(requests)
    requires forall q :: q in requests ==> FateOf(r.handles, env, q) != NoOp
    ensures var r' := Turns(r, env, requests);
            && HandlesSoFar(r.handles, env, requests, r'.handles)
            && r'.applied == r.applied + Select(r.handles, env, requests, Applied)
            && r'.inserts == r.inserts + Select(r.handles, env, requests, QueuedInsert)
            && r'.removals == r.removals + Select(r.handles, env, requests, QueuedRemove)
  {
    if requests != [] {
      var n := |requests| - 1;
      var q := requests[n];
      assert requests == requests[..n] + [q];
      TurnsMeaning(r, env, requests[..n]);
      HandlesOneMore(r, env, requests[..n], q, Turns(r, env, requests[..n]));
      TurnByFate(Turns(r, env, requests[..n]), env, q);
    }
  }

  /** The breakpoints of the requests that are applied or queued. */
  function Settled(handles: map<nat, Handle>, env: Environment, requests: seq<Request>): set<nat> {
    set q | q in requests && FateOf(handles, env, q) != StillPending :: q.breakpoint
  }

  lemma SettledOneMore(handles: map<nat, Handle>, env: Environment, done: seq<Request>, q: Request)
    ensures Settled(handles, env, done + [q]) ==
            Settled(handles, env, done) + if FateOf(handles, env, q).StillPending? then {} else {q.breakpoint}
  {
  }

  /** When its turn comes, a request has the fate it had at the start. */
  lemma FateAtItsTurn(r: Round, env: Environment, done: seq<Request>, q: Request)
    requires DistinctKeys(done + [q])
    requires forall p :: p in done + [q] ==> FateOf(r.handles, env, p) != NoOp
    ensures FateOf(Turns(r, env, done).handles, env, q) == FateOf(r.handles, env, q)
  {
    assert forall i :: 0 <= i < |done| ==> (done + [q])[i] == done[i];
    assert (done + [q])[|done|] == q;
    TurnsMeaning(r, env, done);
    HandlesOneMore(r, env, done, q, Turns(r, env, done));
  }

  lemma {:induction false} TurnsPending(r: Round, env: Environment, requests: seq<Request>)
    requires DistinctKeys(requests)
    requires forall q :: q in requests ==> FateOf(r.handles, env, q) != NoOp
    ensures Turns(r, env, requests).pending == r.pending - Settled(r.handles, env, requests)
  {
    if requests != [] {
      var n := |requests| - 1;
      assert requests == requests[..n] + [requests[n]];
      TurnsPending(r, env, requests[..n]);
      FateAtItsTurn(r, env, requests[..n], requests[n]);
      SettledOneMore(r.handles, env, requests[..n], requests[n]);
      TurnByFate(Turns(r, env, requests[..n]), env, requests[n]);
    }
  }

  /** The two loops together, in terms of the fates alone. */
  lemma RoundMeaning(
    handles: map<nat, Handle>, env: Environment, pending: map<nat, Action>, requests: seq<Request>,
    applied: seq<Request>)
    requires Enumerates(requests, pending)
    ensures Turns(Round(pending - With(handles, env, requests, NoOp), handles, applied, [], []), env,
              Serious(handles, requests)) ==
            Round(StillPendingOf(handles, env, pending), HandlesAfter(handles, env, pending),
                  applied + Select(handles, env, requests, Applied),
                  Select(handles, env, requests, QueuedInsert), Select(handles, env, requests, QueuedRemove))
  {
    var left := Serious(handles, requests);
    var start := Round(pending - With(handles, env, requests, NoOp), handles, applied, [], []);
    SeriousMembers(handles, env, requests);
    TurnsMeaning(start, env, left);
    SelectSerious(handles, env, requests, Applied);
    SelectSerious(handles, env, requests, QueuedInsert);
    SelectSerious(handles, env, requests, QueuedRemove);
    PendingMeaning(handles, env, pending, requests, start);
    HandlesMeaning(handles, env, pending, requests, Turns(start, env, left).handles);
  }

  lemma PendingMeaning(
    handles: map<nat, Handle>, env: Environment, pending: map<nat, Action>, requests: seq<Request>, start: Round)
    requires Enumerates(requests, pending)
    requires start.handles == handles && start.pending == pending - With(handles, env, requests, NoOp)
    ensures Turns(start, env, Serious(handles, requests)).pending == StillPendingOf(handles, env, pending)
  {
    SeriousMembers(handles, env, requests);
    TurnsPending(start, env, Serious(handles, requests));
    forall b | b in pending
      ensures b in Turns(start, env, Serious(handles, requests)).pending <==> b in StillPendingOf(handles, env, pending)
    {
      var q := Request(b, pending[b]);
      assert q in requests;
      assert forall p :: p in requests && p.breakpoint == b ==> p == q;
    }
  }

  lemma HandlesMeaning(
    handles: map<nat, Handle>, env: Environment, pending: map<nat, Action>, requests: seq<Request>,
    now: map<nat, Handle>)
    requires Enumerates(requests, pending)
    requires HandlesSoFar(handles, env, Serious(handles, requests), now)
    ensures now == HandlesAfter(handles, env, pending)
  {
    SeriousMembers(handles, env, requests);
  }

  lemma NothingLeft(
    handles: map<nat, Handle>, env: Environment, pending: map<nat, Action>, requests: seq<Request>,
    applied: seq<Request>)
    requires Enumerates(requests, pending)
    ensures pending - With(handles, env, requests, NoOp) == map[] <==>
            forall q :: q in requests ==> FateOf(handles, env, q) == NoOp
    ensures pending - With(handles, env, requests, NoOp) == map[] ==>
              && StillPendingOf(handles, env, pending) == map[] && HandlesAfter(handles, env, pending) == handles
              && Select(handles, env, requests, Applied) == []
  {
    var left := pending - With(handles, env, requests, NoOp);
    if left == map[] {
      forall q | q in requests
        ensures FateOf(handles, env, q) == NoOp
      {
        assert q.breakpoint !in left && q.breakpoint in With(handles, env, requests, NoOp);
        var p :| p in requests && FateOf(handles, env, p) == NoOp && p.breakpoint == q.breakpoint;
        assert p.action == pending[q.breakpoint] == q.action;
      }
      NoOpsSelectNothing(handles, env, requests, Applied);
      NoOpsChangeNothing(handles, env, pending, requests);
    } else {
      var b :| b in left;
      assert Request(b, pending[b]) in requests && FateOf(handles, env, Request(b, pending[b])) != NoOp;
    }
  }

  lemma {:induction false} NoOpsSelectNothing(handles: map<nat, Handle>, env: Environment, requests: seq<Request>,
      fate: Fate)
    requires fate != NoOp && forall q :: q in requests ==> FateOf(handles, env, q) == NoOp
    ensures Select(handles, env, requests, fate) == []
  {
    if requests != [] {
      NoOpsSelectNothing(handles, env, requests[..|requests| - 1], fate);
    }
  }

  lemma NoOpsChangeNothing(handles: map<nat, Handle>, env: Environment, pending: map<nat, Action>,
      requests: seq<Request>)
    requires Enumerates(requests, pending) && forall q :: q in requests ==> FateOf(handles, env, q) == NoOp
    ensures StillPendingOf(handles, env, pending) == map[] && HandlesAfter(handles, env, pending) == handles
  {
    assert forall b :: b in pending ==> FateOf(handles, env, Request(b, pending[b])) == NoOp;
  }

  /** The table when main is reached: every breakpoint of the session asks to be inserted. */
  function WithBreakpoints(pending: map<nat, Action>, events: map<nat, SessionEvent>): map<nat, Action> {
    pending + map b | b in events && events[b].Breakpoint? :: Insert
  }

  // ---------------------------------------------------------- main results

  lemma {:induction false} SelectCount(
    handles: map<nat, Handle>, env: Environment, requests: seq<Request>, fate: Fate, q: Request)
    requires DistinctKeys(requests)
    ensures multiset(Select(handles, env, requests, fate))[q] ==
            if q in requests && FateOf(handles, env, q) == fate then 1 else 0
  {
    if requests != [] {
      var n := |requests| - 1;
      SelectCount(handles, env, requests[..n], fate, q);
      assert requests == requests[..n] + [requests[n]];
    }
  }

  lemma {:induction false} SelectSound(handles: map<nat, Handle>, env: Environment, requests: seq<Request>, fate: Fate)
    ensures forall q :: q in Select(handles, env, requests, fate) ==> q in requests && FateOf(handles, env, q) == fate
  {
    if requests != [] {
      SelectSound(handles, env, requests[..|requests| - 1], fate);
    }
  }

  /**
   The partition: a request is applied once, queued once, still pending, or dropped as a no-op, and
   never two of these; nothing else is applied, queued or pending.
   */
  lemma EachRequestHasOneFate(
    handles: map<nat, Handle>, env: Environment, pending: map<nat, Action>, requests: seq<Request>, q: Request)
    requires Enumerates(requests, pending)
    ensures var applied := multiset(Select(handles, env, requests, Applied))[q];
            var queued := multiset(QueueOf(handles, env, requests))[q];
            var later := if q.breakpoint in StillPendingOf(handles, env, pending)
                            && StillPendingOf(handles, env, pending)[q.breakpoint] == q.action then 1 else 0;
            var dropped := if q in requests && q.action.Insert? == (q.breakpoint in handles) then 1 else 0;
            applied + queued + later + dropped == if q in requests then 1 else 0
  {
    SelectCount(handles, env, requests, Applied, q);
    SelectCount(handles, env, requests, QueuedInsert, q);
    SelectCount(handles, env, requests, QueuedRemove, q);
  }

  /** No removal precedes an insertion in the queue, and only functions' breakpoints are queued. */
  lemma InsertionsComeFirst(handles: map<nat, Handle>, env: Environment, requests: seq<Request>)
    ensures var queue := QueueOf(handles, env, requests);
            && (forall i, j :: 0 <= i < j < |queue| && queue[j].action.Insert? ==> queue[i].action.Insert?)
            && (forall q :: q in queue ==> Resolve(handles, env, q.breakpoint) == Found(Function))
  {
    var inserts := Select(handles, env, requests, QueuedInsert);
    var removals := Select(handles, env, requests, QueuedRemove);
    SelectSound(handles, env, requests, QueuedInsert);
    SelectSound(handles, env, requests, QueuedRemove);
    assert forall q :: q in inserts ==> FateOf(handles, env, q) == QueuedInsert && q.action.Insert?;
    assert forall q :: q in removals ==> FateOf(handles, env, q) == QueuedRemove && q.action.Remove?;
    var queue := QueueOf(handles, env, requests);
    assert forall i :: 0 <= i < |queue| ==> if i < |inserts| then queue[i] in inserts else queue[i] in removals;
  }

  /** The handle a request works with: the one the breakpoint has, or the one it resolves to now. */
  function HandleFor(handles: map<nat, Handle>, env: Environment, b: nat): Option<Handle> {
    if b in handles then Some(handles[b])
    else
      match env.resolve(b)
      case Found(handle) => Some(handle)
      case _ => None
  }

  /** The request asks for a change: to insert what has no handle, or to remove what has one. */
  predicate AsksForChange(handles: map<nat, Handle>, q: Request) {
    match q.action
    case Insert => q.breakpoint !in handles
    case Remove => q.breakpoint in handles
  }

  /**
   What a round does with a request, by the breakpoint's handle and the environment: one that asks for
   no change is dropped; a direct handle is inserted or removed at once if that works; a function
   handle is queued; and a breakpoint without handle, or whose action fails, stays pending.
   */
  lemma WhatARoundDoes(
    handles: map<nat, Handle>, env: Environment, pending: map<nat, Action>, requests: seq<Request>, q: Request)
    requires Enumerates(requests, pending) && q in requests
    ensures var handle := HandleFor(handles, env, q.breakpoint);
            var changes := AsksForChange(handles, q);
            && (q in Select(handles, env, requests, Applied) <==>
                changes && handle == Some(Direct) && env.works(q.breakpoint, q.action))
            && (q in QueueOf(handles, env, requests) <==> changes && handle == Some(Function))
            && (q.breakpoint in StillPendingOf(handles, env, pending) <==>
                changes && (handle.None? || (handle == Some(Direct) && !env.works(q.breakpoint, q.action))))
            && (q.breakpoint in HandlesAfter(handles, env, pending) <==>
                q.breakpoint in handles || (changes && handle.Some?))
  {
    SelectCount(handles, env, requests, Applied, q);
    SelectCount(handles, env, requests, QueuedInsert, q);
    SelectCount(handles, env, requests, QueuedRemove, q);
  }

  /** When main is reached every breakpoint asks to be inserted, and nothing else changes. */
  lemma MainMakesBreakpointsPending(pending: map<nat, Action>, events: map<nat, SessionEvent>, b: nat)
    ensures var table := WithBreakpoints(pending, events);
            && (b in events && events[b] == Breakpoint ==> b in table && table[b] == Insert)
            && (!(b in events && events[b] == Breakpoint) ==>
                  (b in table <==> b in pending) && (b in pending ==> table[b] == pending[b]))
  {
  }

  /**
   A request left pending is looked at again in the next round, whatever that round's environment,
   unless it is an insertion whose breakpoint got a handle: that one, whose insertion raised an
   exception, is then dropped as if it had been carried out.
   */
  lemma RetriedUnlessResolved(
    handles: map<nat, Handle>, env: Environment, pending: map<nat, Action>, b: nat, later: Environment)
    requires b in StillPendingOf(handles, env, pending)
    ensures FateOf(HandlesAfter(handles, env, pending), later, Request(b, pending[b])) == NoOp <==>
            pending[b].Insert? && env.resolve(b) == Found(Direct)
  {
  }

  /** A round that removes a breakpoint leaves it its handle, so no later round inserts it again. */
  lemma RemovedBreakpointsStayActivated(
    handles: map<nat, Handle>, env: Environment, pending: map<nat, Action>, b: nat, later: Environment)
    requires b in pending && FateOf(handles, env, Request(b, pending[b])) in {Applied, QueuedInsert, QueuedRemove}
    ensures b in HandlesAfter(handles, env, pending)
    ensures FateOf(HandlesAfter(handles, env, pending), later, Request(b, Insert)) == NoOp
  {
  }

  /** The handles after any number of rounds, each with its own environment and table. */
  function HandlesAfterAll(handles: map<nat, Handle>, rounds: seq<(Environment, map<nat, Action>)>): map<nat, Handle>
    decreases |rounds|
  {
    if rounds == [] then handles
    else HandlesAfterAll(HandlesAfter(handles, rounds[0].0, rounds[0].1), rounds[1..])
  }

  /**
   Over any number of rounds: a breakpoint that has got a handle keeps that handle, so every later
   request to insert it is dropped, even after a round that removed it.
   */
  lemma {:induction false} ActivatedForEver(
    handles: map<nat, Handle>, rounds: seq<(Environment, map<nat, Action>)>, b: nat, later: Environment)
    requires b in handles
    ensures var after := HandlesAfterAll(handles, rounds);
            b in after && after[b] == handles[b] && FateOf(after, later, Request(b, Insert)) == NoOp
    decreases |rounds|
  {
    if rounds != [] {
      ActivatedForEver(HandlesAfter(handles, rounds[0].0, rounds[0].1), rounds[1..], b, later);
    }
  }

  // ---------------------------------------------------------------- the drain

  datatype DrainResult = Running | ResumeOperation | AskParent

  /** `OperationActivateBreakpoints`; the queued calls are child operations that ask their parent when done. */
  class ActivateBreakpoints {
    var queue: seq<Request>
    var completed: bool
    /** The calls into the debuggee, in order. */
    ghost var performed: seq<Request>

    constructor (pending: seq<Request>)
      ensures queue == pending && !completed && performed == []
    {
      queue, completed, performed := pending, false, [];
    }

    /** `do_execute`: start the next call, if there is one. */
    method DoExecute() returns (started: bool)
      modifies this
      ensures started <==> old(queue) != []
      ensures started ==>
                performed == old(performed) + old(queue)[..1] && queue == old(queue)[1..] && completed == old(completed)
      ensures !started ==> completed && queue == [] && performed == old(performed)
    {
      if queue == [] {
        completed := true;
        return false;
      }
      performed := performed + [queue[0]];
      queue := queue[1..];
      return true;
    }

    /** `DoProcessEvent`: the answer to the completion of a call. */
    method DoProcessEvent() returns (result: DrainResult)
      modifies this
      ensures performed + queue == old(performed + queue) && |performed| >= old(|performed|)
      ensures old(completed) ==> result.AskParent? && completed && queue == old(queue)
      ensures !old(completed) && old(queue) != [] ==> result.Running? && !completed && |queue| == |old(queue)| - 1
      ensures !old(completed) && old(queue) == [] ==> result.ResumeOperation? && completed && queue == []
    {
      if !completed {
        var started := DoExecute();
        if started {
          return Running;
        }
        return ResumeOperation;
      }
      return AskParent;
    }

    /**
     The whole drain, when every call completes normally: execution, then one event per call. Every
     queued request is performed once, in order, and the operation resumes its parent's work once,
     with the last event; a further event would be passed on.
     */
    method Drain() returns (resumes: nat, events: nat)
      requires !completed && performed == []
      modifies this
      ensures performed == old(queue) && queue == [] && completed
      ensures old(queue) != [] ==> resumes == 1 && events == |old(queue)|
      ensures old(queue) == [] ==> resumes == 0 && events == 0
    {
      resumes, events := 0, 0;
      var started := DoExecute();
      if !started {
        return;
      }
      while !completed
        invariant performed + queue == old(queue)
        invariant !completed ==> resumes == 0 && events + 1 == |performed|
        invariant completed ==> resumes == 1 && events == |old(queue)| && queue == []
        decreases |queue|, !completed
      {
        var result := DoProcessEvent();
        events := events + 1;
        if result.ResumeOperation? {
          resumes := resumes + 1;
        }
      }
    }
  }

  /** `ActivatePendingBreakpoints` of the engine: an operation is pushed exactly when something is queued. */
  method ActivatePendingBreakpoints(
    session: Session, order: seq<nat>, requests: seq<Request>, env: Environment, userOnly: set<nat>,
    foreignModule: bool)
    returns (operation: Outcome<Option<ActivateBreakpoints>, Fault>)
    requires EnumeratesKeys(order, session.events)
    requires Enumerates(requests, if session.reachedMain then session.pending
               else WithBreakpoints(session.pending, session.events))
    modifies session
    ensures operation.Ok? <==>
            old(session.reachedMain)
            || forall b :: b in old(session.events) && old(session.events)[b].Breakpoint? ==> b !in old(session.pending)
    ensures session.events == old(session.events) && session.catchPoints == old(session.catchPoints)
            && session.disabled == old(session.disabled)
    ensures operation.Throws? ==> session.handles == old(session.handles) && session.applied == old(session.applied)
    ensures operation.Ok? ==>
              && session.reachedMain
              && session.applied == old(session.applied) + Select(old(session.handles), env, requests, Applied)
              && var table := if old(session.reachedMain) then old(session.pending)
                              else WithBreakpoints(old(session.pending), session.events);
                 && session.pending == StillPendingOf(old(session.handles), env, table)
                 && session.handles == HandlesAfter(old(session.handles), env, table)
    ensures operation.Ok? && operation.value.None? ==> QueueOf(old(session.handles), env, requests) == []
    ensures operation.Ok? && operation.value.Some? ==>
              && fresh(operation.value.value) && !operation.value.value.completed
                && operation.value.value.performed == []
              && operation.value.value.queue == QueueOf(old(session.handles), env, requests) != []
  {
    var result := session.GetPendingBreakpoints(order, requests, env, userOnly, foreignModule);
    if result.Throws? {
      return Throws(result.fault);
    }
    if result.value.None? || |result.value.value| == 0 {
      if result.value.None? {
        NoOpsSelectNothing(old(session.handles), env, requests, QueuedInsert);
        NoOpsSelectNothing(old(session.handles), env, requests, QueuedRemove);
      }
      return Ok(None);
    }
    var pushed := new ActivateBreakpoints(result.value.value);
    return Ok(Some(pushed));
  }
}
