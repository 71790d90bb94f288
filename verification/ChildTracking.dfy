/**
 Who owns a child session of the load driver: the token of a create request not
 yet answered, or the session id of a child still running. Each call of runChild
 is an activation, numbered in call order.
 */
module ChildTracking {
  import opened Common

  type Token = string
  type SessionId = string

  datatype Phase =
    | Creating                       // createSession not resolved
    | Running(sid: SessionId)        // inside the try block
    | Deleting(sid: SessionId)       // inside the finally block, deleteSession not resolved
    | Finished

  datatype Child = Child(token: Token, phase: Phase)

  datatype Kind = ChildCreated | ChildDeleted | ChildFailed | ChildTimeout | OrphanSwept | Anomaly

  datatype LaneEvent = LaneEvent(kind: Kind, sid: Option<SessionId>)

  datatype DeleteOutcome = Deleted | AlreadyGone | Transient

  datatype State = State(
    children: seq<Child>,
    pendingCreates: set<Token>,
    inFlight: set<SessionId>,
    swept: set<SessionId>,
    sweeping: set<SessionId>,        // candidates a sweep has still to delete
    log: seq<LaneEvent>,
    gone: set<SessionId>)            // sessions the server confirmed deleted or not found

  const INIT := State([], {}, {}, {}, {}, [], {})

  datatype Step =
    | Register(token: Token)
    | CreateOk(child: nat, sid: SessionId)
    | CreateFail(child: nat)
    | Finish(child: nat, failed: bool)
    | DeleteDone(child: nat, ok: bool)
    | Deadline(child: nat)
    | SweepStart
    | SweepDelete(sid: SessionId, outcome: DeleteOutcome)

  predicate Logged(log: seq<LaneEvent>, kind: Kind, sid: SessionId) {
    LaneEvent(kind, Some(sid)) in log
  }

  /** The ids with a child_created event, in the order of the first. */
  function CreatedOrder(log: seq<LaneEvent>): (ids: seq<SessionId>)
    decreases |log|
  {
    if log == [] then []
    else
      var before := CreatedOrder(log[..|log| - 1]);
      var e := log[|log| - 1];
      if e.kind == ChildCreated && e.sid.Some? && e.sid.value != "" && e.sid.value !in before
      then before + [e.sid.value] else before
  }

  function NotDeleted(ids: seq<SessionId>, log: seq<LaneEvent>): (r: seq<SessionId>)
    ensures forall id :: id in r <==> id in ids && !Logged(log, ChildDeleted, id)
    decreases |ids|
  {
    if ids == [] then []
    else
      var before := NotDeleted(ids[..|ids| - 1], log);
      if Logged(log, ChildDeleted, ids[|ids| - 1]) then before else before + [ids[|ids| - 1]]
  }

  /** computeOpenSessionIds: created and not confirmed deleted since the log began. */
  function OpenIds(log: seq<LaneEvent>): seq<SessionId> {
    NotDeleted(CreatedOrder(log), log)
  }

  function ToSet(ids: seq<SessionId>): set<SessionId> {
    set id <- ids
  }

  function FailureKind(sid: SessionId, swept: set<SessionId>): Kind {
    if sid in swept then OrphanSwept else ChildFailed
  }

  /** A resolution, timer or delete happens only to a child, or candidate, that waits for it. */
  predicate Possible(st: State, step: Step) {
    match step
    case Register(_) => true
    case CreateOk(i, _) => i < |st.children| && st.children[i].phase == Creating
    case CreateFail(i) => i < |st.children| && st.children[i].phase == Creating
    case Finish(i, _) => i < |st.children| && st.children[i].phase.Running?
    case DeleteDone(i, _) => i < |st.children| && st.children[i].phase.Deleting?
    case Deadline(i) => i < |st.children| && st.children[i].phase != Finished
    case SweepStart => true
    case SweepDelete(sid, _) => sid in st.sweeping
  }

  function Put(st: State, i: nat, phase: Phase): seq<Child>
    requires i < |st.children|
  {
    st.children[i := st.children[i].(phase := phase)]
  }

  function AfterCreateOk(st: State, i: nat, sid: SessionId): State
    requires i < |st.children|
  {
    st.(children := Put(st, i, Running(sid)), pendingCreates := st.pendingCreates - {st.children[i].token},
        inFlight := st.inFlight + {sid}, log := st.log + [LaneEvent(ChildCreated, Some(sid))])
  }

  /** Where the finally block leaves a child until its delete is done. */
  function Ending(sid: SessionId): Phase {
    if sid == "" then Finished else Deleting(sid)
  }

  function AfterFinish(st: State, i: nat, failed: bool): State
    requires i < |st.children| && st.children[i].phase.Running?
  {
    var sid := st.children[i].phase.sid;
    st.(children := Put(st, i, Ending(sid)),
        pendingCreates := st.pendingCreates - {st.children[i].token},
        inFlight := if sid == "" then st.inFlight else st.inFlight - {sid},
        log := if failed then st.log + [LaneEvent(FailureKind(sid, st.swept), Some(sid))] else st.log)
  }

  function AfterDelete(st: State, i: nat, ok: bool): State
    requires i < |st.children| && st.children[i].phase.Deleting?
  {
    var sid := st.children[i].phase.sid;
    st.(children := Put(st, i, Finished),
        gone := if ok then st.gone + {sid} else st.gone,
        log := if ok then st.log + [LaneEvent(ChildDeleted, Some(sid))] else st.log)
  }

  function SweepLog(sid: SessionId, outcome: DeleteOutcome): seq<LaneEvent> {
    match outcome
    case Deleted => [LaneEvent(OrphanSwept, Some(sid)), LaneEvent(ChildDeleted, Some(sid))]
    case AlreadyGone => [LaneEvent(ChildDeleted, Some(sid))]
    case Transient => [LaneEvent(Anomaly, Some(sid))]
  }

  function AfterSweepDelete(st: State, sid: SessionId, outcome: DeleteOutcome): State {
    st.(sweeping := st.sweeping - {sid},
        swept := if outcome == Deleted then st.swept + {sid} else st.swept,
        gone := if outcome == Transient then st.gone else st.gone + {sid},
        log := st.log + SweepLog(sid, outcome))
  }

  function Apply(st: State, step: Step): State {
    if !Possible(st, step) then st
    else
      match step
      case Register(token) =>
        st.(children := st.children + [Child(token, Creating)], pendingCreates := st.pendingCreates + {token})
      case CreateOk(i, sid) => AfterCreateOk(st, i, sid)
      case CreateFail(i) =>
        st.(children := Put(st, i, Finished), pendingCreates := st.pendingCreates - {st.children[i].token},
            log := st.log + [LaneEvent(ChildFailed, None)])
      case Finish(i, failed) => AfterFinish(st, i, failed)
      case DeleteDone(i, ok) => AfterDelete(st, i, ok)
      case Deadline(i) => st.(log := st.log + [LaneEvent(ChildTimeout, None)])
      case SweepStart => st.(sweeping := st.sweeping + (ToSet(OpenIds(st.log)) - st.inFlight))
      case SweepDelete(sid, outcome) => AfterSweepDelete(st, sid, outcome)
  }

  function Run(trace: seq<Step>): State
    decreases |trace|
  {
    if trace == [] then INIT else Apply(Run(trace[..|trace| - 1]), trace[|trace| - 1])
  }

  /** No token is drawn twice and the server names no two sessions alike. */
  predicate FreshStep(st: State, step: Step) {
    (step.Register? ==> forall c <- st.children :: c.token != step.token)
    && (step.CreateOk? ==> !Logged(st.log, ChildCreated, step.sid))
  }

  predicate FreshRun(trace: seq<Step>)
    decreases |trace|
  {
    trace == [] || (FreshRun(trace[..|trace| - 1]) && FreshStep(Run(trace[..|trace| - 1]), trace[|trace| - 1]))
  }

  // ---------------------------------------------------------------------
  // The program

  function NamedIn(log: seq<LaneEvent>, kind: Kind): set<SessionId> {
    set e <- log | e.kind == kind && e.sid.Some? && e.sid.value != "" :: e.sid.value
  }

  lemma OneMoreEvent(log: seq<LaneEvent>, e: LaneEvent)
    ensures CreatedOrder(log + [e])
            == if e.kind == ChildCreated && e.sid.Some? && e.sid.value != "" && e.sid.value !in CreatedOrder(log)
               then CreatedOrder(log) + [e.sid.value] else CreatedOrder(log)
    ensures NamedIn(log + [e], ChildDeleted)
            == NamedIn(log, ChildDeleted)
               + (if e.kind == ChildDeleted && e.sid.Some? && e.sid.value != "" then {e.sid.value} else {})
  {
    assert (log + [e])[..|log|] == log;
  }

  lemma NamedIsLogged(log: seq<LaneEvent>, kind: Kind, id: SessionId)
    ensures id in NamedIn(log, kind) <==> id != "" && Logged(log, kind, id)
  {
  }

  /** computeOpenSessionIds */
  method ComputeOpenSessionIds(events: seq<LaneEvent>) returns (open: seq<SessionId>)
    ensures open == OpenIds(events)
  {
    hide CreatedOrder, NamedIn, Logged;
    var createdOrder: seq<SessionId>, created: set<SessionId>, deleted: set<SessionId> := [], {}, {};
    EmptyLog();
    for i := 0 to |events|
      invariant createdOrder == CreatedOrder(events[..i]) && created == ToSet(createdOrder)
      invariant deleted == NamedIn(events[..i], ChildDeleted)
    {
      var e := events[i];
      OneMoreEvent(events[..i], e);
      assert events[..i + 1] == events[..i] + [e];
      if e.sid.Some? && e.sid.value != "" {
        if e.kind == ChildCreated {
          if e.sid.value !in created {
            createdOrder := createdOrder + [e.sid.value];
          }
          created := created + {e.sid.value};
        } else if e.kind == ChildDeleted {
          deleted := deleted + {e.sid.value};
        }
      }
    }
    assert events[..|events|] == events;
    NoEmptyIdCreated(events);
    open := [];
    for i := 0 to |createdOrder|
      invariant open == NotDeleted(createdOrder[..i], events)
    {
      assert createdOrder[..i + 1][..i] == createdOrder[..i];
      assert createdOrder[i] in CreatedOrder(events);
      NamedIsLogged(events, ChildDeleted, createdOrder[i]);
      if createdOrder[i] !in deleted {
        open := open + [createdOrder[i]];
      }
    }
    assert createdOrder[..|createdOrder|] == createdOrder;
  }

  lemma EmptyLog()
    ensures CreatedOrder([]) == [] && NamedIn([], ChildDeleted) == {}
  {
  }

  lemma {:induction false} NoEmptyIdCreated(log: seq<LaneEvent>)
    ensures forall id :: id in CreatedOrder(log) <==> id != "" && Logged(log, ChildCreated, id)
    decreases |log|
  {
    if log != [] {
      NoEmptyIdCreated(log[..|log| - 1]);
      assert log == log[..|log| - 1] + [log[|log| - 1]];
    }
  }

  class ChildDriver {
    var pendingCreates: set<Token>
    var inFlight: set<SessionId>
    var swept: set<SessionId>
    var events: seq<LaneEvent>
    ghost var children: seq<Child>
    ghost var sweeping: set<SessionId>
    ghost var gone: set<SessionId>

    ghost function View(): State
      reads this
    {
      State(children, pendingCreates, inFlight, swept, sweeping, events, gone)
    }

    constructor ()
      ensures View() == INIT
    {
      pendingCreates, inFlight, swept, events, children, sweeping, gone := {}, {}, {}, [], [], {}, {};
    }

    method Dispatch(token: Token)
      modifies this
      ensures View() == Apply(old(View()), Register(token))
    {
      pendingCreates := pendingCreates + {token};
      children := children + [Child(token, Creating)];
    }

    method OnCreated(ghost i: nat, token: Token, sid: SessionId)
      requires i < |children| && children[i] == Child(token, Creating)
      modifies this
      ensures View() == Apply(old(View()), CreateOk(i, sid))
    {
      pendingCreates := pendingCreates - {token};
      inFlight := inFlight + {sid};
      events := events + [LaneEvent(ChildCreated, Some(sid))];
      children := Put(View(), i, Running(sid));
    }

    /** createSession threw: the catch block, then the finally block with no session id. */
    method OnCreateFailed(ghost i: nat, token: Token)
      requires i < |children| && children[i] == Child(token, Creating)
      modifies this
      ensures View() == Apply(old(View()), CreateFail(i))
    {
      events := events + [LaneEvent(ChildFailed, None)];
      pendingCreates := pendingCreates - {token};
      children := Put(View(), i, Finished);
    }

    /** The try block ends, well or not; then the finally block up to its await. */
    method OnFinished(ghost i: nat, token: Token, sid: SessionId, failed: bool)
      requires i < |children| && children[i] == Child(token, Running(sid))
      modifies this
      ensures View() == Apply(old(View()), Finish(i, failed))
    {
      if failed {
        var sweptByHarness := sid in swept;
        events := events + [LaneEvent(if sweptByHarness then OrphanSwept else ChildFailed, Some(sid))];
      }
      pendingCreates := pendingCreates - {token};
      if sid != "" {
        inFlight := inFlight - {sid};
        children := Put(View(), i, Deleting(sid));
      } else {
        children := Put(View(), i, Finished);
      }
    }

    method OnDeleteDone(ghost i: nat, sid: SessionId, ok: bool)
      requires i < |children| && children[i].phase == Deleting(sid)
      modifies this
      ensures View() == Apply(old(View()), DeleteDone(i, ok))
    {
      if ok {
        events := events + [LaneEvent(ChildDeleted, Some(sid))];
        gone := gone + {sid};
      }
      children := Put(View(), i, Finished);
    }

    method OnDeadline(ghost i: nat)
      requires i < |children| && children[i].phase != Finished
      modifies this
      ensures View() == Apply(old(View()), Deadline(i))
    {
      events := events + [LaneEvent(ChildTimeout, None)];
    }

    /** sweepOrphans up to its first delete. */
    method StartSweep() returns (sweepable: seq<SessionId>, skippedInFlight: seq<SessionId>)
      modifies this
      ensures View() == Apply(old(View()), SweepStart)
      ensures forall id :: id in sweepable <==> id in OpenIds(old(events)) && id !in old(inFlight)
      ensures forall id :: id in skippedInFlight <==> id in OpenIds(old(events)) && id in old(inFlight)
      ensures multiset(sweepable) + multiset(skippedInFlight) == multiset(OpenIds(old(events)))
    {
      var open := ComputeOpenSessionIds(events);
      sweepable, skippedInFlight := [], [];
      for i := 0 to |open|
        invariant View() == old(View())
        invariant forall id :: id in sweepable <==> id in open[..i] && id !in inFlight
        invariant forall id :: id in skippedInFlight <==> id in open[..i] && id in inFlight
        invariant multiset(sweepable) + multiset(skippedInFlight) == multiset(open[..i])
      {
        assert open[..i + 1] == open[..i] + [open[i]];
        if open[i] in inFlight {
          skippedInFlight := skippedInFlight + [open[i]];
        } else {
          sweepable := sweepable + [open[i]];
        }
      }
      assert open[..|open|] == open;
      sweeping := sweeping + (ToSet(open) - inFlight);
    }

    method OnSweepDelete(sid: SessionId, outcome: DeleteOutcome)
      requires sid in sweeping
      modifies this
      ensures View() == Apply(old(View()), SweepDelete(sid, outcome))
    {
      match outcome {
        case Deleted =>
          swept := swept + {sid};
          events := events + [LaneEvent(OrphanSwept, Some(sid)), LaneEvent(ChildDeleted, Some(sid))];
          gone := gone + {sid};
        case AlreadyGone =>
          events := events + [LaneEvent(ChildDeleted, Some(sid))];
          gone := gone + {sid};
        case Transient =>
          events := events + [LaneEvent(Anomaly, Some(sid))];
      }
      sweeping := sweeping - {sid};
    }
  }

  // ---------------------------------------------------------------------
  // No ownership gap

  predicate HasSession(c: Child) {
    c.phase.Running? || c.phase.Deleting?
  }

  /** runChild has not reached its finally block. */
  predicate Unfinished(c: Child) {
    c.phase == Creating || c.phase.Running?
  }

  /** pendingCreates holds exactly the tokens of the children whose create is unanswered. */
  ghost predicate TokensExact(st: State) {
    && (forall i, j :: 0 <= i < j < |st.children| ==> st.children[i].token != st.children[j].token)
    && (forall t :: t in st.pendingCreates <==> AwaitsCreate(st, t))
  }

  ghost predicate AwaitsCreate(st: State, t: Token) {
    exists i :: 0 <= i < |st.children| && st.children[i] == Child(t, Creating)
  }

  ghost predicate RunsWith(st: State, sid: SessionId) {
    exists i :: 0 <= i < |st.children| && st.children[i].phase == Running(sid)
  }

  /** inFlight holds exactly the sessions of the children that run, and the empty id once one was handed out. */
  ghost predicate SessionsExact(st: State) {
    && (forall i, j :: 0 <= i < j < |st.children| && HasSession(st.children[i]) && HasSession(st.children[j])
          ==> st.children[i].phase.sid != st.children[j].phase.sid)
    && (forall i :: 0 <= i < |st.children| && HasSession(st.children[i])
          ==> Logged(st.log, ChildCreated, st.children[i].phase.sid))
    && (forall i :: 0 <= i < |st.children| && st.children[i].phase.Deleting? ==> st.children[i].phase.sid != "")
    && (forall s :: s in st.inFlight <==> RunsWith(st, s) || (s == "" && Logged(st.log, ChildCreated, "")))
  }

  /** Neither a session swept nor one about to be belongs to a running child. */
  ghost predicate SweepsApart(st: State) {
    forall s :: s in st.swept || s in st.sweeping ==> Logged(st.log, ChildCreated, s) && s !in st.inFlight
  }

  ghost predicate DeletesConfirmed(st: State) {
    forall s :: Logged(st.log, ChildDeleted, s) ==> s in st.gone
  }

  ghost predicate Valid(st: State) {
    TokensExact(st) && SessionsExact(st) && SweepsApart(st) && DeletesConfirmed(st)
  }

  lemma TokensRegister(st: State, after: State, token: Token)
    requires TokensExact(st) && forall c <- st.children :: c.token != token
    requires after.children == st.children + [Child(token, Creating)]
    requires after.pendingCreates == st.pendingCreates + {token}
    ensures TokensExact(after)
  {
    forall t ensures t in after.pendingCreates <==> AwaitsCreate(after, t) {
      if t in st.pendingCreates {
        var i :| 0 <= i < |st.children| && st.children[i] == Child(t, Creating);
        assert after.children[i] == Child(t, Creating);
      }
      assert after.children[|st.children|] == Child(token, Creating);
    }
  }

  lemma TokensMove(st: State, after: State, i: nat, phase: Phase)
    requires TokensExact(st) && i < |st.children| && phase != Creating && after.children == Put(st, i, phase)
    requires after.pendingCreates == st.pendingCreates - {st.children[i].token}
             || (st.children[i].phase != Creating && after.pendingCreates == st.pendingCreates)
    ensures TokensExact(after)
  {
    forall t ensures t in after.pendingCreates <==> AwaitsCreate(after, t) {
      if t in st.pendingCreates {
        var k :| 0 <= k < |st.children| && st.children[k] == Child(t, Creating);
        assert k != i ==> after.children[k] == Child(t, Creating);
      }
    }
  }

  lemma TokensStep(st: State, step: Step)
    requires TokensExact(st) && FreshStep(st, step)
    ensures TokensExact(Apply(st, step))
  {
    hide TokensExact, Logged, CreatedOrder, NotDeleted;
    var after := Apply(st, step);
    if Possible(st, step) {
      match step
      case Register(token) => TokensRegister(st, after, token);
      case CreateOk(i, sid) => TokensMove(st, after, i, Running(sid));
      case CreateFail(i) => TokensMove(st, after, i, Finished);
      case Finish(i, failed) => TokensMove(st, after, i, Ending(st.children[i].phase.sid));
      case DeleteDone(i, ok) => TokensMove(st, after, i, Finished);
      case Deadline(_) => SameTokens(st, after);
      case SweepStart => SameTokens(st, after);
      case SweepDelete(_, _) => SameTokens(st, after);
    }
  }

  lemma SameTokens(st: State, after: State)
    requires TokensExact(st) && after.children == st.children && after.pendingCreates == st.pendingCreates
    ensures TokensExact(after)
  {
  }

  /** The log only grows, and by no child_created but that of a create that resolved. */
  lemma LogGrows(st: State, step: Step, sid: SessionId)
    ensures var after := Apply(st, step);
            && (Logged(st.log, ChildDeleted, sid) ==> Logged(after.log, ChildDeleted, sid))
            && (Logged(after.log, ChildCreated, sid)
                <==> Logged(st.log, ChildCreated, sid) || (Possible(st, step) && step.CreateOk? && step.sid == sid))
  {
  }

  lemma SessionsCreate(st: State, i: nat, sid: SessionId)
    requires SessionsExact(st) && !Logged(st.log, ChildCreated, sid)
    requires i < |st.children| && st.children[i].phase == Creating
    ensures SessionsExact(AfterCreateOk(st, i, sid))
  {
    var after := AfterCreateOk(st, i, sid);
    forall s ensures RunsWith(after, s) <==> RunsWith(st, s) || s == sid {
      if RunsWith(st, s) {
        var k :| 0 <= k < |st.children| && st.children[k].phase == Running(s);
        assert after.children[k].phase == Running(s);
      }
      assert after.children[i].phase == Running(sid);
    }
    assert forall s :: Logged(st.log, ChildCreated, s) ==> Logged(after.log, ChildCreated, s);
  }

  /** Child `i` drops its session, or has none. */
  lemma SessionsMove(st: State, after: State, i: nat, phase: Phase)
    requires SessionsExact(st) && i < |st.children| && !phase.Running? && phase != Creating
    requires after.children == Put(st, i, phase)
    requires phase.Deleting? ==> HasSession(st.children[i]) && phase.sid == st.children[i].phase.sid && phase.sid != ""
    requires after.inFlight == if st.children[i].phase.Running? && st.children[i].phase.sid != ""
                               then st.inFlight - {st.children[i].phase.sid} else st.inFlight
    requires forall s :: Logged(after.log, ChildCreated, s) <==> Logged(st.log, ChildCreated, s)
    ensures SessionsExact(after)
  {
    hide Logged;
    forall s ensures RunsWith(after, s) <==> RunsWith(st, s) && st.children[i].phase != Running(s) {
      if RunsWith(st, s) {
        var k :| 0 <= k < |st.children| && st.children[k].phase == Running(s);
        assert k != i ==> after.children[k].phase == Running(s);
      }
    }
  }

  lemma SessionsSame(st: State, after: State)
    requires SessionsExact(st) && after.inFlight == st.inFlight
    requires after.children == st.children || exists token :: after.children == st.children + [Child(token, Creating)]
    requires forall s :: Logged(after.log, ChildCreated, s) <==> Logged(st.log, ChildCreated, s)
    ensures SessionsExact(after)
  {
    hide Logged;
    forall s ensures RunsWith(after, s) <==> RunsWith(st, s) {
      if RunsWith(st, s) {
        var k :| 0 <= k < |st.children| && st.children[k].phase == Running(s);
        assert after.children[k].phase == Running(s);
      }
    }
  }

  lemma SessionsStep(st: State, step: Step)
    requires SessionsExact(st) && FreshStep(st, step)
    ensures SessionsExact(Apply(st, step))
  {
    hide SessionsExact, Logged, CreatedOrder, NotDeleted;
    var after := Apply(st, step);
    forall s ensures Logged(after.log, ChildCreated, s)
                     <==> Logged(st.log, ChildCreated, s) || (Possible(st, step) && step.CreateOk? && step.sid == s) {
      LogGrows(st, step, s);
    }
    if Possible(st, step) {
      match step
      case Register(token) => SessionsSame(st, after);
      case CreateOk(i, sid) => SessionsCreate(st, i, sid);
      case CreateFail(i) => SessionsMove(st, after, i, Finished);
      case Finish(i, failed) => SessionsMove(st, after, i, Ending(st.children[i].phase.sid));
      case DeleteDone(i, ok) => SessionsMove(st, after, i, Finished);
      case Deadline(_) => SessionsSame(st, after);
      case SweepStart => SessionsSame(st, after);
      case SweepDelete(_, _) => SessionsSame(st, after);
    }
  }

  lemma SweepsStep(st: State, step: Step)
    requires SweepsApart(st) && FreshStep(st, step)
    ensures SweepsApart(Apply(st, step))
  {
    hide Logged, CreatedOrder;
    forall s ensures Logged(Apply(st, step).log, ChildCreated, s)
                     <==> Logged(st.log, ChildCreated, s) || (Possible(st, step) && step.CreateOk? && step.sid == s) {
      LogGrows(st, step, s);
    }
    NoEmptyIdCreated(st.log);
  }

  lemma DeletesStep(st: State, step: Step)
    requires DeletesConfirmed(st)
    ensures DeletesConfirmed(Apply(st, step))
  {
    hide CreatedOrder, NotDeleted;
  }

  lemma {:induction false} ValidRun(trace: seq<Step>)
    requires FreshRun(trace)
    ensures Valid(Run(trace))
    decreases |trace|
  {
    if trace != [] {
      hide TokensExact, SessionsExact, SweepsApart, DeletesConfirmed, FreshStep, Apply;
      var st, step := Run(trace[..|trace| - 1]), trace[|trace| - 1];
      ValidRun(trace[..|trace| - 1]);
      TokensStep(st, step);
      SessionsStep(st, step);
      SweepsStep(st, step);
      DeletesStep(st, step);
    }
  }

  /** A child between its registration and its finally block is counted once: by its token until the create
      resolves, by its session id after. A child past it is not counted, but for an empty session id. */
  lemma CountedExactlyOnce(trace: seq<Step>, i: nat)
    requires FreshRun(trace) && i < |Run(trace).children|
    ensures var st := Run(trace); var c := st.children[i];
            && (c.token in st.pendingCreates <==> c.phase == Creating)
            && (HasSession(c) && c.phase.sid != "" ==> (c.phase.sid in st.inFlight <==> c.phase.Running?))
            && (c.phase.Running? ==> c.phase.sid in st.inFlight)
            && (Unfinished(c) ==> (c.token in st.pendingCreates) != (c.phase.Running? && c.phase.sid in st.inFlight))
  {
    hide Run, FreshRun, SweepsApart, DeletesConfirmed, Logged;
    ValidRun(trace);
    var st := Run(trace);
    var c := st.children[i];
    if c.phase == Creating {
      assert st.children[i] == Child(c.token, Creating);
    }
    if HasSession(c) && RunsWith(st, c.phase.sid) {
      var k :| 0 <= k < |st.children| && st.children[k].phase == Running(c.phase.sid);
      assert HasSession(st.children[k]);
    }
  }

  function UnfinishedOnes(children: seq<Child>): set<nat> {
    set i: nat | i < |children| && Unfinished(children[i])
  }

  function CreatingOnes(children: seq<Child>): set<nat> {
    set i: nat | i < |children| && children[i].phase == Creating
  }

  function RunningOnes(children: seq<Child>): set<nat> {
    set i: nat | i < |children| && children[i].phase.Running?
  }

  /** Sets of the same size: `f` names each element of `b` by one of `a`. */
  lemma {:induction false} SameSize<A, B>(a: set<A>, b: set<B>, f: A -> B)
    requires forall x <- a :: f(x) in b
    requires forall x, y :: x in a && y in a && x != y ==> f(x) != f(y)
    requires forall y <- b :: exists x :: x in a && f(x) == y
    ensures |a| == |b|
    decreases a
  {
    if a == {} {
      assert b == {};
    } else {
      var x :| x in a;
      SameSize(a - {x}, b - {f(x)}, f);
      assert |a - {x}| == |a| - 1 && |b - {f(x)}| == |b| - 1;
    }
  }

  function TokenOf(children: seq<Child>): nat -> Token {
    (i: nat) => if i < |children| then children[i].token else ""
  }

  function SessionOf(children: seq<Child>): nat -> SessionId {
    (i: nat) => if i < |children| && children[i].phase.Running? then children[i].phase.sid else ""
  }

  lemma PendingCount(st: State)
    requires TokensExact(st)
    ensures |st.pendingCreates| == |CreatingOnes(st.children)|
  {
    var a := CreatingOnes(st.children);
    forall t <- st.pendingCreates ensures exists i :: i in a && TokenOf(st.children)(i) == t {
      var i :| 0 <= i < |st.children| && st.children[i] == Child(t, Creating);
      assert i in a;
    }
    SameSize(a, st.pendingCreates, TokenOf(st.children));
  }

  /** An empty id was returned, and its child has finished: nothing ever takes it out of inFlight. */
  ghost predicate EmptyIdLeft(st: State) {
    Logged(st.log, ChildCreated, "") && !RunsWith(st, "")
  }

  lemma InFlightCount(st: State)
    requires SessionsExact(st)
    ensures |st.inFlight| == |RunningOnes(st.children)| + if EmptyIdLeft(st) then 1 else 0
  {
    hide Logged;
    var a := RunningOnes(st.children);
    var running := if EmptyIdLeft(st) then st.inFlight - {""} else st.inFlight;
    forall s <- running ensures exists i :: i in a && SessionOf(st.children)(i) == s {
      var i :| 0 <= i < |st.children| && st.children[i].phase == Running(s);
      assert i in a;
    }
    forall i <- a ensures SessionOf(st.children)(i) in running {
      assert RunsWith(st, st.children[i].phase.sid);
    }
    SameSize(a, running, SessionOf(st.children));
  }

  /** The two sets together count the unfinished children, and one more once a child with the empty id is done. */
  lemma CountsUnfinishedChildren(trace: seq<Step>)
    requires FreshRun(trace)
    ensures var st := Run(trace);
            && |st.pendingCreates| + |st.inFlight|
               == |UnfinishedOnes(st.children)| + (if EmptyIdLeft(st) then 1 else 0)
            && (st.pendingCreates == {} && st.inFlight == {}
                <==> UnfinishedOnes(st.children) == {} && !EmptyIdLeft(st))
  {
    hide Run, FreshRun, EmptyIdLeft, SweepsApart, DeletesConfirmed, TokensExact, SessionsExact;
    ValidRun(trace);
    var st := Run(trace);
    PendingCount(st);
    InFlightCount(st);
    assert UnfinishedOnes(st.children) == CreatingOnes(st.children) + RunningOnes(st.children);
    assert CreatingOnes(st.children) !! RunningOnes(st.children);
  }

  /** evaluateDrain's verdict over the driver's two sets and the log's open sessions */
  predicate Drained(st: State) {
    st.inFlight == {} && OpenIds(st.log) == [] && st.pendingCreates == {}
  }

  lemma NoneOpen(log: seq<LaneEvent>)
    ensures OpenIds(log) == [] <==> forall s :: Logged(log, ChildCreated, s) && s != "" ==> Logged(log, ChildDeleted, s)
  {
    hide Logged;
    NoEmptyIdCreated(log);
    if OpenIds(log) != [] {
      assert OpenIds(log)[0] in OpenIds(log);
    } else {
      assert forall s :: s !in OpenIds(log);
    }
  }

  /** The drain reports the load gone exactly when no child is before its finally block, every session ever
      created is logged deleted, and none had the empty id; then the server confirmed every one of them gone. */
  lemma DrainIsTruthful(trace: seq<Step>)
    requires FreshRun(trace)
    ensures var st := Run(trace);
            && (Drained(st)
                <==> && (forall c <- st.children :: !Unfinished(c))
                     && (forall s :: Logged(st.log, ChildCreated, s) ==> s != "" && Logged(st.log, ChildDeleted, s)))
            && (Drained(st) ==> forall s :: Logged(st.log, ChildCreated, s) ==> s in st.gone)
  {
    hide Run, FreshRun, Logged, SweepsApart, OpenIds;
    ValidRun(trace);
    var st := Run(trace);
    NoneOpen(st.log);
    assert (forall c <- st.children :: !Unfinished(c))
           <==> st.pendingCreates == {} && forall sid :: !RunsWith(st, sid) by {
      IdleMeansUntracked(st);
    }
    assert st.inFlight == {} <==> (forall sid :: !RunsWith(st, sid)) && !Logged(st.log, ChildCreated, "") by {
      assert st.inFlight == {} <==> forall sid :: sid !in st.inFlight;
      assert "" !in st.inFlight <==> !RunsWith(st, "") && !Logged(st.log, ChildCreated, "");
    }
  }

  lemma IdleMeansUntracked(st: State)
    requires TokensExact(st)
    ensures (forall c <- st.children :: !Unfinished(c)) <==> st.pendingCreates == {} && forall sid :: !RunsWith(st, sid)
  {
    if forall c <- st.children :: !Unfinished(c) {
      assert forall i :: 0 <= i < |st.children| ==> !Unfinished(st.children[i]);
      assert forall t :: t !in st.pendingCreates;
    } else {
      var c :| c in st.children && Unfinished(c);
      var i :| 0 <= i < |st.children| && st.children[i] == c;
      assert c.phase == Creating ==> st.children[i] == Child(c.token, Creating) && c.token in st.pendingCreates;
      assert c.phase.Running? ==> RunsWith(st, c.phase.sid);
    }
  }

  /** However sweeps and children interleave, a failing child is never put down to the sweep. */
  lemma SweepNeverBlamed(trace: seq<Step>, i: nat)
    requires FreshRun(trace) && i < |Run(trace).children| && Run(trace).children[i].phase.Running?
    ensures var st := Run(trace);
            && st.children[i].phase.sid !in st.swept && st.children[i].phase.sid !in st.sweeping
            && Run(trace + [Finish(i, true)]).log == st.log + [LaneEvent(ChildFailed, Some(st.children[i].phase.sid))]
  {
    hide FreshRun, Logged, TokensExact, DeletesConfirmed;
    ValidRun(trace);
    CountedExactlyOnce(trace, i);
    assert (trace + [Finish(i, true)])[..|trace|] == trace;
  }

  // ---------------------------------------------------------------------
  // When reused ids are harmless, and when not

  lemma RunMore(trace: seq<Step>, step: Step)
    ensures Run(trace + [step]) == Apply(Run(trace), step)
  {
    assert (trace + [step])[..|trace|] == trace;
  }

  /** What the drain looks at for this child. */
  predicate SeenBy(st: State, c: Child) {
    (c.phase == Creating ==> c.token in st.pendingCreates) && (c.phase.Running? ==> c.phase.sid in st.inFlight)
  }

  ghost predicate AllSeen(st: State) {
    forall c <- st.children :: SeenBy(st, c)
  }

  /** The step drops a token that another create still waits under. */
  ghost predicate DropsToken(st: State, step: Step)
    requires Possible(st, step)
  {
    && (step.CreateOk? || step.CreateFail? || step.Finish?)
    && exists j :: 0 <= j < |st.children| && j != step.child
                   && st.children[j] == Child(st.children[step.child].token, Creating)
  }

  /** The step drops a session id that another child still runs with. */
  ghost predicate DropsSession(st: State, step: Step)
    requires Possible(st, step)
  {
    && step.Finish? && st.children[step.child].phase.sid != ""
    && exists j :: 0 <= j < |st.children| && j != step.child && st.children[j].phase == st.children[step.child].phase
  }

  ghost predicate OpensGap(st: State, step: Step) {
    Possible(st, step) && (DropsToken(st, step) || DropsSession(st, step))
  }

  lemma SeenEach(st: State)
    ensures AllSeen(st) <==> forall i :: 0 <= i < |st.children| ==> SeenBy(st, st.children[i])
  {
  }

  /** A child is lost sight of exactly by a step that drops a token or session id another one needs. */
  lemma GapStepExactly(st: State, step: Step)
    requires AllSeen(st)
    ensures AllSeen(Apply(st, step)) <==> !OpensGap(st, step)
  {
    hide AllSeen, Logged, OpenIds;
    var after := Apply(st, step);
    SeenEach(st);
    SeenEach(after);
    if Possible(st, step) && (step.CreateOk? || step.CreateFail? || step.Finish? || step.DeleteDone?) {
      assert forall j :: 0 <= j < |st.children| && j != step.child ==> after.children[j] == st.children[j];
    }
  }

  /** Every unfinished child was seen after each step of the run. */
  ghost predicate SeenThroughout(trace: seq<Step>)
    decreases |trace|
  {
    AllSeen(Run(trace)) && (trace == [] || SeenThroughout(trace[..|trace| - 1]))
  }

  ghost predicate OpensNoGap(trace: seq<Step>)
    decreases |trace|
  {
    trace == []
    || (OpensNoGap(trace[..|trace| - 1]) && !OpensGap(Run(trace[..|trace| - 1]), trace[|trace| - 1]))
  }

  /** Whatever ids come back, every unfinished child is seen throughout a run exactly when no step of it drops
      a token or session id that another child needs. */
  lemma {:induction false} SeenThroughoutExactly(trace: seq<Step>)
    ensures SeenThroughout(trace) <==> OpensNoGap(trace)
    decreases |trace|
  {
    if trace == [] {
      NobodyYet();
    } else {
      hide OpensGap, AllSeen, Apply;
      var front, last := trace[..|trace| - 1], trace[|trace| - 1];
      SeenThroughoutExactly(front);
      if SeenThroughout(front) {
        GapStepExactly(Run(front), last);
      }
    }
  }

  lemma NobodyYet()
    ensures AllSeen(INIT)
  {
  }

  /** In a run that opens no gap, the drain reports the load gone only when every child is past its body. */
  lemma NoGapMakesDrainSafe(trace: seq<Step>)
    requires OpensNoGap(trace) && Drained(Run(trace))
    ensures forall c <- Run(trace).children :: !Unfinished(c)
  {
    hide Run, OpensNoGap;
    SeenThroughoutExactly(trace);
  }

  /** Fresh ids never open a gap. */
  lemma FreshIdsOpenNoGap(trace: seq<Step>, step: Step)
    requires FreshRun(trace + [step])
    ensures !OpensGap(Run(trace), step)
  {
    hide Run, Apply, OpensGap, FreshStep;
    var t := trace + [step];
    assert t[..|trace|] == trace;
    RunMore(trace, step);
    FreshMeansSeen(trace);
    FreshMeansSeen(t);
    GapStepExactly(Run(trace), step);
  }

  lemma FreshMeansSeen(trace: seq<Step>)
    requires FreshRun(trace)
    ensures AllSeen(Run(trace))
  {
    hide Run, FreshRun;
    SeenEach(Run(trace));
    forall i: nat | i < |Run(trace).children| ensures SeenBy(Run(trace), Run(trace).children[i]) {
      CountedExactlyOnce(trace, i);
    }
  }

  /** With one token drawn twice, a create unanswered can go unseen by the drain: when the other create resolves, or
      when the finally block drops the token a second time. */
  lemma SharedTokenOpensAGap(t: Token, s: SessionId)
    requires s != ""
    ensures var st := Run([Register(t), Register(t), CreateOk(0, s), Finish(0, false), DeleteDone(0, true)]);
            Drained(st) && st.children == [Child(t, Finished), Child(t, Creating)]
    ensures var st := Run([Register(t), CreateOk(0, s), Register(t), Finish(0, false), DeleteDone(0, true)]);
            Drained(st) && st.children == [Child(t, Finished), Child(t, Creating)]
  {
    TokenDroppedByCreate(t, s);
    TokenDroppedByFinally(t, s);
  }

  lemma TokenDroppedByFinally(t: Token, s: SessionId)
    requires s != ""
    ensures var st := Run([Register(t), CreateOk(0, s), Register(t), Finish(0, false), DeleteDone(0, true)]);
            Drained(st) && st.children == [Child(t, Finished), Child(t, Creating)]
  {
    hide Run, OpenIds;
    var t1 := [Register(t)];
    var t2 := t1 + [CreateOk(0, s)];
    var t3 := t2 + [Register(t)];
    var t4 := t3 + [Finish(0, false)];
    var t5 := t4 + [DeleteDone(0, true)];
    RunMore([], Register(t));
    RunMore(t1, CreateOk(0, s));
    RunMore(t2, Register(t));
    RunMore(t3, Finish(0, false));
    RunMore(t4, DeleteDone(0, true));
    assert [] + [Register(t)] == t1;
    RunEmpty();
    assert Run(t2).children == [Child(t, Running(s))] && Run(t2).inFlight == {s} && Run(t2).pendingCreates == {};
    assert Run(t3).children == [Child(t, Running(s)), Child(t, Creating)] && Run(t3).pendingCreates == {t};
    assert Run(t4).children == [Child(t, Deleting(s)), Child(t, Creating)] && Run(t4).pendingCreates == {};
    assert Run(t5).log == [LaneEvent(ChildCreated, Some(s)), LaneEvent(ChildDeleted, Some(s))];
    NoneOpen(Run(t5).log);
    assert t5 == [Register(t), CreateOk(0, s), Register(t), Finish(0, false), DeleteDone(0, true)];
  }

  lemma TokenDroppedByCreate(t: Token, s: SessionId)
    requires s != ""
    ensures var st := Run([Register(t), Register(t), CreateOk(0, s), Finish(0, false), DeleteDone(0, true)]);
            Drained(st) && st.children == [Child(t, Finished), Child(t, Creating)]
  {
    hide Run, OpenIds;
    var t1 := [Register(t)];
    var t2 := t1 + [Register(t)];
    var t3 := t2 + [CreateOk(0, s)];
    var t4 := t3 + [Finish(0, false)];
    var t5 := t4 + [DeleteDone(0, true)];
    RunMore([], Register(t));
    RunMore(t1, Register(t));
    RunMore(t2, CreateOk(0, s));
    RunMore(t3, Finish(0, false));
    RunMore(t4, DeleteDone(0, true));
    assert [] + [Register(t)] == t1;
    RunEmpty();
    assert Run(t2).children == [Child(t, Creating), Child(t, Creating)] && Run(t2).pendingCreates == {t};
    assert Run(t3).children == [Child(t, Running(s)), Child(t, Creating)] && Run(t3).inFlight == {s};
    assert Run(t4).children == [Child(t, Deleting(s)), Child(t, Creating)] && Run(t4).pendingCreates == {};
    assert Run(t5).log == [LaneEvent(ChildCreated, Some(s)), LaneEvent(ChildDeleted, Some(s))];
    NoneOpen(Run(t5).log);
    assert t5 == [Register(t), Register(t), CreateOk(0, s), Finish(0, false), DeleteDone(0, true)];
  }

  /** Two children run with one session id. */
  lemma TwoOnOneSession(t: Token, u: Token, s: SessionId)
    requires t != u
    ensures var st := Run([Register(t), Register(u), CreateOk(0, s), CreateOk(1, s)]);
            && st.children == [Child(t, Running(s)), Child(u, Running(s))]
            && st.pendingCreates == {} && st.inFlight == {s}
            && st.log == [LaneEvent(ChildCreated, Some(s)), LaneEvent(ChildCreated, Some(s))]
  {
    hide Run;
    var t1 := [Register(t)];
    var t2 := t1 + [Register(u)];
    var t3 := t2 + [CreateOk(0, s)];
    RunMore([], Register(t));
    RunMore(t1, Register(u));
    RunMore(t2, CreateOk(0, s));
    RunMore(t3, CreateOk(1, s));
    assert [] + [Register(t)] == t1;
    RunEmpty();
    assert Run(t2).children == [Child(t, Creating), Child(u, Creating)] && Run(t2).pendingCreates == {t, u};
    assert t3 + [CreateOk(1, s)] == [Register(t), Register(u), CreateOk(0, s), CreateOk(1, s)];
  }

  /** With one session id returned twice, a running child can. */
  lemma SharedSessionOpensAGap(t: Token, u: Token, s: SessionId)
    requires t != u && s != ""
    ensures var st := Run([Register(t), Register(u), CreateOk(0, s), CreateOk(1, s), Finish(0, false),
                           DeleteDone(0, true)]);
            Drained(st) && st.children == [Child(t, Finished), Child(u, Running(s))]
  {
    hide Run, OpenIds;
    var t4 := [Register(t), Register(u), CreateOk(0, s), CreateOk(1, s)];
    var t5 := t4 + [Finish(0, false)];
    var t6 := t5 + [DeleteDone(0, true)];
    TwoOnOneSession(t, u, s);
    RunMore(t4, Finish(0, false));
    RunMore(t5, DeleteDone(0, true));
    assert Run(t5).children == [Child(t, Deleting(s)), Child(u, Running(s))];
    var created := LaneEvent(ChildCreated, Some(s));
    assert Run(t6).log == [created, created, LaneEvent(ChildDeleted, Some(s))];
    NoneOpen(Run(t6).log);
    assert t6 == [Register(t), Register(u), CreateOk(0, s), CreateOk(1, s), Finish(0, false), DeleteDone(0, true)];
  }

  lemma RunEmpty()
    ensures Run([]) == INIT
  {
  }

  // ---------------------------------------------------------------------
  // What the log says, from the trace alone

  /** Some create of the run returned `s`. */
  ghost predicate Returned(trace: seq<Step>, s: SessionId)
    decreases |trace|
  {
    trace != []
    && (Returned(trace[..|trace| - 1], s) || (Possible(Run(trace[..|trace| - 1]), trace[|trace| - 1])
                                              && trace[|trace| - 1].CreateOk? && trace[|trace| - 1].sid == s))
  }

  /** The server confirms `s` deleted or not found, to its child or to a sweep. */
  predicate Confirms(st: State, step: Step, s: SessionId) {
    Possible(st, step)
    && match step
       case DeleteDone(i, ok) => ok && st.children[i].phase == Deleting(s)
       case SweepDelete(sid, Deleted) => sid == s
       case SweepDelete(sid, AlreadyGone) => sid == s
       case _ => false
  }

  ghost predicate Confirmed(trace: seq<Step>, s: SessionId)
    decreases |trace|
  {
    trace != []
    && (Confirmed(trace[..|trace| - 1], s) || Confirms(Run(trace[..|trace| - 1]), trace[|trace| - 1], s))
  }

  lemma LogStep(st: State, step: Step, s: SessionId)
    requires LaneEvent(ChildDeleted, Some(s)) in st.log <==> s in st.gone
    ensures var after := Apply(st, step);
            && st.log <= after.log
            && (LaneEvent(ChildDeleted, Some(s)) in after.log <==> s in after.gone)
            && (s in after.gone <==> s in st.gone || Confirms(st, step, s))
            && (LaneEvent(ChildCreated, Some(s)) in after.log
                <==> LaneEvent(ChildCreated, Some(s)) in st.log
                     || (Possible(st, step) && step.CreateOk? && step.sid == s))
  {
    hide CreatedOrder, NotDeleted;
    assert st.log <= Apply(st, step).log;
  }

  /** A session is logged created exactly when a create returned it, and logged deleted exactly when the server
      confirmed it gone, to its child or to a sweep; it is open in between. */
  lemma {:induction false} LogTellsTrace(trace: seq<Step>, s: SessionId)
    ensures var log := Run(trace).log;
            && (LaneEvent(ChildCreated, Some(s)) in log <==> Returned(trace, s))
            && (LaneEvent(ChildDeleted, Some(s)) in log <==> Confirmed(trace, s))
            && (s in Run(trace).gone <==> Confirmed(trace, s))
            && (s in OpenIds(log) <==> s != "" && Returned(trace, s) && !Confirmed(trace, s))
    decreases |trace|
  {
    hide Apply, Confirms, OpenIds;
    NoEmptyIdCreated(Run(trace).log);
    OpenExactly(Run(trace).log, s);
    if trace != [] {
      var front := trace[..|trace| - 1];
      LogTellsTrace(front, s);
      LogStep(Run(front), trace[|trace| - 1], s);
    }
  }

  lemma OpenExactly(log: seq<LaneEvent>, s: SessionId)
    ensures s in OpenIds(log)
            <==> s != "" && LaneEvent(ChildCreated, Some(s)) in log && LaneEvent(ChildDeleted, Some(s)) !in log
  {
    hide CreatedOrder;
    NoEmptyIdCreated(log);
  }

  /** What each of the other steps logs, and which sessions a sweep takes up: those open and not in flight. */
  lemma StepsInFull(st: State, i: nat, sid: SessionId, s: SessionId)
    requires i < |st.children|
    ensures st.children[i].phase == Creating ==>
              Apply(st, CreateFail(i)).log == st.log + [LaneEvent(ChildFailed, None)]
    ensures st.children[i].phase == Running(sid) ==>
              && Apply(st, Finish(i, false)).log == st.log
              && Apply(st, Finish(i, true)).log
                 == st.log + [LaneEvent(if sid in st.swept then OrphanSwept else ChildFailed, Some(sid))]
    ensures st.children[i].phase != Finished ==>
              Apply(st, Deadline(i)) == st.(log := st.log + [LaneEvent(ChildTimeout, None)])
    ensures var after := Apply(st, SweepStart);
            && after == st.(sweeping := after.sweeping)
            && (s in after.sweeping
                <==> s in st.sweeping
                     || (s != "" && LaneEvent(ChildCreated, Some(s)) in st.log
                         && LaneEvent(ChildDeleted, Some(s)) !in st.log && s !in st.inFlight))
    ensures sid in st.sweeping ==>
              && Apply(st, SweepDelete(sid, Deleted)).log
                 == st.log + [LaneEvent(OrphanSwept, Some(sid)), LaneEvent(ChildDeleted, Some(sid))]
              && Apply(st, SweepDelete(sid, Deleted)).swept == st.swept + {sid}
              && Apply(st, SweepDelete(sid, AlreadyGone)).log == st.log + [LaneEvent(ChildDeleted, Some(sid))]
              && Apply(st, SweepDelete(sid, AlreadyGone)).swept == st.swept
              && Apply(st, SweepDelete(sid, Transient))
                 == st.(sweeping := st.sweeping - {sid}, log := st.log + [LaneEvent(Anomaly, Some(sid))])
  {
    hide OpenIds;
    OpenExactly(st.log, s);
  }
}
