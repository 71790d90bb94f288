/**
 The inspector client: requests sent over one socket, each with a number, a
 timer, and an entry in the pending map until something answers it. `pending`
 lists the map's keys in insertion order, the order rejectAllPending visits them.
 */
module Inspector {
  import opened Common

  type Id = int

  datatype Reason =
    | ErrorReply(message: string)
    | TimedOut
    | ConnectionClosed
    | SocketError(message: string)

  datatype Outcome = Resolved(result: string) | Rejected(reason: Reason)

  /** One call of a request's resolve or reject. */
  datatype Settlement = Settlement(id: Id, outcome: Outcome)

  datatype Message =
    | Unparsable
    | SnapshotChunk(id: Option<Id>)
    | Reply(id: Option<Id>, error: Option<string>, result: string)

  datatype Step =
    | Open
    | Send
    | Receive(message: Message)
    | Timeout(id: Id)
    | Close
    | Fail(text: string)

  datatype State = State(
    connected: bool,
    closed: bool,
    nextId: Id,
    pending: seq<Id>,
    timers: set<Id>,
    settled: seq<Settlement>,
    refused: nat)

  const INIT := State(false, false, 1, [], {}, [], 0)

  function Answer(m: Message): Outcome
    requires m.Reply?
  {
    if m.error.Some? then Rejected(ErrorReply(m.error.value)) else Resolved(m.result)
  }

  /** Map.delete, on the keys in insertion order. */
  function Without(ids: seq<Id>, id: Id): (r: seq<Id>)
    ensures forall i :: i in r <==> i in ids && i != id
    decreases |ids|
  {
    if ids == [] then []
    else Without(ids[..|ids| - 1], id) + (if ids[|ids| - 1] == id then [] else [ids[|ids| - 1]])
  }

  function RejectEach(ids: seq<Id>, reason: Reason): (r: seq<Settlement>)
    ensures |r| == |ids| && forall i :: 0 <= i < |ids| ==> r[i] == Settlement(ids[i], Rejected(reason))
  {
    seq(|ids|, i requires 0 <= i < |ids| => Settlement(ids[i], Rejected(reason)))
  }

  function AfterSend(st: State): State {
    if !st.connected then st
    else if st.closed then st.(refused := st.refused + 1)
    else st.(nextId := st.nextId + 1, pending := st.pending + [st.nextId], timers := st.timers + {st.nextId})
  }

  function Settle(st: State, id: Id, outcome: Outcome): State {
    st.(pending := Without(st.pending, id), timers := st.timers - {id},
        settled := st.settled + [Settlement(id, outcome)])
  }

  function AfterReceive(st: State, m: Message): State {
    if m.Reply? && m.id.Some? && m.id.value in st.pending then Settle(st, m.id.value, Answer(m)) else st
  }

  function SettleAll(st: State, reason: Reason): State {
    st.(pending := [], timers := st.timers - (set id <- st.pending),
        settled := st.settled + RejectEach(st.pending, reason))
  }

  /** Socket events reach only a client whose socket was made, and a callback only an armed timer. */
  function Apply(st: State, step: Step): State {
    match step
    case Open => st.(connected := true)
    case Send => AfterSend(st)
    case Receive(m) => if st.connected then AfterReceive(st, m) else st
    case Timeout(id) => if id in st.timers then Settle(st, id, Rejected(TimedOut)) else st
    case Close => if st.connected then SettleAll(st, ConnectionClosed).(closed := true) else st
    case Fail(message) => if st.connected then SettleAll(st, SocketError(message)) else st
  }

  function Run(trace: seq<Step>): State
    decreases |trace|
  {
    if trace == [] then INIT else Apply(Run(trace[..|trace| - 1]), trace[|trace| - 1])
  }

  // ---------------------------------------------------------------------
  // The program

  datatype SendResult = NotConnected | Refused | Issued(id: Id)

  class InspectorClient {
    var ws: bool                       // whether the socket was made
    var nextId: Id
    var closed: bool
    var pending: seq<Id>
    var armed: set<Id>                 // timers neither run nor cleared
    ghost var settled: seq<Settlement>
    ghost var refused: nat

    ghost function View(): State
      reads this
    {
      State(ws, closed, nextId, pending, armed, settled, refused)
    }

    constructor ()
      ensures View() == INIT
    {
      ws, nextId, closed, pending, armed, settled, refused := false, 1, false, [], {}, [], 0;
    }

    method OpenSocket()
      modifies this`ws
      ensures View() == Apply(old(View()), Step.Open)
    {
      ws := true;
    }

    method Send() returns (r: SendResult)
      modifies this
      ensures View() == Apply(old(View()), Step.Send)
      ensures r == if !ws then NotConnected else if closed then Refused else Issued(old(nextId))
    {
      if !ws {
        return NotConnected;
      }
      if closed {
        refused := refused + 1;
        return Refused;
      }
      var id := nextId;
      nextId := nextId + 1;
      armed := armed + {id};
      pending := pending + [id];
      return Issued(id);
    }

    method HandleMessage(m: Message)
      requires ws
      modifies this
      ensures View() == Apply(old(View()), Receive(m))
    {
      match m
      case Unparsable =>
      case SnapshotChunk(_) =>
      case Reply(id, error, result) =>
        if id.Some? && id.value in pending {
          pending := Without(pending, id.value);
          armed := armed - {id.value};
          var outcome := if error.Some? then Rejected(ErrorReply(error.value)) else Resolved(result);
          settled := settled + [Settlement(id.value, outcome)];
        }
    }

    method OnTimeout(id: Id)
      requires id in armed
      modifies this
      ensures View() == Apply(old(View()), Timeout(id))
    {
      armed := armed - {id};
      pending := Without(pending, id);
      settled := settled + [Settlement(id, Rejected(TimedOut))];
    }

    method RejectAllPending(reason: Reason)
      modifies this
      ensures View() == SettleAll(old(View()), reason)
    {
      ghost var was := pending;
      for i := 0 to |pending|
        invariant pending == was && ws == old(ws) && closed == old(closed)
        invariant nextId == old(nextId) && refused == old(refused)
        invariant armed == old(armed) - (set id <- was[..i])
        invariant settled == old(settled) + RejectEach(was[..i], reason)
      {
        armed := armed - {pending[i]};
        settled := settled + [Settlement(pending[i], Rejected(reason))];
        assert was[..i + 1] == was[..i] + [was[i]];
        assert RejectEach(was[..i + 1], reason)
               == RejectEach(was[..i], reason) + [Settlement(was[i], Rejected(reason))];
      }
      assert was[..|was|] == was;
      pending := [];
    }

    method OnClose()
      requires ws
      modifies this
      ensures View() == Apply(old(View()), Close)
    {
      closed := true;
      RejectAllPending(ConnectionClosed);
    }

    method OnError(message: string)
      requires ws
      modifies this
      ensures View() == Apply(old(View()), Fail(message))
    {
      RejectAllPending(SocketError(message));
    }
  }

  // ---------------------------------------------------------------------
  // What becomes of a request, read off the trace

  ghost predicate OpenedIn(trace: seq<Step>) {
    Step.Open in trace
  }

  /** The socket closed: a Close with an Open before it. */
  ghost predicate ClosedIn(trace: seq<Step>) {
    exists i, j :: 0 <= i < j < |trace| && trace[i] == Step.Open && trace[j] == Close
  }

  /** Sends that got a number: those made while the socket was there and had not closed. */
  ghost function IssuedIn(trace: seq<Step>): nat
    decreases |trace|
  {
    if trace == [] then 0
    else
      var before := trace[..|trace| - 1];
      IssuedIn(before) + (if trace[|trace| - 1] == Send && OpenedIn(before) && !ClosedIn(before) then 1 else 0)
  }

  /** What `step` makes of a request that nothing answered before. */
  function Effect(step: Step, id: Id): Option<Outcome> {
    match step
    case Receive(Reply(Some(i), Some(text), _)) => if i == id then Some(Rejected(ErrorReply(text))) else None
    case Receive(Reply(Some(i), None, result)) => if i == id then Some(Resolved(result)) else None
    case Receive(_) => None
    case Timeout(i) => if i == id then Some(Rejected(TimedOut)) else None
    case Close => Some(Rejected(ConnectionClosed))
    case Fail(message) => Some(Rejected(SocketError(message)))
    case Open => None
    case Send => None
  }

  /** The outcome of request `id`: the effect of the first step after its send that has one. */
  ghost function Fate(trace: seq<Step>, id: Id): Option<Outcome>
    decreases |trace|
  {
    if trace == [] then None
    else
      var before := trace[..|trace| - 1];
      if Fate(before, id).Some? then Fate(before, id)
      else if 1 <= id <= IssuedIn(before) then Effect(trace[|trace| - 1], id)
      else None
  }

  function OutcomesOf(log: seq<Settlement>, id: Id): seq<Outcome>
    decreases |log|
  {
    if log == [] then []
    else OutcomesOf(log[..|log| - 1], id) + (if log[|log| - 1].id == id then [log[|log| - 1].outcome] else [])
  }

  function Settled(o: Option<Outcome>): seq<Outcome> {
    if o.Some? then [o.value] else []
  }

  /** `id` is waiting for an answer. */
  ghost predicate Unanswered(trace: seq<Step>, id: Id) {
    1 <= id <= IssuedIn(trace) && Fate(trace, id) == None
  }

  ghost predicate Increasing(ids: seq<Id>) {
    forall i, j :: 0 <= i < j < |ids| ==> ids[i] < ids[j]
  }

  ghost predicate Agrees(trace: seq<Step>, st: State) {
    && st.connected == OpenedIn(trace) && st.closed == ClosedIn(trace) && st.nextId == IssuedIn(trace) + 1
    && Increasing(st.pending)
    && (forall id :: id in st.pending <==> Unanswered(trace, id))
    && (forall id :: id in st.timers <==> Unanswered(trace, id))
    && (forall id :: OutcomesOf(st.settled, id) == Settled(Fate(trace, id)))
    && (st.closed ==> st.pending == [])
  }

  lemma OutcomesAppend(log: seq<Settlement>, s: Settlement, id: Id)
    ensures OutcomesOf(log + [s], id) == OutcomesOf(log, id) + (if s.id == id then [s.outcome] else [])
  {
    assert (log + [s])[..|log|] == log;
  }

  lemma {:induction false} OutcomesOfEach(log: seq<Settlement>, ids: seq<Id>, reason: Reason, id: Id)
    requires Increasing(ids)
    ensures OutcomesOf(log + RejectEach(ids, reason), id)
            == OutcomesOf(log, id) + (if id in ids then [Rejected(reason)] else [])
    decreases |ids|
  {
    hide OutcomesOf;
    if ids == [] {
      assert log + RejectEach(ids, reason) == log;
    } else {
      var front, n := ids[..|ids| - 1], ids[|ids| - 1];
      var last := Settlement(n, Rejected(reason));
      OutcomesOfEach(log, front, reason, id);
      assert log + RejectEach(ids, reason) == log + RejectEach(front, reason) + [last];
      OutcomesAppend(log + RejectEach(front, reason), last, id);
      assert ids == front + [n] && n !in front;
    }
  }

  lemma WithoutKeepsOrder(ids: seq<Id>, id: Id)
    requires Increasing(ids)
    ensures Increasing(Without(ids, id))
    decreases |ids|
  {
    if ids != [] {
      var front := Without(ids[..|ids| - 1], id);
      WithoutKeepsOrder(ids[..|ids| - 1], id);
      forall i | 0 <= i < |front| ensures front[i] < ids[|ids| - 1] {
        assert front[i] in ids[..|ids| - 1];
      }
    }
  }

  lemma FactsGrow(trace: seq<Step>, step: Step)
    ensures var t := trace + [step];
            && OpenedIn(t) == (OpenedIn(trace) || step == Step.Open)
            && ClosedIn(t) == (ClosedIn(trace) || (OpenedIn(trace) && step == Close))
            && IssuedIn(t) == IssuedIn(trace) + (if step == Send && OpenedIn(trace) && !ClosedIn(trace) then 1 else 0)
            && forall id :: Fate(t, id) == if Fate(trace, id).Some? then Fate(trace, id)
                                           else if 1 <= id <= IssuedIn(trace) then Effect(step, id) else None
  {
    var t := trace + [step];
    assert t[..|t| - 1] == trace;
    if OpenedIn(trace) && step == Close {
      var i :| 0 <= i < |trace| && trace[i] == Step.Open;
      assert t[i] == Step.Open && t[|trace|] == Close;
    }
    if ClosedIn(trace) {
      var i, j :| 0 <= i < j < |trace| && trace[i] == Step.Open && trace[j] == Close;
      assert t[i] == Step.Open && t[j] == Close;
    }
  }

  lemma NothingIssuedUnopened(trace: seq<Step>)
    ensures !OpenedIn(trace) ==> IssuedIn(trace) == 0
    decreases |trace|
  {
    if trace != [] {
      NothingIssuedUnopened(trace[..|trace| - 1]);
    }
  }

  lemma OutcomesAfterSettle(trace: seq<Step>, step: Step, st: State, id: Id, outcome: Outcome)
    requires Unanswered(trace, id) && Effect(step, id) == Some(outcome) && (step.Receive? || step.Timeout?)
    requires forall i :: OutcomesOf(st.settled, i) == Settled(Fate(trace, i))
    ensures forall i :: OutcomesOf(st.settled + [Settlement(id, outcome)], i) == Settled(Fate(trace + [step], i))
    ensures forall i :: Unanswered(trace + [step], i) <==> Unanswered(trace, i) && i != id
  {
    hide OpenedIn, ClosedIn, IssuedIn, Fate, OutcomesOf;
    FactsGrow(trace, step);
    forall i ensures OutcomesOf(st.settled + [Settlement(id, outcome)], i) == Settled(Fate(trace + [step], i)) {
      OutcomesAppend(st.settled, Settlement(id, outcome), i);
    }
  }

  lemma SettleAgrees(trace: seq<Step>, step: Step, st: State, id: Id, outcome: Outcome)
    requires Agrees(trace, st) && id in st.pending && Effect(step, id) == Some(outcome)
    requires step.Receive? || step.Timeout?
    ensures Agrees(trace + [step], Settle(st, id, outcome))
  {
    hide OpenedIn, ClosedIn, IssuedIn, Fate, OutcomesOf, Without, Unanswered, Settled, Effect, Increasing;
    FactsGrow(trace, step);
    WithoutKeepsOrder(st.pending, id);
    OutcomesAfterSettle(trace, step, st, id, outcome);
  }

  lemma SettleAllAgrees(trace: seq<Step>, step: Step, st: State, reason: Reason)
    requires Agrees(trace, st) && st.connected
    requires step == Close || step.Fail?
    requires forall id :: Effect(step, id) == Some(Rejected(reason))
    ensures Agrees(trace + [step], SettleAll(st, reason).(closed := st.closed || step == Close))
  {
    hide OpenedIn, ClosedIn, IssuedIn, Fate, OutcomesOf, RejectEach;
    FactsGrow(trace, step);
    forall i ensures OutcomesOf(st.settled + RejectEach(st.pending, reason), i) == Settled(Fate(trace + [step], i)) {
      OutcomesOfEach(st.settled, st.pending, reason, i);
    }
  }

  lemma SendAgrees(trace: seq<Step>, st: State)
    requires Agrees(trace, st)
    ensures Agrees(trace + [Send], AfterSend(st))
  {
    hide OpenedIn, ClosedIn, IssuedIn, Fate, OutcomesOf;
    FactsGrow(trace, Send);
    FateOnlyOfIssued(trace, st.nextId);
    NothingIssuedUnopened(trace);
    var after := AfterSend(st);
    assert forall id :: Fate(trace + [Send], id) == Fate(trace, id);
    assert forall id :: id in after.pending <==> Unanswered(trace + [Send], id);
    assert forall i :: 0 <= i < |st.pending| ==> st.pending[i] in st.pending;
  }

  lemma FateOnlyOfIssued(trace: seq<Step>, id: Id)
    ensures Fate(trace, id).Some? ==> 1 <= id <= IssuedIn(trace)
    decreases |trace|
  {
    if trace != [] {
      FateOnlyOfIssued(trace[..|trace| - 1], id);
    }
  }

  /** A step that settles nothing and issues nothing. */
  lemma IdleAgrees(trace: seq<Step>, step: Step, st: State)
    requires Agrees(trace, st) && step != Send
    requires || step == Step.Open || !st.connected
             || (step != Close && forall id :: id in st.pending ==> Effect(step, id) == None)
    ensures Agrees(trace + [step], st.(connected := st.connected || step == Step.Open))
  {
    hide OpenedIn, ClosedIn, IssuedIn, Fate, OutcomesOf;
    FactsGrow(trace, step);
    NothingIssuedUnopened(trace);
  }

  lemma StepAgrees(trace: seq<Step>, step: Step, st: State)
    requires Agrees(trace, st)
    ensures Agrees(trace + [step], Apply(st, step))
  {
    hide Agrees, Settle, AfterSend;
    assert st.connected == OpenedIn(trace) && (forall id :: id in st.timers <==> id in st.pending) by {
      PendingHasTimers(trace, st);
    }
    match step
    case Open => IdleAgrees(trace, step, st);
    case Send => SendAgrees(trace, st);
    case Receive(m) =>
      if st.connected && m.Reply? && m.id.Some? && m.id.value in st.pending {
        SettleAgrees(trace, step, st, m.id.value, Answer(m));
      } else {
        IdleAgrees(trace, step, st);
      }
    case Timeout(id) =>
      if id in st.timers {
        SettleAgrees(trace, step, st, id, Rejected(TimedOut));
      } else {
        IdleAgrees(trace, step, st);
      }
    case Close =>
      if st.connected {
        SettleAllAgrees(trace, step, st, ConnectionClosed);
      } else {
        IdleAgrees(trace, step, st);
      }
    case Fail(message) =>
      if st.connected {
        SettleAllAgrees(trace, step, st, SocketError(message));
      } else {
        IdleAgrees(trace, step, st);
      }
  }

  lemma PendingHasTimers(trace: seq<Step>, st: State)
    requires Agrees(trace, st)
    ensures st.connected == OpenedIn(trace) && forall id :: id in st.timers <==> id in st.pending
  {
  }

  lemma InitAgrees()
    ensures Agrees([], INIT)
  {
  }

  lemma {:induction false} RunAgrees(trace: seq<Step>)
    ensures Agrees(trace, Run(trace))
    decreases |trace|
  {
    hide Agrees, Apply;
    if trace == [] {
      InitAgrees();
    } else {
      var front, last := trace[..|trace| - 1], trace[|trace| - 1];
      RunAgrees(front);
      StepAgrees(front, last, Run(front));
      assert front + [last] == trace;
    }
  }

  /** Every request ever numbered is settled once, with the outcome its trace gives it - the response with its
      own number, its timeout, or the loss of the connection, whichever came first - or it is still pending with
      its timer armed; nothing else is ever settled. */
  lemma EveryRequestSettlesOnce(trace: seq<Step>, id: Id)
    ensures var st := Run(trace);
            && OutcomesOf(st.settled, id) == Settled(Fate(trace, id))
            && (Fate(trace, id).Some? ==> 1 <= id < st.nextId && id !in st.pending && id !in st.timers)
            && (Fate(trace, id).None? && 1 <= id < st.nextId ==> id in st.pending && id in st.timers)
            && (!(1 <= id < st.nextId) ==> OutcomesOf(st.settled, id) == [] && id !in st.pending && id !in st.timers)
  {
    hide Run, Fate, IssuedIn, OutcomesOf, OpenedIn, ClosedIn;
    RunAgrees(trace);
    FateOnlyOfIssued(trace, id);
  }

  /** A settled request keeps its outcome whatever happens after: late responses change nothing. */
  lemma FateIsFinal(trace: seq<Step>, more: seq<Step>, id: Id)
    requires Fate(trace, id).Some?
    ensures OutcomesOf(Run(trace + more).settled, id) == [Fate(trace, id).value]
  {
    FateStays(trace, more, id);
    EveryRequestSettlesOnce(trace + more, id);
  }

  lemma {:induction false} FateStays(trace: seq<Step>, more: seq<Step>, id: Id)
    requires Fate(trace, id).Some?
    ensures Fate(trace + more, id) == Fate(trace, id)
    decreases |more|
  {
    if more == [] {
      assert trace + more == trace;
    } else {
      FateStays(trace, more[..|more| - 1], id);
      assert (trace + more)[..|trace + more| - 1] == trace + more[..|more| - 1];
    }
  }

  /** Two sends that got numbers got different ones. */
  lemma NumbersAreNeverReused(trace: seq<Step>, more: seq<Step>)
    requires Run(trace).connected && !Run(trace).closed
    ensures var first := Run(trace).nextId; Run(trace + [Send] + more).nextId > first
  {
    RunAgrees(trace);
    RunAgrees(trace + [Send] + more);
    FactsGrow(trace, Send);
    IssuedGrows(trace + [Send], more);
  }

  lemma {:induction false} IssuedGrows(trace: seq<Step>, more: seq<Step>)
    ensures IssuedIn(trace + more) >= IssuedIn(trace)
    decreases |more|
  {
    if more == [] {
      assert trace + more == trace;
    } else {
      IssuedGrows(trace, more[..|more| - 1]);
      assert (trace + more)[..|trace + more| - 1] == trace + more[..|more| - 1];
    }
  }

  function Sends(trace: seq<Step>): nat {
    if trace == [] then 0 else Sends(trace[..|trace| - 1]) + (if trace[|trace| - 1] == Send then 1 else 0)
  }

  /** Once the socket has closed, nothing is ever pending or settled again, and every send is refused at once. */
  lemma {:induction false} ClosedForGood(trace: seq<Step>, more: seq<Step>)
    requires ClosedIn(trace)
    ensures var st := Run(trace);
            st.pending == [] && st.timers == {}
            && Run(trace + more) == st.(refused := st.refused + Sends(more))
    decreases |more|
  {
    hide ClosedIn, Apply;
    ClosedIsEmpty(trace);
    if more == [] {
      assert trace + more == trace;
    } else {
      ClosedForGood(trace, more[..|more| - 1]);
      assert (trace + more)[..|trace + more| - 1] == trace + more[..|more| - 1];
      ClosedStep(Run(trace + more[..|more| - 1]), more[|more| - 1]);
    }
  }

  lemma ClosedIsEmpty(trace: seq<Step>)
    requires ClosedIn(trace)
    ensures var st := Run(trace); st.connected && st.closed && st.pending == [] && st.timers == {}
  {
    hide Run, ClosedIn, OpenedIn, IssuedIn, Fate, OutcomesOf;
    RunAgrees(trace);
    ClosedWasOpened(trace);
    var st := Run(trace);
    assert forall id :: id in st.timers <==> id in st.pending;
  }

  lemma ClosedWasOpened(trace: seq<Step>)
    requires ClosedIn(trace)
    ensures OpenedIn(trace)
  {
  }

  lemma ClosedStep(st: State, step: Step)
    requires st.connected && st.closed && st.pending == [] && st.timers == {}
    ensures Apply(st, step) == st.(refused := st.refused + (if step == Send then 1 else 0))
  {
    assert forall reason :: st.settled + RejectEach([], reason) == st.settled;
  }

  // ---------------------------------------------------------------------
  // What settles a request, and with what

  lemma RunMore(trace: seq<Step>, step: Step)
    ensures Run(trace + [step]) == Apply(Run(trace), step)
  {
    assert (trace + [step])[..|trace|] == trace;
  }

  /** The first reply with the number of a pending request settles it: with an error text it is rejected with that
      text, else resolved with the result. */
  lemma ReplySettles(trace: seq<Step>, id: Id, error: Option<string>, result: string)
    requires id in Run(trace).pending
    ensures var st := Run(trace); var after := Run(trace + [Receive(Reply(Some(id), error, result))]);
            && after.settled == st.settled + [
                 Settlement(id, match error
                                case Some(text) => Rejected(ErrorReply(text))
                                case None => Resolved(result))]
            && (forall i :: i in after.pending <==> i in st.pending && i != id)
            && after.timers == st.timers - {id} && after.nextId == st.nextId
  {
    hide Run, OpenedIn, ClosedIn, IssuedIn, Fate, OutcomesOf, Without;
    RunMore(trace, Receive(Reply(Some(id), error, result)));
    RunAgrees(trace);
    NothingIssuedUnopened(trace);
  }

  /** A reply with no number or one that is not pending, a snapshot chunk and junk change nothing. */
  lemma OtherMessagesIgnored(trace: seq<Step>, m: Message)
    requires m.Reply? ==> m.id.None? || m.id.value !in Run(trace).pending
    ensures Run(trace + [Receive(m)]) == Run(trace)
  {
    hide Run;
    RunMore(trace, Receive(m));
  }

  /** A timeout rejects its request; the loss of the connection rejects every pending one, in the order sent. */
  lemma LossRejects(trace: seq<Step>, id: Id, text: string)
    ensures var st := Run(trace);
            && (id in st.timers ==>
                  Run(trace + [Timeout(id)]).settled == st.settled + [Settlement(id, Rejected(TimedOut))])
            && (st.connected ==>
                  && RejectedAll(st, Run(trace + [Close]), ConnectionClosed) && Run(trace + [Close]).closed
                  && RejectedAll(st, Run(trace + [Fail(text)]), SocketError(text))
                  && Run(trace + [Fail(text)]).closed == st.closed)
  {
    hide Run, Without;
    RunMore(trace, Timeout(id));
    RunMore(trace, Close);
    RunMore(trace, Fail(text));
    assert |RejectEach(Run(trace).pending, ConnectionClosed)| == |Run(trace).pending|;
  }

  ghost predicate RejectedAll(st: State, after: State, reason: Reason) {
    && after.pending == [] && |after.settled| == |st.settled| + |st.pending| && st.settled <= after.settled
    && forall k :: 0 <= k < |st.pending| ==>
         after.settled[|st.settled| + k] == Settlement(st.pending[k], Rejected(reason))
  }

  /** A send on an open connection takes the next number, the first being 1, and waits with its timer armed. */
  lemma SendIssues(trace: seq<Step>)
    requires Run(trace).connected && !Run(trace).closed
    ensures Run([Open]).nextId == 1
    ensures var st := Run(trace); var after := Run(trace + [Send]);
            && after.nextId == st.nextId + 1 && after.pending == st.pending + [st.nextId]
            && after.timers == st.timers + {st.nextId} && after.settled == st.settled
  {
    assert [Open][..0] == [];
    hide Run;
    RunMore(trace, Send);
  }
}
