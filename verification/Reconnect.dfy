/**
 The browser-like client: one login and one socket at a time, and a backoff timer
 between them. Logins in flight, live sockets and the armed timer are what the
 runtime holds for the client; sockets are numbered in the order they are made.
 */
module Reconnect {
  import opened Common

  datatype Options = Options(base: nat, max: nat)

  /** What the backoff law speaks of: connections opened and timers armed, in order. */
  datatype Event = Opened | Armed(delay: nat)

  datatype State = State(
    closed: bool,
    backoffMs: nat,
    reconnectTimer: bool,         // the handle is set
    armed: bool,                  // the timer is running
    ws: Option<nat>,
    logins: nat,
    connecting: set<nat>,
    open: set<nat>,
    closing: set<nat>,            // live sockets whose close() was called
    sockets: nat,
    connected: bool,
    connectCount: nat,
    reconnectCount: nat,
    history: seq<Event>)

  function Init(o: Options): State {
    State(false, o.base, false, false, None, 0, {}, {}, {}, 0, false, 0, 0, [])
  }

  datatype Step =
    | Start
    | LoginOk
    | LoginFail
    | SocketOpen(id: nat)
    | SocketClose(id: nat)
    | TimerFires
    | CloseCall

  function Min(a: nat, b: nat): nat {
    if a <= b then a else b
  }

  function Live(st: State): set<nat> {
    st.connecting + st.open
  }

  /** A socket told to close before it open never opens. */
  predicate Possible(st: State, step: Step) {
    match step
    case Start => true
    case LoginOk => st.logins > 0
    case LoginFail => st.logins > 0
    case SocketOpen(id) => id in st.connecting && id !in st.closing
    case SocketClose(id) => id in Live(st)
    case TimerFires => st.armed
    case CloseCall => true
  }

  function ConnectOnce(st: State): State {
    if st.closed then st else st.(logins := st.logins + 1)
  }

  function ScheduleReconnect(st: State, o: Options): State {
    if st.closed || st.reconnectTimer then st
    else st.(reconnectCount := st.reconnectCount + 1, reconnectTimer := true, armed := true,
             backoffMs := Min(st.backoffMs * 2, o.max), history := st.history + [Armed(st.backoffMs)])
  }

  function AfterLoginOk(st: State): State
    requires st.logins > 0
  {
    st.(logins := st.logins - 1, ws := Some(st.sockets), connecting := st.connecting + {st.sockets},
        sockets := st.sockets + 1)
  }

  function AfterOpen(st: State, o: Options, id: nat): State {
    st.(connecting := st.connecting - {id}, open := st.open + {id}, connected := true,
        connectCount := st.connectCount + 1, backoffMs := o.base, history := st.history + [Opened])
  }

  function Dropped(st: State, id: nat): State {
    st.(connecting := st.connecting - {id}, open := st.open - {id}, closing := st.closing - {id},
        connected := false)
  }

  function AfterCloseCall(st: State): State {
    st.(closed := true, armed := st.armed && !st.reconnectTimer,
        closing := if st.ws.Some? && st.ws.value in Live(st) then st.closing + {st.ws.value} else st.closing)
  }

  function Apply(o: Options, st: State, step: Step): State {
    if !Possible(st, step) then st
    else
      match step
      case Start => ConnectOnce(st)
      case LoginOk => AfterLoginOk(st)
      case LoginFail => ScheduleReconnect(st.(logins := st.logins - 1), o)
      case SocketOpen(id) => AfterOpen(st, o, id)
      case SocketClose(id) => ScheduleReconnect(Dropped(st, id), o)
      case TimerFires => ConnectOnce(st.(armed := false, reconnectTimer := false))
      case CloseCall => AfterCloseCall(st)
  }

  function Run(o: Options, trace: seq<Step>): State
    decreases |trace|
  {
    if trace == [] then Init(o) else Apply(o, Run(o, trace[..|trace| - 1]), trace[|trace| - 1])
  }

  /** Starts made before the first close(). */
  function Early(trace: seq<Step>): nat
    decreases |trace|
  {
    if trace == [] then 0
    else
      var before := trace[..|trace| - 1];
      Early(before) + (if trace[|trace| - 1] == Start && CloseCall !in before then 1 else 0)
  }

  // ---------------------------------------------------------------------
  // The program

  class BrowserLikeWsClient {
    const options: Options
    var closed: bool
    var backoffMs: nat
    var reconnectTimer: bool
    var ws: Option<nat>
    var connected: bool
    var connectCount: nat
    var reconnectCount: nat
    ghost var armed: bool
    ghost var logins: nat
    ghost var connecting: set<nat>
    ghost var open: set<nat>
    ghost var closing: set<nat>
    ghost var sockets: nat
    ghost var history: seq<Event>

    ghost function View(): State
      reads this
    {
      State(closed, backoffMs, reconnectTimer, armed, ws, logins, connecting, open, closing, sockets,
            connected, connectCount, reconnectCount, history)
    }

    constructor (options: Options)
      ensures View() == Init(options) && this.options == options
    {
      this.options := options;
      closed, backoffMs, reconnectTimer, ws := false, options.base, false, None;
      connected, connectCount, reconnectCount := false, 0, 0;
      armed, logins, connecting, open, closing, sockets, history := false, 0, {}, {}, {}, 0, [];
    }

    /** start, or connectOnce up to its await */
    method BeginConnect()
      modifies this
      ensures View() == Apply(options, old(View()), Start)
    {
      if closed {
        return;
      }
      logins := logins + 1;
    }

    method Reschedule()
      modifies this
      ensures View() == ScheduleReconnect(old(View()), options)
    {
      if closed || reconnectTimer {
        return;
      }
      reconnectCount := reconnectCount + 1;
      history := history + [Armed(backoffMs)];
      reconnectTimer, armed := true, true;
      backoffMs := Min(backoffMs * 2, options.max);
    }

    /** connectOnce after its await: makes the socket, whatever happened meanwhile. */
    method OnLoginOk(socket: nat)
      requires logins > 0 && socket == sockets
      modifies this
      ensures View() == Apply(options, old(View()), LoginOk)
    {
      logins := logins - 1;
      connecting := connecting + {socket};
      sockets := sockets + 1;
      ws := Some(socket);
    }

    method OnLoginFail()
      requires logins > 0
      modifies this
      ensures View() == Apply(options, old(View()), LoginFail)
    {
      logins := logins - 1;
      Reschedule();
    }

    method OnSocketOpen(socket: nat)
      requires socket in connecting && socket !in closing
      modifies this
      ensures View() == Apply(options, old(View()), SocketOpen(socket))
    {
      connecting, open := connecting - {socket}, open + {socket};
      history := history + [Opened];
      connected := true;
      connectCount := connectCount + 1;
      backoffMs := options.base;
    }

    method OnSocketClose(socket: nat)
      requires socket in connecting + open
      modifies this
      ensures View() == Apply(options, old(View()), SocketClose(socket))
    {
      connecting, open, closing := connecting - {socket}, open - {socket}, closing - {socket};
      connected := false;
      Reschedule();
    }

    method OnTimer()
      requires armed
      modifies this
      ensures View() == Apply(options, old(View()), TimerFires)
    {
      armed := false;
      reconnectTimer := false;
      BeginConnect();
    }

    method Close()
      modifies this
      ensures View() == Apply(options, old(View()), CloseCall)
    {
      closed := true;
      if reconnectTimer {
        armed := false;
      }
      if ws.Some? && ws.value in connecting + open {
        closing := closing + {ws.value};
      }
    }
  }

  // ---------------------------------------------------------------------
  // One connection at a time, and the backoff law

  function Bit(b: bool): nat {
    if b then 1 else 0
  }

  /** Logins in flight, live sockets and armed timers. */
  function InHand(st: State): nat {
    st.logins + |st.connecting| + |st.open| + Bit(st.armed)
  }

  ghost predicate Wellformed(st: State) {
    && st.connecting !! st.open
    && (forall id <- Live(st) :: id < st.sockets)
    && (st.armed ==> st.reconnectTimer && !st.closed)
    && (st.reconnectTimer && !st.closed ==> st.armed)
    && st.closing <= Live(st)
  }

  /** Nothing in hand is ever duplicated, and while not closed it is never all lost. */
  ghost predicate Conserved(st: State, starts: nat) {
    && InHand(st) <= starts
    && (starts > 0 && !st.closed ==> InHand(st) >= 1)
    && st.connectCount + st.logins + |st.connecting| + Bit(st.armed) <= st.reconnectCount + starts
  }

  lemma WellformedStep(o: Options, st: State, step: Step)
    requires Wellformed(st)
    ensures Wellformed(Apply(o, st, step))
  {
  }

  lemma Sizes(a: set<nat>, id: nat)
    ensures |a - {id}| == |a| - Bit(id in a)
    ensures |a + {id}| == |a| + Bit(id !in a)
  {
    if id in a {
      assert a == (a - {id}) + {id};
      assert a + {id} == a;
    } else {
      assert a - {id} == a;
    }
  }

  /** Scheduling a reconnect after something in hand was lost puts a timer in its place, unless one is there. */
  lemma RescheduleConserves(o: Options, st: State, starts: nat)
    requires Wellformed(st) && InHand(st) + 1 <= starts
    requires st.connectCount + st.logins + |st.connecting| + Bit(st.armed) <= st.reconnectCount + starts
    ensures Conserved(ScheduleReconnect(st, o), starts)
  {
  }

  lemma OpenConserves(o: Options, st: State, id: nat, starts: nat)
    requires Wellformed(st) && Conserved(st, starts) && id in st.connecting
    ensures Conserved(AfterOpen(st, o, id), starts)
  {
    Sizes(st.connecting, id);
    Sizes(st.open, id);
  }

  lemma DropConserves(o: Options, st: State, id: nat, starts: nat)
    requires Wellformed(st) && Conserved(st, starts) && id in Live(st)
    ensures Conserved(ScheduleReconnect(Dropped(st, id), o), starts)
  {
    hide ScheduleReconnect;
    Sizes(st.connecting, id);
    Sizes(st.open, id);
    RescheduleConserves(o, Dropped(st, id), starts);
  }

  lemma ConservedStep(o: Options, st: State, step: Step, starts: nat)
    requires Wellformed(st) && Conserved(st, starts)
    ensures Conserved(Apply(o, st, step), starts + Bit(step == Start && !st.closed))
  {
    hide ScheduleReconnect, AfterOpen, Dropped, AfterLoginOk;
    if Possible(st, step) {
      match step
      case SocketOpen(id) => OpenConserves(o, st, id, starts);
      case SocketClose(id) => DropConserves(o, st, id, starts);
      case LoginOk => LoginConserves(st, starts);
      case LoginFail => RescheduleConserves(o, st.(logins := st.logins - 1), starts);
      case Start =>
      case TimerFires =>
      case CloseCall =>
    }
  }

  lemma LoginConserves(st: State, starts: nat)
    requires Wellformed(st) && Conserved(st, starts) && st.logins > 0
    ensures Conserved(AfterLoginOk(st), starts)
  {
    Sizes(st.connecting, st.sockets);
  }

  lemma {:induction false} ValidRun(o: Options, trace: seq<Step>)
    ensures Wellformed(Run(o, trace)) && Conserved(Run(o, trace), Early(trace))
    ensures Run(o, trace).closed <==> CloseCall in trace
    decreases |trace|
  {
    if trace != [] {
      hide Wellformed, Conserved, Apply;
      var front, last := trace[..|trace| - 1], trace[|trace| - 1];
      ValidRun(o, front);
      WellformedStep(o, Run(o, front), last);
      ConservedStep(o, Run(o, front), last, Early(front));
      ClosedStep(o, Run(o, front), last);
      assert trace == front + [last];
    }
  }

  lemma ClosedStep(o: Options, st: State, step: Step)
    ensures Apply(o, st, step).closed <==> st.closed || step == CloseCall
  {
  }

  /** A client started n times before it was closed never has more than n logins, sockets and armed timers together,
      and never none until then; reconnects were counted for all but the n first connections; once closed it arms
      no timer. */
  lemma InHandWithinStarts(o: Options, trace: seq<Step>)
    ensures var st := Run(o, trace);
            && InHand(st) <= Early(trace)
            && (Early(trace) > 0 && !st.closed ==> InHand(st) >= 1)
            && st.connectCount <= st.reconnectCount + Early(trace)
            && (st.closed ==> !st.armed)
  {
    hide Run;
    ValidRun(o, trace);
  }

  /** At most one of login, socket and armed timer after every step of the run. */
  ghost predicate OneInHandThroughout(o: Options, trace: seq<Step>)
    decreases |trace|
  {
    InHand(Run(o, trace)) <= 1 && (trace == [] || OneInHandThroughout(o, trace[..|trace| - 1]))
  }

  /** There is at most one login, socket or armed timer at any time exactly when the client was started at most once
      before it was closed. */
  lemma {:induction false} OneConnectionAtATime(o: Options, trace: seq<Step>)
    ensures OneInHandThroughout(o, trace) <==> Early(trace) <= 1
    decreases |trace|
  {
    hide Apply, InHand;
    InHandWithinStarts(o, trace);
    if trace != [] {
      var front, last := trace[..|trace| - 1], trace[|trace| - 1];
      OneConnectionAtATime(o, front);
      InHandWithinStarts(o, front);
      ValidRun(o, front);
      if Early(front) == 1 && Early(trace) == 2 {
        StartTakesInHand(o, Run(o, front));
      }
    }
  }

  lemma StartTakesInHand(o: Options, st: State)
    requires !st.closed
    ensures InHand(Apply(o, st, Start)) == InHand(st) + 1
  {
  }

  /** Started twice, a client can hold two sockets. */
  lemma TwoStartsTwoSockets(o: Options)
    ensures Run(o, [Start, Start, LoginOk, LoginOk, SocketOpen(0), SocketOpen(1)]).open == {0, 1}
  {
    hide Run;
    var t1 := [Start];
    var t2 := t1 + [Start];
    var t3 := t2 + [LoginOk];
    var t4 := t3 + [LoginOk];
    var t5 := t4 + [SocketOpen(0)];
    var t6 := t5 + [SocketOpen(1)];
    RunEmpty(o);
    RunMore(o, [], Start);
    assert [] + t1 == t1;
    RunMore(o, t1, Start);
    RunMore(o, t2, LoginOk);
    RunMore(o, t3, LoginOk);
    RunMore(o, t4, SocketOpen(0));
    RunMore(o, t5, SocketOpen(1));
    assert t6 == [Start, Start, LoginOk, LoginOk, SocketOpen(0), SocketOpen(1)];
  }

  lemma RunEmpty(o: Options)
    ensures Run(o, []) == Init(o)
  {
  }

  lemma RunMore(o: Options, trace: seq<Step>, step: Step)
    ensures Run(o, trace + [step]) == Apply(o, Run(o, trace), step)
  {
    assert (trace + [step])[..|trace|] == trace;
  }

  // ---------------------------------------------------------------------
  // Backoff

  function Pow2(k: nat): nat {
    if k == 0 then 1 else 2 * Pow2(k - 1)
  }

  /** The k-th delay after an opening, or after the start, counting from 0. */
  function Delay(o: Options, k: nat): nat {
    if k == 0 then o.base else if o.base * Pow2(k) <= o.max then o.base * Pow2(k) else o.max
  }

  /** Timers armed since the last opening. */
  function SinceOpen(h: seq<Event>): nat
    decreases |h|
  {
    if h == [] || h[|h| - 1] == Opened then 0 else 1 + SinceOpen(h[..|h| - 1])
  }

  ghost predicate DelaysLawful(o: Options, h: seq<Event>) {
    forall j :: 0 <= j < |h| && h[j].Armed? ==> h[j].delay == Delay(o, SinceOpen(h[..j]))
  }

  lemma DelayDoubles(o: Options, k: nat)
    ensures Min(Delay(o, k) * 2, o.max) == Delay(o, k + 1)
  {
    assert o.base * Pow2(k + 1) == 2 * (o.base * Pow2(k));
  }

  lemma HistoryMore(o: Options, h: seq<Event>, e: Event)
    requires DelaysLawful(o, h) && (e.Armed? ==> e.delay == Delay(o, SinceOpen(h)))
    ensures DelaysLawful(o, h + [e])
    ensures SinceOpen(h + [e]) == if e == Opened then 0 else SinceOpen(h) + 1
  {
    hide Delay, SinceOpen;
    var t := h + [e];
    assert t[..|h|] == h;
    forall j | 0 <= j < |t| && t[j].Armed? ensures t[j].delay == Delay(o, SinceOpen(t[..j])) {
      assert j < |h| ==> t[..j] == h[..j];
    }
    SinceMore(h, e);
  }

  lemma SinceMore(h: seq<Event>, e: Event)
    ensures SinceOpen(h + [e]) == if e == Opened then 0 else SinceOpen(h) + 1
  {
    assert (h + [e])[..|h|] == h;
  }

  lemma BackoffStep(o: Options, st: State, step: Step)
    requires DelaysLawful(o, st.history) && st.backoffMs == Delay(o, SinceOpen(st.history))
    ensures var after := Apply(o, st, step);
            DelaysLawful(o, after.history) && after.backoffMs == Delay(o, SinceOpen(after.history))
  {
    hide DelaysLawful, Delay, SinceOpen;
    HistoryMore(o, st.history, Opened);
    HistoryMore(o, st.history, Armed(st.backoffMs));
    DelayDoubles(o, SinceOpen(st.history));
    DelayZero(o);
  }

  lemma DelayZero(o: Options)
    ensures Delay(o, 0) == o.base
  {
  }

  /** Every timer a run arms follows the law, counting from the last connection opened before it. */
  lemma {:induction false} BackoffLaw(o: Options, trace: seq<Step>)
    ensures var st := Run(o, trace);
            DelaysLawful(o, st.history) && st.backoffMs == Delay(o, SinceOpen(st.history))
    decreases |trace|
  {
    if trace != [] {
      hide DelaysLawful, Delay, SinceOpen, Apply;
      BackoffLaw(o, trace[..|trace| - 1]);
      BackoffStep(o, Run(o, trace[..|trace| - 1]), trace[|trace| - 1]);
    }
  }

  function OpenedIn(h: seq<Event>): nat
    decreases |h|
  {
    if h == [] then 0 else OpenedIn(h[..|h| - 1]) + Bit(h[|h| - 1] == Opened)
  }

  lemma NoneOpened()
    ensures OpenedIn([]) == 0
  {
  }

  lemma OneMoreEvent(h: seq<Event>, e: Event)
    ensures OpenedIn(h + [e]) == OpenedIn(h) + Bit(e == Opened)
  {
    assert (h + [e])[..|h|] == h;
  }

  ghost predicate Counted(st: State) {
    st.connectCount == OpenedIn(st.history) && st.connectCount + st.reconnectCount == |st.history|
  }

  lemma CountedReschedule(o: Options, st: State)
    requires Counted(st)
    ensures Counted(ScheduleReconnect(st, o))
  {
    hide OpenedIn;
    OneMoreEvent(st.history, Armed(st.backoffMs));
  }

  lemma CountedStep(o: Options, st: State, step: Step)
    requires Counted(st)
    ensures Counted(Apply(o, st, step))
  {
    hide OpenedIn, ScheduleReconnect;
    if Possible(st, step) {
      match step
      case SocketOpen(_) => OneMoreEvent(st.history, Opened);
      case SocketClose(id) => CountedReschedule(o, Dropped(st, id));
      case LoginFail => CountedReschedule(o, st.(logins := st.logins - 1));
      case _ =>
    }
  }

  /** The two counters of the statistics count the connections opened and the timers armed. */
  lemma {:induction false} CountersCountHistory(o: Options, trace: seq<Step>)
    ensures Counted(Run(o, trace))
    decreases |trace|
  {
    if trace != [] {
      hide Counted, Apply;
      CountersCountHistory(o, trace[..|trace| - 1]);
      CountedStep(o, Run(o, trace[..|trace| - 1]), trace[|trace| - 1]);
    } else {
      NoneOpened();
    }
  }

  /** The law is min(base * 2^k, max) for every k exactly when the base does not exceed the cap; else the first
      delay after an opening is the base, above the cap. */
  lemma CapHoldsFromTheFirst(o: Options)
    ensures (forall k: nat :: Delay(o, k) == if o.base * Pow2(k) <= o.max then o.base * Pow2(k) else o.max)
            <==> o.base <= o.max
    ensures forall k: nat :: k > 0 ==> Delay(o, k) <= o.max
  {
    assert Pow2(0) == 1;
    if o.base > o.max {
      assert Delay(o, 0) == o.base * Pow2(0) > o.max;
    }
  }

  // ---------------------------------------------------------------------
  // After close()

  /** Closed, with no login left to make a socket and none left that could open. */
  ghost predicate Winding(st: State) {
    st.closed && st.logins == 0 && !st.armed && st.connecting <= st.closing
  }

  lemma WindingStep(o: Options, st: State, step: Step)
    requires Winding(st)
    ensures var after := Apply(o, st, step);
            && Winding(after) && after.connectCount == st.connectCount
            && after.history == st.history && Live(after) <= Live(st)
  {
  }

  lemma {:induction false} WindsDown(o: Options, trace: seq<Step>, more: seq<Step>)
    requires Winding(Run(o, trace))
    ensures var st := Run(o, trace + more);
            && Winding(st) && st.connectCount == Run(o, trace).connectCount
            && st.history == Run(o, trace).history && Live(st) <= Live(Run(o, trace))
    decreases |more|
  {
    hide Run, Winding, Apply;
    if more == [] {
      assert trace + more == trace;
    } else {
      var front := more[..|more| - 1];
      WindsDown(o, trace, front);
      assert trace + more == trace + front + [more[|more| - 1]];
      RunMore(o, trace + front, more[|more| - 1]);
      WindingStep(o, Run(o, trace + front), more[|more| - 1]);
    }
  }

  /** close() can be final: no login is in flight, and a socket still connecting was told to close or is this.ws. */
  predicate CloseReachesAll(st: State) {
    st.logins == 0 && forall id <- st.connecting :: id in st.closing || st.ws == Some(id)
  }

  /** close() is final - no connection ever opens after it - exactly when no login was in flight and it reaches every
      socket still connecting. */
  lemma CloseIsFinalExactly(o: Options, trace: seq<Step>)
    ensures (forall more :: Run(o, trace + [CloseCall] + more).connectCount == Run(o, trace).connectCount)
            <==> CloseReachesAll(Run(o, trace))
  {
    hide Run, Wellformed, Conserved, Winding;
    var closed := trace + [CloseCall];
    var st := Run(o, trace);
    RunMore(o, trace, CloseCall);
    ValidRun(o, closed);
    CloseWinds(o, trace);
    if st.logins > 0 {
      LoginOutlivesClose(o, closed);
      assert Run(o, closed + [LoginOk, SocketOpen(Run(o, closed).sockets)]).connectCount != st.connectCount;
    } else if id :| id in st.connecting && id !in st.closing && st.ws != Some(id) {
      RunMore(o, closed, SocketOpen(id));
      assert Run(o, closed + [SocketOpen(id)]).connectCount != st.connectCount;
    } else {
      forall more ensures Run(o, closed + more).connectCount == st.connectCount {
        WindsDown(o, closed, more);
      }
    }
  }

  lemma CloseWinds(o: Options, trace: seq<Step>)
    ensures CloseReachesAll(Run(o, trace)) ==> Winding(Run(o, trace + [CloseCall]))
  {
    hide Run;
    RunMore(o, trace, CloseCall);
    ValidRun(o, trace);
  }

  lemma LoginOutlivesClose(o: Options, closed: seq<Step>)
    requires Wellformed(Run(o, closed)) && Run(o, closed).logins > 0
    ensures var st := Run(o, closed); var end := Run(o, closed + [LoginOk, SocketOpen(st.sockets)]);
            && end.connectCount == st.connectCount + 1 && st.sockets in end.open && st.sockets !in end.closing
  {
    hide Run;
    var st := Run(o, closed);
    RunMore(o, closed, LoginOk);
    RunMore(o, closed + [LoginOk], SocketOpen(st.sockets));
    assert closed + [LoginOk] + [SocketOpen(st.sockets)] == closed + [LoginOk, SocketOpen(st.sockets)];
  }

  /** close() reaches all that is or may come to life: no login is in flight, and every live socket was told to close
      or is this.ws. */
  predicate CloseReachesLive(st: State) {
    st.logins == 0 && forall id <- Live(st) :: id in st.closing || st.ws == Some(id)
  }

  lemma EndingStep(o: Options, st: State, step: Step)
    requires Winding(st) && Live(st) <= st.closing
    ensures var after := Apply(o, st, step); Winding(after) && Live(after) <= after.closing
  {
  }

  lemma {:induction false} EndsAll(o: Options, trace: seq<Step>, more: seq<Step>)
    requires Winding(Run(o, trace)) && Live(Run(o, trace)) <= Run(o, trace).closing
    ensures var end := Run(o, trace + more); Winding(end) && Live(end) <= end.closing
    decreases |more|
  {
    hide Run, Winding, Apply, Live;
    if more == [] {
      assert trace + more == trace;
    } else {
      var front, last := more[..|more| - 1], more[|more| - 1];
      EndsAll(o, trace, front);
      assert trace + more == trace + front + [last];
      RunMore(o, trace + front, last);
      EndingStep(o, Run(o, trace + front), last);
    }
  }

  /** After close() every live socket has been told to close, at any time, exactly when no login was in flight and it
      reaches every live socket. */
  lemma CloseEndsAllExactly(o: Options, trace: seq<Step>)
    ensures (forall more :: var end := Run(o, trace + [CloseCall] + more); Live(end) <= end.closing)
            <==> CloseReachesLive(Run(o, trace))
  {
    hide Run;
    var closed := trace + [CloseCall];
    RunMore(o, trace, CloseCall);
    ValidRun(o, trace);
    assert closed + [] == closed;
    if Run(o, trace).logins > 0 {
      ValidRun(o, closed);
      LoginOutlivesClose(o, closed);
      var end := Run(o, closed + [LoginOk, SocketOpen(Run(o, closed).sockets)]);
      assert !(Live(end) <= end.closing);
    } else if CloseReachesLive(Run(o, trace)) {
      forall more ensures var end := Run(o, closed + more); Live(end) <= end.closing {
        EndsAll(o, closed, more);
      }
    } else {
      assert var end := Run(o, closed + []); !(Live(end) <= end.closing);
    }
  }

  /** Started at most once before close(), this.ws is the only live socket, so only a login in flight outlives
      close(). */
  lemma {:induction false} OneStartHoldsItsSocket(o: Options, trace: seq<Step>)
    requires Early(trace) <= 1
    ensures var st := Run(o, trace);
            (forall id <- Live(st) :: st.ws == Some(id)) && (CloseReachesAll(st) <==> st.logins == 0)
    decreases |trace|
  {
    if trace != [] {
      var front, last := trace[..|trace| - 1], trace[|trace| - 1];
      var st := Run(o, front);
      OneStartHoldsItsSocket(o, front);
      ValidRun(o, front);
      if last == LoginOk && st.logins > 0 {
        assert |st.connecting| == 0 && |st.open| == 0;
      }
    }
  }

  // ---------------------------------------------------------------------
  // The connected flag

  predicate Truthful(st: State) {
    st.connected <==> st.open != {}
  }

  /** A socket drops while another is open. */
  predicate DropsBesideOpen(st: State, step: Step) {
    step.SocketClose? && step.id in Live(st) && st.open - {step.id} != {}
  }

  lemma TruthfulStep(o: Options, st: State, step: Step)
    requires Truthful(st)
    ensures Truthful(Apply(o, st, step)) <==> !DropsBesideOpen(st, step)
  {
  }

  ghost predicate TruthfulThroughout(o: Options, trace: seq<Step>)
    decreases |trace|
  {
    Truthful(Run(o, trace)) && (trace == [] || TruthfulThroughout(o, trace[..|trace| - 1]))
  }

  ghost predicate NeverDropsBesideOpen(o: Options, trace: seq<Step>)
    decreases |trace|
  {
    trace == []
    || (NeverDropsBesideOpen(o, trace[..|trace| - 1])
        && !DropsBesideOpen(Run(o, trace[..|trace| - 1]), trace[|trace| - 1]))
  }

  /** `connected` tells throughout a run whether a socket is open exactly when no socket ever drops while another is
      open; after at most one start before close() none does. */
  lemma {:induction false} ConnectedTellsTheTruth(o: Options, trace: seq<Step>)
    ensures TruthfulThroughout(o, trace) <==> NeverDropsBesideOpen(o, trace)
    ensures Early(trace) <= 1 ==> TruthfulThroughout(o, trace)
    decreases |trace|
  {
    hide Apply;
    if trace != [] {
      var front, last := trace[..|trace| - 1], trace[|trace| - 1];
      ConnectedTellsTheTruth(o, front);
      if TruthfulThroughout(o, front) {
        TruthfulStep(o, Run(o, front), last);
      }
      if Early(trace) <= 1 {
        OneStartHoldsItsSocket(o, front);
        assert !DropsBesideOpen(Run(o, front), last);
      }
    }
  }

  /** A failed login and a closed socket are both followed by a reconnect, unless the client is closed or one is
      scheduled: a timer is armed for the delay in force, which is doubled up to the cap. */
  lemma FailureSchedules(o: Options, st: State, id: nat)
    ensures st.logins > 0 ==> Schedules(o, st.(logins := st.logins - 1), Apply(o, st, LoginFail))
    ensures id in st.connecting + st.open ==>
              Schedules(o, st.(connecting := st.connecting - {id}, open := st.open - {id}, closing := st.closing - {id},
                               connected := false),
                        Apply(o, st, SocketClose(id)))
  {
  }

  predicate Schedules(o: Options, st: State, after: State) {
    if st.closed || st.reconnectTimer then after == st
    else
      && after == st.(reconnectCount := st.reconnectCount + 1, reconnectTimer := true, armed := true,
                      backoffMs := after.backoffMs, history := st.history + [Armed(st.backoffMs)])
      && after.backoffMs == if 2 * st.backoffMs <= o.max then 2 * st.backoffMs else o.max
  }

  /** After two starts the flag can lie: one of two open sockets drops, and the other is not counted. */
  lemma ConnectedLies(o: Options)
    ensures var st := Run(o, [Start, Start, LoginOk, LoginOk, SocketOpen(0), SocketOpen(1), SocketClose(0)]);
            st.open == {1} && !st.connected
  {
    hide Run;
    var t := [Start, Start, LoginOk, LoginOk, SocketOpen(0), SocketOpen(1)];
    TwoStartsTwoSockets(o);
    RunMore(o, t, SocketClose(0));
    assert t + [SocketClose(0)] == [Start, Start, LoginOk, LoginOk, SocketOpen(0), SocketOpen(1), SocketClose(0)];
  }
}
