/** Who is told what on joining, and whose history the idle tick may delete. */
module BrokerPruning {
  import opened Common
  import opened Broker
  import opened BrokerRuns

  // ---------------------------------------------------------------------
  // The status a late joiner is told

  /** The status a broadcast event reports, when it is a session_status event. */
  function StatusIn(e: Event): Option<string> {
    if Field(e, "type") == Str("session_status") && Field(e, "status").Str? then Some(Field(e, "status").s) else None
  }

  /** The status in the last session_status broadcast for `s`; "idle" before the first. */
  function LastStatus(wire: seq<Cast>, s: SessionId): string
    decreases |wire|
  {
    if wire == [] then "idle"
    else
      var last := wire[|wire| - 1];
      if last.session == s && StatusIn(last.event).Some? then StatusIn(last.event).value
      else LastStatus(wire[..|wire| - 1], s)
  }

  ghost predicate ToldLast(st: State, s: SessionId) {
    Told(st, s) == LastStatus(st.wire, s)
  }

  /** send_event can itself broadcast a session_status event: by its type, or by a payload that replaces it. */
  predicate Forges(step: Step, s: SessionId) {
    step.SendEvent? && step.chat == s && StatusIn(SentEvent(step.chat, step.kind, step.data)).Some?
  }

  lemma LastStatusAppend(wire: seq<Cast>, c: Cast, s: SessionId)
    ensures LastStatus(wire + [c], s)
            == if c.session == s && StatusIn(c.event).Some? then StatusIn(c.event).value else LastStatus(wire, s)
  {
    assert (wire + [c])[..|wire|] == wire;
  }

  lemma QuietCast(st: State, c: Cast, s: SessionId)
    requires StatusIn(c.event).None?
    ensures ToldLast(AfterBroadcast(st, c), s) == ToldLast(st, s)
  {
    LastStatusAppend(st.wire, c, s);
  }

  lemma StatusCast(st: State, session: SessionId, status: string, s: SessionId)
    requires status != ""
    ensures ToldLast(AfterSetStatus(st, session, status), s) == (session == s || ToldLast(st, s))
  {
    LastStatusAppend(st.wire, Cast(session, StatusEvent(session, status), false), s);
  }

  lemma Told2(st: State, a: Cast, b: Cast, s: SessionId)
    requires StatusIn(a.event).None? && StatusIn(b.event).None?
    ensures ToldLast(AfterBroadcast(AfterBroadcast(st, a), b), s) == ToldLast(st, s)
  {
    QuietCast(st, a, s);
    QuietCast(AfterBroadcast(st, a), b, s);
  }

  lemma NoStatusIn(e: Event, kind: string)
    requires Field(e, "type") == Str(kind) && kind != "session_status"
    ensures StatusIn(e).None?
  {}

  lemma PlainMessages(session: SessionId, id: string, role: string, text: Json)
    ensures StatusIn(MessageStart(session, id, role)).None?
    ensures StatusIn(MessageUpdate(session, id, text)).None?
    ensures StatusIn(MessageEnd(session, id)).None?
  {
    NoStatusIn(MessageStart(session, id, role), "message_start");
    NoStatusIn(MessageUpdate(session, id, text), "message_update");
    NoStatusIn(MessageEnd(session, id), "message_end");
  }

  lemma PlainAgent(session: SessionId, a: Json, b: Json, c: Json)
    ensures StatusIn(AgentStart(session, a)).None?
    ensures StatusIn(AgentEnd(session, a, b, c)).None?
  {
    NoStatusIn(AgentStart(session, a), "agent_start");
    NoStatusIn(AgentEnd(session, a, b, c), "agent_end");
  }

  lemma PlainTool(session: SessionId, id: string, a: Json, b: Json, c: Json)
    ensures StatusIn(ToolStart(session, id, a, b, c)).None?
    ensures StatusIn(ToolEnd(session, id, a, b, c)).None?
  {
    NoStatusIn(ToolStart(session, id, a, b, c), "tool_execution_start");
    NoStatusIn(ToolEnd(session, id, a, b, c), "tool_execution_end");
  }

  lemma PlainOther(session: SessionId, x: string, a: Json, b: Json, c: Json, d: Json)
    ensures StatusIn(SessionInit(session, a, b, c, d)).None?
    ensures StatusIn(StatusNoteEvent(session, x, a)).None?
    ensures StatusIn(PermissionRequest(session, x, a, b, c)).None?
    ensures StatusIn(DeliveryError(session, x)).None?
  {
    NoStatusIn(SessionInit(session, a, b, c, d), "session_init");
    NoStatusIn(StatusNoteEvent(session, x, a), "status");
    NoStatusIn(PermissionRequest(session, x, a, b, c), "permission_request");
    NoStatusIn(DeliveryError(session, x), "error");
  }

  lemma SilentStatus(st: State, after: State, s: SessionId)
    requires after.wire == st.wire
    requires (s in after.status) == (s in st.status) && (s in st.status ==> after.status[s] == st.status[s])
    ensures ToldLast(after, s) == ToldLast(st, s)
  {}

  /** The step ends with setStatus for `s`. */
  predicate Sets(step: Step, s: SessionId) {
    match step
    case Reply(chat, _, _, _) => chat == s
    case Prompt(_, session, _) => session == s
    case SessionStart(session, _, _, _, _) => session == s
    case Stop(session, _, _, _) => session == s
    case _ => false
  }

  /** Whether what a joiner would be told is the last broadcast status, after a step that starts from `st`. */
  ghost predicate ToldAfter(st: State, step: Step, s: SessionId) {
    if Prunes(st, step, s) then LastStatus(st.wire, s) == "idle"
    else if Forges(step, s) then StatusIn(SentEvent(step.chat, step.kind, step.data)).value == Told(st, s)
    else Sets(step, s) || ToldLast(st, s)
  }

  /** One step: setStatus makes what a joiner would be told the last broadcast status, a forged session_status event
      does so exactly when its value is what is told already, pruning when the last status was idle, and every
      other step leaves it as it was. */
  lemma StatusStep(st: State, step: Step, s: SessionId)
    ensures ToldLast(Apply(st, step), s) <==> ToldAfter(st, step, s)
  {
    if Prunes(st, step, s) {
      PruneStatus(st, step, s);
    } else {
      UnprunedStatusStep(st, step, s);
    }
  }

  lemma PruneStatus(st: State, step: Step, s: SessionId)
    requires Prunes(st, step, s)
    ensures ToldLast(Apply(st, step), s) <==> LastStatus(st.wire, s) == "idle"
  {
  }

  lemma UnprunedStatusStep(st: State, step: Step, s: SessionId)
    requires !Prunes(st, step, s)
    ensures ToldLast(Apply(st, step), s) <==> ToldAfter(st, step, s)
  {
    hide AfterBroadcast, AfterSetStatus, StatusIn, ToldLast, Told, Base, AfterOpen, AfterClose, AfterPrune, Answer;
    hide MessageStart, MessageUpdate, MessageEnd, AgentStart, AgentEnd, SessionInit, ToolStart, ToolEnd;
    hide StatusNoteEvent, PermissionRequest, DeliveryError, PromptAck, HistoryAnswer, SentEvent, Slice, Hist;
    match step
    case Reply(chat, text, msgId, now) =>
      PlainMessages(chat, msgId, "assistant", text);
      PlainAgent(chat, Str("completed"), Undefined, Num(now));
      FourThenStatus(st, chat, Cast(chat, MessageStart(chat, msgId, "assistant"), true),
                     Cast(chat, MessageUpdate(chat, msgId, text), true), Cast(chat, MessageEnd(chat, msgId), true),
                     Cast(chat, AgentEnd(chat, Str("completed"), Undefined, Num(now)), true), s);
    case UserPrompt(session, msgId, text, timestamp) =>
      PlainMessages(session, msgId, "user", text);
      PlainAgent(session, timestamp, Undefined, Undefined);
      FourQuiet(st, Cast(session, AgentStart(session, timestamp), true),
                Cast(session, MessageStart(session, msgId, "user"), true),
                Cast(session, MessageUpdate(session, msgId, text), true),
                Cast(session, MessageEnd(session, msgId), true), s);
    case _ => OtherStatusStep(st, step, s);
  }

  lemma FourQuiet(st: State, a: Cast, b: Cast, c: Cast, d: Cast, s: SessionId)
    requires StatusIn(a.event).None? && StatusIn(b.event).None? && StatusIn(c.event).None? && StatusIn(d.event).None?
    ensures ToldLast(AfterBroadcast(AfterBroadcast(AfterBroadcast(AfterBroadcast(st, a), b), c), d), s)
            == ToldLast(st, s)
  {
    hide AfterBroadcast, StatusIn, ToldLast;
    Told2(st, a, b, s);
    Told2(AfterBroadcast(AfterBroadcast(st, a), b), c, d, s);
  }

  lemma FourThenStatus(st: State, chat: SessionId, a: Cast, b: Cast, c: Cast, d: Cast, s: SessionId)
    requires StatusIn(a.event).None? && StatusIn(b.event).None? && StatusIn(c.event).None? && StatusIn(d.event).None?
    ensures var s4 := AfterBroadcast(AfterBroadcast(AfterBroadcast(AfterBroadcast(st, a), b), c), d);
            ToldLast(AfterSetStatus(s4, chat, "idle"), s) == (chat == s || ToldLast(st, s))
  {
    hide AfterBroadcast, AfterSetStatus, StatusIn, ToldLast;
    FourQuiet(st, a, b, c, d, s);
    StatusCast(AfterBroadcast(AfterBroadcast(AfterBroadcast(AfterBroadcast(st, a), b), c), d), chat, "idle", s);
  }

  lemma SendStatus(st: State, after: State, c: Cast, s: SessionId)
    requires after.status == st.status && after.wire == st.wire + [c]
    ensures ToldLast(after, s) <==> if c.session == s && StatusIn(c.event).Some?
                                    then StatusIn(c.event).value == Told(st, s) else ToldLast(st, s)
  {
    LastStatusAppend(st.wire, c, s);
  }

  lemma SessionStartStatus(st: State, session: SessionId, model: Json, init: Event, s: SessionId)
    requires StatusIn(init).None?
    ensures ToldLast(AfterSessionStart(st, session, model, init), s) == (session == s || ToldLast(st, s))
  {
    hide AfterBroadcast, AfterSetStatus, StatusIn, ToldLast;
    var s1 := st.(models := if Truthy(model) then st.models[session := model] else st.models);
    SilentStatus(st, s1, s);
    QuietCast(s1, Cast(session, init, true), s);
    StatusCast(AfterBroadcast(s1, Cast(session, init, true)), session, "idle", s);
  }

  lemma ToolUseStatus(st: State, session: SessionId, tool: Json, started: bool, start: Event, end: Event, s: SessionId)
    requires StatusIn(start).None? && StatusIn(end).None?
    ensures ToldLast(AfterToolUse(st, session, tool, started, start, end), s) == ToldLast(st, s)
  {
    hide AfterBroadcast, StatusIn, ToldLast;
    var s1 := st.(lastTool := if Truthy(tool) then st.lastTool[session := tool] else st.lastTool);
    SilentStatus(st, s1, s);
    QuietCast(s1, Cast(session, start, true), s);
    QuietCast(s1, Cast(session, end, true), s);
    QuietCast(AfterBroadcast(s1, Cast(session, start, true)), Cast(session, end, true), s);
  }

  lemma PromptStatus(st: State, ws: Socket, session: SessionId, start: Event, ack: Event, s: SessionId)
    requires StatusIn(start).None?
    ensures var s1 := AfterSetStatus(st, session, "streaming");
            ToldLast(Answer(AfterBroadcast(s1, Cast(session, start, true)), ws, ack), s)
            == (session == s || ToldLast(st, s))
  {
    hide AfterBroadcast, AfterSetStatus, StatusIn, ToldLast, Send;
    var s1 := AfterSetStatus(st, session, "streaming");
    var s2 := AfterBroadcast(s1, Cast(session, start, true));
    StatusCast(st, session, "streaming", s);
    QuietCast(s1, Cast(session, start, true), s);
    SilentStatus(s2, Answer(s2, ws, ack), s);
  }

  lemma StopStatus(st: State, session: SessionId, end: Event, s: SessionId)
    requires StatusIn(end).None?
    ensures ToldLast(AfterSetStatus(AfterBroadcast(st, Cast(session, end, true)), session, "idle"), s)
            == (session == s || ToldLast(st, s))
  {
    hide AfterBroadcast, AfterSetStatus, StatusIn, ToldLast;
    QuietCast(st, Cast(session, end, true), s);
    StatusCast(AfterBroadcast(st, Cast(session, end, true)), session, "idle", s);
  }

  lemma FailureStatus(st: State, now: int, c: Cast, s: SessionId)
    requires StatusIn(c.event).None?
    ensures ToldLast(st.(lastNotifErrorAt := now), s) == ToldLast(st, s)
    ensures ToldLast(AfterBroadcast(st.(lastNotifErrorAt := now), c), s) == ToldLast(st, s)
  {
    hide AfterBroadcast, StatusIn, ToldLast;
    SilentStatus(st, st.(lastNotifErrorAt := now), s);
    QuietCast(st.(lastNotifErrorAt := now), c, s);
  }

  lemma OtherStatusStep(st: State, step: Step, s: SessionId)
    requires !Prunes(st, step, s) && !step.Reply? && !step.UserPrompt?
    ensures ToldLast(Apply(st, step), s) <==> ToldAfter(st, step, s)
  {
    hide AfterSetStatus, AfterSessionStart, AfterToolUse, StatusIn, ToldLast, Told, Base, Send;
    hide MessageStart, MessageUpdate, MessageEnd, AgentStart, AgentEnd, SessionInit, ToolStart, ToolEnd;
    hide StatusNoteEvent, PermissionRequest, DeliveryError, PromptAck, HistoryAnswer, SentEvent, Slice, Hist;
    match step
    case StatusNote(chat, note, detail) =>
      PlainOther(chat, note, detail, Undefined, Undefined, Undefined);
      QuietCast(st, Cast(chat, StatusNoteEvent(chat, note, detail), false), s);
    case AskPermission(chat, requestId, tool, description, args) =>
      PlainOther(chat, requestId, tool, description, args, Undefined);
      QuietCast(st, Cast(chat, PermissionRequest(chat, requestId, tool, description, args), false), s);
    case SendEvent(chat, kind, data) =>
      SendStatus(st, Apply(st, step), Cast(chat, SentEvent(chat, kind, data), true), s);
    case Prompt(ws, session, now) =>
      PlainAgent(session, Num(now), Undefined, Undefined);
      PromptStatus(st, ws, session, AgentStart(session, Num(now)), PromptAck(session, now), s);
    case NotifyFailed(session, message, now) =>
      PlainOther(session, message, Undefined, Undefined, Undefined, Undefined);
      FailureStatus(st, now, Cast(session, DeliveryError(session, message), false), s);
    case SessionStart(session, model, cwd, tools, timestamp) =>
      PlainOther(session, "", model, cwd, tools, timestamp);
      SessionStartStatus(st, session, model, SessionInit(session, model, cwd, tools, timestamp), s);
    case PostToolUse(session, callId, tool, input, output, error, timestamp) =>
      PlainTool(session, callId, tool, input, timestamp);
      PlainTool(session, callId, output, error, timestamp);
      ToolUseStatus(st, session, tool, output != Undefined && !Truthy(error),
                    ToolStart(session, callId, tool, input, timestamp),
                    ToolEnd(session, callId, output, error, timestamp), s);
    case Stop(session, usage, reason, timestamp) =>
      PlainAgent(session, reason, usage, timestamp);
      StopStatus(st, session, AgentEnd(session, reason, usage, timestamp), s);
    case _ =>
      SilentStatus(st, Apply(st, step), s);
  }

  /** The last step of the run that changes the status of `s` is a forged event with another value than was told, or
      a tick that pruned `s` when its last status was not idle. */
  ghost predicate Misled(trace: seq<Step>, s: SessionId)
    decreases |trace|
  {
    trace != []
    && (var before, step := trace[..|trace| - 1], trace[|trace| - 1];
        if Prunes(Run(INIT, before), step, s) then LastStatus(Run(INIT, before).wire, s) != "idle"
        else if Forges(step, s)
        then StatusIn(SentEvent(step.chat, step.kind, step.data)).value != Told(Run(INIT, before), s)
        else !Sets(step, s) && Misled(before, s))
  }

  lemma {:induction false} StatusRun(trace: seq<Step>, s: SessionId)
    ensures ToldLast(Run(INIT, trace), s) <==> !Misled(trace, s)
    decreases |trace|
  {
    hide Apply, ToldLast, Told, StatusIn, LastStatus, Sets, Forges, Prunes;
    if trace == [] {
      InitToldLast(s);
    } else {
      var n := |trace| - 1;
      StatusRun(trace[..n], s);
      StatusStep(Run(INIT, trace[..n]), trace[n], s);
    }
  }

  lemma InitToldLast(s: SessionId)
    ensures ToldLast(INIT, s)
  {
  }

  lemma StatusEventsDiffer(s: SessionId, x: string, y: string)
    ensures StatusEvent(s, x) == StatusEvent(s, y) <==> x == y
  {
    assert StatusEvent(s, x)["status"] == Str(x) && StatusEvent(s, y)["status"] == Str(y);
  }

  /** A late joiner is told the status of the last session_status broadcast for its session, exactly unless it is
      misled by a forged event or by pruning. */
  lemma LateJoiner(trace: seq<Step>, ws: Socket)
    ensures var st := Run(INIT, trace);
            Got(Apply(st, Open(ws)).inbox, ws)
            == Got(st.inbox, ws) + [Direct(StatusEvent(ws.session, LastStatus(st.wire, ws.session)))]
            <==> !Misled(trace, ws.session)
  {
    hide Run, StatusEvent, LastStatus, Misled;
    var st := Run(INIT, trace);
    StatusRun(trace, ws.session);
    StatusEventsDiffer(ws.session, LastStatus(st.wire, ws.session), Told(st, ws.session));
    var got := Got(Apply(st, Open(ws)).inbox, ws);
    assert got == Got(st.inbox, ws) + [Direct(StatusEvent(ws.session, Told(st, ws.session)))];
    assert got[|Got(st.inbox, ws)|] == Direct(StatusEvent(ws.session, Told(st, ws.session)));
  }

  /** With a forged event the promise fails: the session saw "done" broadcast, the joiner is told "idle". */
  lemma ForgedStatusMisleads()
    ensures var st := Run(INIT, [SendEvent("s1", "session_status", map["status" := Str("done")])]);
            LastStatus(st.wire, "s1") == "done" && Told(st, "s1") == "idle"
  {
    var step := SendEvent("s1", "session_status", map["status" := Str("done")]);
    var e := SentEvent("s1", "session_status", map["status" := Str("done")]);
    assert [step][..0] == [];
    assert Run(INIT, [step]) == Apply(INIT, step);
    assert StatusIn(e) == Some("done");
    LastStatusAppend(INIT.wire, Cast("s1", e, true), "s1");
  }

  // ---------------------------------------------------------------------
  // Who is connected, from the trace alone

  /** Sockets for `s` that the trace opened and has not closed since. */
  function Present(trace: seq<Step>, s: SessionId): set<Socket>
    decreases |trace|
  {
    if trace == [] then {}
    else
      var before := Present(trace[..|trace| - 1], s);
      match trace[|trace| - 1]
      case Open(ws) => if ws.session == s then before + {ws} else before
      case Close(ws, _) => before - {ws}
      case _ => before
  }

  /** The stored client sets are exactly the sockets opened and not closed since. */
  ghost predicate SeatsMatch(st: State, trace: seq<Step>) {
    && (forall s :: !IsGlobal(s) ==> ClientsOf(st, s) == Present(trace, s))
    && st.globals == Present(trace, "default") + Present(trace, "")
  }

  lemma PresentOwn(trace: seq<Step>, s: SessionId)
    ensures forall c <- Present(trace, s) :: c.session == s
    decreases |trace|
  {
    if trace != [] {
      PresentOwn(trace[..|trace| - 1], s);
    }
  }

  lemma PresentLast(before: seq<Step>, step: Step, s: SessionId)
    ensures Present(before + [step], s)
            == if step.Open? && step.ws.session == s then Present(before, s) + {step.ws}
               else if step.Close? then Present(before, s) - {step.ws}
               else Present(before, s)
  {
    assert (before + [step])[..|before|] == before;
  }

  lemma SeatsOpen(st: State, before: seq<Step>, ws: Socket)
    requires SeatsMatch(st, before)
    ensures SeatsMatch(AfterOpen(st, ws), before + [Open(ws)])
  {
    hide Send, StatusEvent, Told, Present;
    forall s ensures Present(before + [Open(ws)], s) == Present(before, s) + (if ws.session == s then {ws} else {}) {
      PresentLast(before, Open(ws), s);
    }
  }

  lemma SeatsClose(st: State, before: seq<Step>, ws: Socket, now: int)
    requires Valid(st) && SeatsMatch(st, before)
    ensures SeatsMatch(AfterClose(st, ws, now), before + [Close(ws, now)])
  {
    hide Present;
    forall s
      ensures Present(before + [Close(ws, now)], s) == Present(before, s) - {ws}
      ensures forall c <- Present(before, s) :: c.session == s
    {
      PresentLast(before, Close(ws, now), s);
      PresentOwn(before, s);
    }
  }

  lemma SeatsStill(st: State, after: State, before: seq<Step>, step: Step)
    requires SeatsMatch(st, before) && !step.Open? && !step.Close?
    requires after.clients == st.clients && after.globals == st.globals
    ensures SeatsMatch(after, before + [step])
  {
    hide Present;
    forall s ensures Present(before + [step], s) == Present(before, s) {
      PresentLast(before, step, s);
    }
  }

  lemma SeatsStep(st: State, before: seq<Step>, step: Step)
    requires Valid(st) && SeatsMatch(st, before)
    ensures SeatsMatch(Apply(st, step), before + [step])
  {
    hide SeatsMatch, AfterOpen, AfterClose, Expired, Valid, Present;
    match step
    case Open(ws) => SeatsOpen(st, before, ws);
    case Close(ws, now) => SeatsClose(st, before, ws, now);
    case Prune(now) => SeatsStill(st, Apply(st, step), before, step);
    case _ =>
      StepExtends(st, step);
      SeatsStill(st, Apply(st, step), before, step);
  }

  lemma {:induction false} SeatsRun(trace: seq<Step>)
    ensures Valid(Run(INIT, trace)) && SeatsMatch(Run(INIT, trace), trace)
    decreases |trace|
  {
    hide Apply, Valid;
    ValidInit();
    ValidRun(INIT, trace);
    if trace != [] {
      var n := |trace| - 1;
      SeatsRun(trace[..n]);
      hide SeatsMatch;
      SeatsStep(Run(INIT, trace[..n]), trace[..n], trace[n]);
      assert trace[..n] + [trace[n]] == trace;
    }
  }

  lemma ValidInit()
    ensures Valid(INIT)
  {}

  // ---------------------------------------------------------------------
  // When a session was last left, from the trace alone

  /** Step `i` is the close that left `s` with no client, and nobody has opened it since. */
  ghost predicate LeftAt(trace: seq<Step>, i: int, s: SessionId) {
    && 0 <= i < |trace| && trace[i].Close?
    && Present(trace[..i], s) != {} && Present(trace[..i + 1], s) == {}
    && (forall j :: i < j < |trace| ==> !(trace[j].Open? && trace[j].ws.session == s))
  }

  /** ... and no tick since has found it expired. */
  ghost predicate IdleSince(trace: seq<Step>, i: int, s: SessionId) {
    && LeftAt(trace, i, s)
    && (forall j :: i < j < |trace| && trace[j].Prune? ==> trace[j].now - trace[i].now <= 1_800_000)
  }

  predicate Empties(before: seq<Step>, step: Step, s: SessionId) {
    step.Close? && Present(before, s) != {} && Present(before + [step], s) == {}
  }

  /** The close since which `s` has been idle, if any, computed step by step. */
  function IdleFrom(trace: seq<Step>, s: SessionId): (i: Option<nat>)
    ensures i.Some? ==> i.value < |trace| && trace[i.value].Close?
    decreases |trace|
  {
    if trace == [] then None
    else
      var before, step := trace[..|trace| - 1], trace[|trace| - 1];
      var i := IdleFrom(before, s);
      if step.Open? && step.ws.session == s then None
      else if Empties(before, step, s) then Some(|trace| - 1)
      else if step.Prune? && i.Some? && step.now - trace[i.value].now > 1_800_000 then None
      else i
  }

  lemma {:induction false} LeftStaysEmpty(trace: seq<Step>, i: int, s: SessionId)
    requires LeftAt(trace, i, s)
    ensures Present(trace, s) == {}
    decreases |trace|
  {
    hide Present;
    var n := |trace| - 1;
    assert trace[..n] + [trace[n]] == trace;
    if i == n {
      assert trace[..i + 1] == trace;
    } else {
      assert forall k :: 0 <= k <= n ==> trace[..n][..k] == trace[..k];
      LeftStaysEmpty(trace[..n], i, s);
      PresentLast(trace[..n], trace[n], s);
    }
  }

  lemma IdleStep(trace: seq<Step>, i: int, s: SessionId)
    requires 0 <= i < |trace| - 1
    ensures var n := |trace| - 1; var step := trace[n];
            IdleSince(trace, i, s)
            <==> IdleSince(trace[..n], i, s) && !(step.Open? && step.ws.session == s)
                 && !(step.Prune? && step.now - trace[i].now > 1_800_000)
  {
    hide Present;
    var n := |trace| - 1;
    assert trace[..n][..i] == trace[..i] && trace[..n][..i + 1] == trace[..i + 1];
  }

  lemma {:induction false} IdleFromIsIdleSince(trace: seq<Step>, s: SessionId, i: int)
    ensures IdleSince(trace, i, s) <==> IdleFrom(trace, s) == Some(i)
    decreases |trace|
  {
    hide Present;
    if trace != [] {
      var n := |trace| - 1;
      var before, step := trace[..n], trace[n];
      assert before + [step] == trace;
      IdleFromIsIdleSince(before, s, i);
      if 0 <= i < n {
        IdleStep(trace, i, s);
        if Empties(before, step, s) && LeftAt(before, i, s) {
          LeftStaysEmpty(before, i, s);
        }
      } else if i == n {
        assert trace[..n + 1] == trace;
        PresentLast(before, step, s);
      }
    }
  }

  /** sessionLastDisconnect holds `s` exactly when it is idle, with the time its last client left. */
  ghost predicate IdleFor(st: State, trace: seq<Step>, s: SessionId) {
    if IsGlobal(s) || IdleFrom(trace, s).None? then s !in st.lastDisconnect
    else s in st.lastDisconnect && st.lastDisconnect[s] == trace[IdleFrom(trace, s).value].now
  }

  lemma IdleFromStep(before: seq<Step>, step: Step, s: SessionId)
    ensures IdleFrom(before + [step], s) ==
            var i := IdleFrom(before, s);
            if step.Open? && step.ws.session == s then None
            else if Empties(before, step, s) then Some(|before|)
            else if step.Prune? && i.Some? && step.now - before[i.value].now > 1_800_000 then None
            else i
  {
    hide Empties;
    assert (before + [step])[..|before|] == before;
  }

  lemma IdleOpen(st: State, before: seq<Step>, ws: Socket, s: SessionId)
    requires IdleFor(st, before, s)
    ensures IdleFor(AfterOpen(st, ws), before + [Open(ws)], s)
  {
    hide Empties, IdleFrom, StatusEvent, Send, Told;
    IdleFromStep(before, Open(ws), s);
    PresentLast(before, Open(ws), s);
    assert !Empties(before, Open(ws), s) by { NotAClose(before, Open(ws), s); }
  }

  lemma NotAClose(before: seq<Step>, step: Step, s: SessionId)
    requires !step.Close?
    ensures !Empties(before, step, s)
  {}

  lemma EmptiesIsLastToLeave(st: State, before: seq<Step>, ws: Socket, now: int, s: SessionId)
    requires Valid(st) && SeatsMatch(st, before) && !IsGlobal(s)
    ensures Empties(before, Close(ws, now), s) <==> s == ws.session && LastToLeave(st, ws)
  {
    hide Present;
    PresentLast(before, Close(ws, now), s);
    PresentOwn(before, s);
    assert Present(before, s) == ClientsOf(st, s);
  }

  lemma IdleClose(st: State, before: seq<Step>, ws: Socket, now: int, s: SessionId)
    requires Valid(st) && SeatsMatch(st, before) && IdleFor(st, before, s)
    ensures IdleFor(AfterClose(st, ws, now), before + [Close(ws, now)], s)
  {
    hide Empties, IdleFrom, SeatsMatch;
    IdleFromStep(before, Close(ws, now), s);
    if !IsGlobal(s) {
      EmptiesIsLastToLeave(st, before, ws, now, s);
    }
  }

  lemma IdlePrune(st: State, before: seq<Step>, now: int, s: SessionId)
    requires Valid(st) && IdleFor(st, before, s)
    ensures IdleFor(AfterPrune(st, now), before + [Prune(now)], s)
  {
    hide Empties, IdleFrom;
    IdleFromStep(before, Prune(now), s);
    NotAClose(before, Prune(now), s);
  }

  lemma IdleStill(st: State, after: State, before: seq<Step>, step: Step, s: SessionId)
    requires IdleFor(st, before, s) && !MovesSockets(step) && after.lastDisconnect == st.lastDisconnect
    ensures IdleFor(after, before + [step], s)
  {
    hide Empties, IdleFrom;
    IdleFromStep(before, step, s);
    NotAClose(before, step, s);
  }

  lemma IdleStepKeeps(st: State, before: seq<Step>, step: Step, s: SessionId)
    requires Valid(st) && SeatsMatch(st, before) && IdleFor(st, before, s)
    ensures IdleFor(Apply(st, step), before + [step], s)
  {
    hide SeatsMatch, AfterOpen, AfterClose, AfterPrune, Valid, IdleFor;
    match step
    case Open(ws) => IdleOpen(st, before, ws, s);
    case Close(ws, now) => IdleClose(st, before, ws, now, s);
    case Prune(now) => IdlePrune(st, before, now, s);
    case _ =>
      StepExtends(st, step);
      IdleStill(st, Apply(st, step), before, step, s);
  }

  lemma {:induction false} IdleRun(trace: seq<Step>, s: SessionId)
    ensures IdleFor(Run(INIT, trace), trace, s)
    decreases |trace|
  {
    hide Apply, Valid, SeatsMatch;
    if trace != [] {
      var n := |trace| - 1;
      IdleRun(trace[..n], s);
      hide IdleFor;
      SeatsRun(trace[..n]);
      IdleStepKeeps(Run(INIT, trace[..n]), trace[..n], trace[n], s);
      assert trace[..n] + [trace[n]] == trace;
    }
  }

  /** The tick prunes `s` if and only if its last client left more than 30 minutes ago, none has
      connected since, and no earlier tick has pruned it for that. */
  lemma PruneExactly(trace: seq<Step>, now: int, s: SessionId)
    requires !IsGlobal(s)
    ensures Prunes(Run(INIT, trace), Prune(now), s)
            <==> exists i :: IdleSince(trace, i, s) && now - trace[i].now > 1_800_000
  {
    hide IdleSince, IdleFrom, Apply, Run, SeatsMatch;
    var st := Run(INIT, trace);
    SeatsRun(trace);
    IdleRun(trace, s);
    forall i: int ensures IdleSince(trace, i, s) <==> IdleFrom(trace, s) == Some(i) {
      IdleFromIsIdleSince(trace, s, i);
    }
    if IdleFrom(trace, s).Some? {
      assert IdleSince(trace, IdleFrom(trace, s).value, s);
    }
  }

  /** Pruning safety: no step ever takes anything from the cache of `s`, but a tick more than 30 minutes
      after the last client of `s` left, with none connected since. */
  lemma HistoryLostOnlyWhenIdle(trace: seq<Step>, step: Step, s: SessionId)
    requires !(Hist(Run(INIT, trace), s) <= Hist(Apply(Run(INIT, trace), step), s))
    ensures step.Prune? && exists i :: LeftAt(trace, i, s) && step.now - trace[i].now > 1_800_000
  {
    hide Apply, Run, Hist, Recorded, IdleFrom, Present, SeatsMatch;
    SeatsRun(trace);
    StepAnnounces(Run(INIT, trace), step);
    assert Prunes(Run(INIT, trace), step, s);
    IdleRun(trace, s);
    PruneExactly(trace, step.now, s);
  }

  // ---------------------------------------------------------------------
  // The cache of a session that was pruned

  lemma {:induction false} RunSplit(st: State, a: seq<Step>, b: seq<Step>)
    ensures Run(st, a + b) == Run(Run(st, a), b)
    decreases |b|
  {
    hide Apply;
    if b == [] {
      assert a + b == a;
    } else {
      RunSplit(st, a, b[..|b| - 1]);
      assert (a + b)[..|a + b| - 1] == a + b[..|b| - 1];
    }
  }

  /** Step `k - 1` pruned `s`, and no step since. */
  ghost predicate LastPrunedBefore(trace: seq<Step>, k: nat, s: SessionId) {
    && 0 < k <= |trace| && Prunes(Run(INIT, trace[..k - 1]), trace[k - 1], s)
    && NeverPruned(Run(INIT, trace[..k]), trace[k..], s)
  }

  lemma PrunedIsEmpty(st: State, step: Step, s: SessionId)
    requires Prunes(st, step, s)
    ensures Hist(Apply(st, step), s) == []
  {
  }

  /** The cache of a session once pruned is its recorded broadcasts since it last was. */
  lemma CacheSinceLastPruning(trace: seq<Step>, k: nat, s: SessionId)
    requires LastPrunedBefore(trace, k, s)
    ensures Hist(Run(INIT, trace), s) == Recorded(AllCasts(Run(INIT, trace[..k]), trace[k..]), s)
  {
    hide Run, Apply, Hist, Prunes, Recorded, AllCasts, NeverPruned;
    var before := trace[..k - 1];
    assert trace[..k] == before + [trace[k - 1]];
    RunSplit(INIT, before, [trace[k - 1]]);
    OneStepRun(Run(INIT, before), trace[k - 1]);
    PrunedIsEmpty(Run(INIT, before), trace[k - 1], s);
    SeatsRun(trace[..k]);
    RunSplit(INIT, trace[..k], trace[k..]);
    assert trace[..k] + trace[k..] == trace;
    CacheIsRecordedWire(Run(INIT, trace[..k]), trace[k..], s);
  }

  lemma OneStepRun(st: State, step: Step)
    ensures Run(st, [step]) == Apply(st, step)
  {
    assert [step][..0] == [];
  }
}
