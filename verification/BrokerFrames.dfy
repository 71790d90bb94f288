/**
 What leaves the broker, field by field: the events each handler broadcasts, the frames
 meant for one socket, and the maps each handler writes, in literal values.
 */
module BrokerFrames {
  import opened Common
  import opened Broker
  import opened BrokerRuns

  /** The values that JavaScript takes for false. */
  predicate Falsy(j: Json) {
    j == Undefined || j == Null || j == Bool(false) || j == Num(0) || j == Str("")
  }

  /** The wire grows by `casts`; models, last tool names and the time of the last error report by nothing. */
  ghost predicate Sends(st: State, after: State, casts: seq<Cast>) {
    && after.wire == st.wire + casts
    && after.models == st.models && after.lastTool == st.lastTool && after.lastNotifErrorAt == st.lastNotifErrorAt
  }

  lemma Chained(wire: seq<Cast>, a: Cast, b: Cast, c: Cast, d: Cast, e: Cast)
    ensures wire + [a] + [b] == wire + [a, b]
    ensures wire + [a] + [b] + [c] + [d] == wire + [a, b, c, d]
    ensures wire + [a] + [b] + [c] + [d] + [e] == wire + [a, b, c, d, e]
  {
  }

  lemma Wired(st: State, c: Cast)
    ensures var after := AfterBroadcast(st, c);
            && Sends(st, after, [c]) && after.status == st.status
  {
  }

  lemma StatusWired(st: State, session: SessionId, status: string)
    ensures var after := AfterSetStatus(st, session, status);
            && Sends(st, after, [Cast(session, map["type" := Str("session_status"), "sessionId" := Str(session),
                                                   "status" := Str(status)], false)])
            && after.status == st.status[session := status]
  {
    hide AfterBroadcast;
    var e := StatusEvent(session, status);
    assert e == map["type" := Str("session_status"), "sessionId" := Str(session), "status" := Str(status)];
    Wired(st.(status := st.status[session := status]), Cast(session, e, false));
  }

  // ---------------------------------------------------------------------
  // What each handler broadcasts

  lemma MessageEvents(session: SessionId, id: string, role: string, text: Json)
    ensures MessageStart(session, id, role)
            == map["type" := Str("message_start"), "sessionId" := Str(session),
                   "message" := Obj(map["id" := Str(id), "role" := Str(role)])]
    ensures MessageUpdate(session, id, text)
            == map["type" := Str("message_update"), "sessionId" := Str(session), "message" := Obj(map["id" := Str(id)]),
                   "assistantMessageEvent" := Obj(map["type" := Str("text_delta"), "delta" := text])]
    ensures MessageEnd(session, id)
            == map["type" := Str("message_end"), "sessionId" := Str(session), "message" := Obj(map["id" := Str(id)])]
  {
  }

  lemma AgentEvents(session: SessionId, result: Json, usage: Json, timestamp: Json)
    ensures AgentStart(session, timestamp)
            == map["type" := Str("agent_start"), "sessionId" := Str(session), "timestamp" := timestamp]
    ensures AgentEnd(session, result, usage, timestamp)
            == map["type" := Str("agent_end"), "sessionId" := Str(session), "result" := result, "usage" := usage,
                   "timestamp" := timestamp]
  {
  }

  /** reply: the message in three events, the end of the turn, and then the status; all but the status recorded. */
  lemma ReplySends(st: State, chat: SessionId, text: Json, msgId: string, now: int)
    ensures var after := Apply(st, Reply(chat, text, msgId, now));
            && Sends(st, after, [
                 Cast(chat, map["type" := Str("message_start"), "sessionId" := Str(chat),
                                "message" := Obj(map["id" := Str(msgId), "role" := Str("assistant")])], true),
                 Cast(chat, map["type" := Str("message_update"), "sessionId" := Str(chat),
                                "message" := Obj(map["id" := Str(msgId)]),
                                "assistantMessageEvent" := Obj(map["type" := Str("text_delta"),
                                                                "delta" := text])], true),
                 Cast(chat, map["type" := Str("message_end"), "sessionId" := Str(chat),
                                "message" := Obj(map["id" := Str(msgId)])], true),
                 Cast(chat, map["type" := Str("agent_end"), "sessionId" := Str(chat), "result" := Str("completed"),
                                "usage" := Undefined, "timestamp" := Num(now)], true),
                 Cast(chat, map["type" := Str("session_status"), "sessionId" := Str(chat),
                                 "status" := Str("idle")], false)])
            && after.status == st.status[chat := "idle"]
  {
    hide AfterBroadcast, AfterSetStatus, MessageStart, MessageUpdate, MessageEnd, AgentEnd;
    MessageEvents(chat, msgId, "assistant", text);
    AgentEvents(chat, Str("completed"), Undefined, Num(now));
    FourThenStatusSend(st, chat, MessageStart(chat, msgId, "assistant"), MessageUpdate(chat, msgId, text),
                       MessageEnd(chat, msgId), AgentEnd(chat, Str("completed"), Undefined, Num(now)));
  }

  lemma FourThenStatusSend(st: State, chat: SessionId, a: Event, b: Event, c: Event, d: Event)
    ensures var s1 := AfterBroadcast(st, Cast(chat, a, true)); var s2 := AfterBroadcast(s1, Cast(chat, b, true));
            var s3 := AfterBroadcast(s2, Cast(chat, c, true)); var s4 := AfterBroadcast(s3, Cast(chat, d, true));
            var after := AfterSetStatus(s4, chat, "idle");
            && Sends(st, after, [Cast(chat, a, true), Cast(chat, b, true), Cast(chat, c, true), Cast(chat, d, true),
                                 Cast(chat, map["type" := Str("session_status"), "sessionId" := Str(chat),
                                                "status" := Str("idle")], false)])
            && after.status == st.status[chat := "idle"]
  {
    hide AfterBroadcast, AfterSetStatus;
    var s1 := AfterBroadcast(st, Cast(chat, a, true));
    var s2 := AfterBroadcast(s1, Cast(chat, b, true));
    var s3 := AfterBroadcast(s2, Cast(chat, c, true));
    var s4 := AfterBroadcast(s3, Cast(chat, d, true));
    Wired(st, Cast(chat, a, true));
    Wired(s1, Cast(chat, b, true));
    Wired(s2, Cast(chat, c, true));
    Wired(s3, Cast(chat, d, true));
    StatusWired(s4, chat, "idle");
    var last := Cast(chat, map["type" := Str("session_status"), "sessionId" := Str(chat),
                              "status" := Str("idle")], false);
    Chained(st.wire, Cast(chat, a, true), Cast(chat, b, true), Cast(chat, c, true), Cast(chat, d, true), last);
  }

  /** status and request_permission: one event, not recorded. */
  lemma NoteAndAskSend(st: State, chat: SessionId, note: string, detail: Json, requestId: string, tool: Json,
                       description: Json, args: Json)
    ensures var after := Apply(st, StatusNote(chat, note, detail));
            && Sends(st, after, [Cast(chat, map["type" := Str("status"), "sessionId" := Str(chat),
                                                "status" := Str(note), "detail" := detail], false)])
            && after.status == st.status
    ensures var after := Apply(st, AskPermission(chat, requestId, tool, description, args));
            && Sends(st, after, [Cast(chat, map["type" := Str("permission_request"), "sessionId" := Str(chat),
                                                "requestId" := Str(requestId), "toolName" := tool,
                                                "description" := description, "args" := args], false)])
            && after.status == st.status
  {
    hide AfterBroadcast;
    Wired(st, Cast(chat, StatusNoteEvent(chat, note, detail), false));
    Wired(st, Cast(chat, PermissionRequest(chat, requestId, tool, description, args), false));
    assert StatusNoteEvent(chat, note, detail)
           == map["type" := Str("status"), "sessionId" := Str(chat), "status" := Str(note), "detail" := detail];
    assert PermissionRequest(chat, requestId, tool, description, args)
           == map["type" := Str("permission_request"), "sessionId" := Str(chat), "requestId" := Str(requestId),
                  "toolName" := tool, "description" := description, "args" := args];
  }

  /** send_event: one recorded event whose payload replaces what it names; the tool name of a tool_execution event is
      remembered. */
  lemma SendEventSends(st: State, chat: SessionId, kind: string, data: Event)
    ensures var after := Apply(st, SendEvent(chat, kind, data));
            && after.wire == st.wire + [Cast(chat, map["type" := Str(kind), "sessionId" := Str(chat)] + data, true)]
            && after.status == st.status && after.models == st.models && after.lastNotifErrorAt == st.lastNotifErrorAt
            && after.lastTool == if kind == "tool_execution" && "tool_name" in data && !Falsy(data["tool_name"])
                                 then st.lastTool[chat := data["tool_name"]] else st.lastTool
  {
  }

  /** prompt: the status, then the recorded start of a turn, then an acknowledgement to the sender. */
  lemma PromptSends(st: State, ws: Socket, session: SessionId, now: int)
    ensures var after := Apply(st, Prompt(ws, session, now));
            && Sends(st, after, [
                 Cast(session, map["type" := Str("session_status"), "sessionId" := Str(session),
                                   "status" := Str("streaming")], false),
                 Cast(session, map["type" := Str("agent_start"), "sessionId" := Str(session),
                                    "timestamp" := Num(now)], true)])
            && after.status == st.status[session := "streaming"]
            && LastSent(after, ws, Direct(map["type" := Str("prompt_ack"), "sessionId" := Str(session),
                                              "timestamp" := Num(now)]))
  {
    hide AfterBroadcast, AfterSetStatus, AgentStart, PromptAck, Send, Got;
    AgentEvents(session, Undefined, Undefined, Num(now));
    var s1 := AfterSetStatus(st, session, "streaming");
    var s2 := AfterBroadcast(s1, Cast(session, AgentStart(session, Num(now)), true));
    StatusWired(st, session, "streaming");
    Wired(s1, Cast(session, AgentStart(session, Num(now)), true));
    AnswerSent(s2, ws, PromptAck(session, now));
    AckIs(session, now);
    Chained(st.wire, s1.wire[|st.wire|], s2.wire[|s1.wire|],
            s1.wire[|st.wire|], s1.wire[|st.wire|], s1.wire[|st.wire|]);
  }

  lemma AckIs(session: SessionId, now: int)
    ensures PromptAck(session, now)
            == map["type" := Str("prompt_ack"), "sessionId" := Str(session), "timestamp" := Num(now)]
  {
  }

  predicate LastSent(st: State, ws: Socket, f: Frame) {
    ws in st.inbox && st.inbox[ws] != [] && st.inbox[ws][|st.inbox[ws]| - 1] == f
  }

  /** An answer is appended to what its socket was sent, and no other socket gets anything. */
  lemma AnswerSent(st: State, ws: Socket, e: Event)
    ensures var after := Answer(st, ws, e);
            && after == st.(inbox := after.inbox)
            && after.inbox == st.inbox[ws := (if ws in st.inbox then st.inbox[ws] else []) + [Direct(e)]]
            && LastSent(after, ws, Direct(e))
  {
  }

  /** session-start */
  lemma SessionStartSends(st: State, session: SessionId, model: Json, cwd: Json, tools: Json, timestamp: Json)
    ensures var after := Apply(st, SessionStart(session, model, cwd, tools, timestamp));
            && after.wire == st.wire + [
                 Cast(session, map["type" := Str("session_init"), "sessionId" := Str(session), "model" := model,
                                   "cwd" := cwd, "tools" := tools, "timestamp" := timestamp], true),
                 Cast(session, map["type" := Str("session_status"), "sessionId" := Str(session),
                                   "status" := Str("idle")], false)]
            && after.status == st.status[session := "idle"]
            && after.models == (if Falsy(model) then st.models else st.models[session := model])
            && after.lastTool == st.lastTool && after.lastNotifErrorAt == st.lastNotifErrorAt
  {
    hide AfterBroadcast, AfterSetStatus, SessionInit;
    var init := SessionInit(session, model, cwd, tools, timestamp);
    SessionInitIs(session, model, cwd, tools, timestamp);
    var s1 := st.(models := if Truthy(model) then st.models[session := model] else st.models);
    var s2 := AfterBroadcast(s1, Cast(session, init, true));
    Wired(s1, Cast(session, init, true));
    StatusWired(s2, session, "idle");
    var idle := Cast(session, map["type" := Str("session_status"), "sessionId" := Str(session),
                              "status" := Str("idle")], false);
    Chained(st.wire, Cast(session, init, true), idle, idle, idle, idle);
  }

  lemma SessionInitIs(session: SessionId, model: Json, cwd: Json, tools: Json, timestamp: Json)
    ensures SessionInit(session, model, cwd, tools, timestamp)
            == map["type" := Str("session_init"), "sessionId" := Str(session), "model" := model, "cwd" := cwd,
                   "tools" := tools, "timestamp" := timestamp]
  {
  }

  /** post-tool-use: the start of a call only when it has output and no error; its end with the error in the output's
      place when there is one. */
  lemma ToolUseSends(st: State, session: SessionId, callId: string, tool: Json, input: Json, output: Json, error: Json,
                     timestamp: Json)
    ensures var after := Apply(st, PostToolUse(session, callId, tool, input, output, error, timestamp));
            var start := Cast(session, map["type" := Str("tool_execution_start"), "sessionId" := Str(session),
                                           "toolCallId" := Str(callId), "toolName" := tool, "args" := input,
                                           "timestamp" := timestamp], true);
            var end := Cast(session, map["type" := Str("tool_execution_end"), "sessionId" := Str(session),
                                         "toolCallId" := Str(callId),
                                         "result" := if Falsy(error) then output else error,
                                         "isError" := Bool(!Falsy(error)), "timestamp" := timestamp], true);
            && after.wire == st.wire + (if output != Undefined && Falsy(error) then [start, end] else [end])
            && after.lastTool == (if Falsy(tool) then st.lastTool else st.lastTool[session := tool])
            && after.status == st.status && after.models == st.models && after.lastNotifErrorAt == st.lastNotifErrorAt
  {
    hide AfterBroadcast, ToolStart, ToolEnd;
    var start, end := ToolStart(session, callId, tool, input, timestamp),
                     ToolEnd(session, callId, output, error, timestamp);
    ToolEventsAre(session, callId, tool, input, output, error, timestamp);
    var s1 := st.(lastTool := if Truthy(tool) then st.lastTool[session := tool] else st.lastTool);
    Wired(s1, Cast(session, start, true));
    Wired(s1, Cast(session, end, true));
    Wired(AfterBroadcast(s1, Cast(session, start, true)), Cast(session, end, true));
    Chained(st.wire, Cast(session, start, true), Cast(session, end, true), Cast(session, end, true),
            Cast(session, end, true), Cast(session, end, true));
  }

  lemma ToolEventsAre(session: SessionId, callId: string, tool: Json, input: Json, output: Json, error: Json,
                      timestamp: Json)
    ensures ToolStart(session, callId, tool, input, timestamp)
            == map["type" := Str("tool_execution_start"), "sessionId" := Str(session), "toolCallId" := Str(callId),
                   "toolName" := tool, "args" := input, "timestamp" := timestamp]
    ensures ToolEnd(session, callId, output, error, timestamp)
            == map["type" := Str("tool_execution_end"), "sessionId" := Str(session), "toolCallId" := Str(callId),
                   "result" := if Falsy(error) then output else error, "isError" := Bool(!Falsy(error)),
                   "timestamp" := timestamp]
  {
  }

  /** stop */
  lemma StopSends(st: State, session: SessionId, usage: Json, reason: Json, timestamp: Json)
    ensures var after := Apply(st, Stop(session, usage, reason, timestamp));
            && Sends(st, after, [
                 Cast(session, map["type" := Str("agent_end"), "sessionId" := Str(session), "result" := reason,
                                   "usage" := usage, "timestamp" := timestamp], true),
                 Cast(session, map["type" := Str("session_status"), "sessionId" := Str(session),
                                   "status" := Str("idle")], false)])
            && after.status == st.status[session := "idle"]
  {
    hide AfterBroadcast, AfterSetStatus, AgentEnd;
    var end := AgentEnd(session, reason, usage, timestamp);
    AgentEvents(session, reason, usage, timestamp);
    Wired(st, Cast(session, end, true));
    StatusWired(AfterBroadcast(st, Cast(session, end, true)), session, "idle");
    var idle := Cast(session, map["type" := Str("session_status"), "sessionId" := Str(session),
                              "status" := Str("idle")], false);
    Chained(st.wire, Cast(session, end, true), idle, idle, idle, idle);
  }

  /** user-prompt */
  lemma UserPromptSends(st: State, session: SessionId, msgId: string, text: Json, timestamp: Json)
    ensures var after := Apply(st, UserPrompt(session, msgId, text, timestamp));
            && Sends(st, after, [
                 Cast(session, map["type" := Str("agent_start"), "sessionId" := Str(session),
                                    "timestamp" := timestamp], true),
                 Cast(session, map["type" := Str("message_start"), "sessionId" := Str(session),
                                   "message" := Obj(map["id" := Str(msgId), "role" := Str("user")])], true),
                 Cast(session, map["type" := Str("message_update"), "sessionId" := Str(session),
                                   "message" := Obj(map["id" := Str(msgId)]),
                                   "assistantMessageEvent" := Obj(map["type" := Str("text_delta"),
                                                                       "delta" := text])], true),
                 Cast(session, map["type" := Str("message_end"), "sessionId" := Str(session),
                                   "message" := Obj(map["id" := Str(msgId)])], true)])
            && after.status == st.status
  {
    hide AfterBroadcast, AgentStart, MessageStart, MessageUpdate, MessageEnd;
    MessageEvents(session, msgId, "user", text);
    AgentEvents(session, Undefined, Undefined, timestamp);
    FourSend(st, session, AgentStart(session, timestamp), MessageStart(session, msgId, "user"),
             MessageUpdate(session, msgId, text), MessageEnd(session, msgId));
  }

  lemma FourSend(st: State, chat: SessionId, a: Event, b: Event, c: Event, d: Event)
    ensures var s1 := AfterBroadcast(st, Cast(chat, a, true)); var s2 := AfterBroadcast(s1, Cast(chat, b, true));
            var s3 := AfterBroadcast(s2, Cast(chat, c, true)); var s4 := AfterBroadcast(s3, Cast(chat, d, true));
            && Sends(st, s4, [Cast(chat, a, true), Cast(chat, b, true), Cast(chat, c, true), Cast(chat, d, true)])
            && s4.status == st.status
  {
    hide AfterBroadcast;
    var s1 := AfterBroadcast(st, Cast(chat, a, true));
    var s2 := AfterBroadcast(s1, Cast(chat, b, true));
    var s3 := AfterBroadcast(s2, Cast(chat, c, true));
    Wired(st, Cast(chat, a, true));
    Wired(s1, Cast(chat, b, true));
    Wired(s2, Cast(chat, c, true));
    Wired(s3, Cast(chat, d, true));
    Chained(st.wire, Cast(chat, a, true), Cast(chat, b, true), Cast(chat, c, true),
            Cast(chat, d, true), Cast(chat, d, true));
  }

  /** A failed notification: nothing within 10 s of the last report; else the time is kept and, with a session, an
      unrecorded error event sent. */
  lemma FailureSends(st: State, session: SessionId, message: string, now: int)
    ensures var after := Apply(st, NotifyFailed(session, message, now));
            if now - st.lastNotifErrorAt < 10_000 then after == st
            else
              && after.lastNotifErrorAt == now
              && after.wire == st.wire + (if session == "" then [] else [
                   Cast(session, map["type" := Str("error"), "sessionId" := Str(session),
                                     "message" := Str("Failed to deliver prompt to Claude: " + message),
                                     "code" := Str("CHANNEL_NOTIFICATION_FAILED")], false)])
              && after.status == st.status && after.models == st.models && after.lastTool == st.lastTool
  {
    hide AfterBroadcast;
    var e := DeliveryError(session, message);
    assert e == map["type" := Str("error"), "sessionId" := Str(session),
                    "message" := Str("Failed to deliver prompt to Claude: " + message),
                    "code" := Str("CHANNEL_NOTIFICATION_FAILED")];
    Wired(st.(lastNotifErrorAt := now), Cast(session, e, false));
  }

  /** At the start the last report counts as made at time 0. */
  lemma FirstFailureSends(session: SessionId, message: string, now: int)
    ensures Apply(INIT, NotifyFailed(session, message, now)) == INIT <==> now < 10_000
  {
    hide Apply;
    FailureSends(INIT, session, message, now);
  }

  /** set_model sets the model, a tick forgets the sessions it prunes, and neither sends anything. */
  lemma SilentHandlers(st: State, session: SessionId, model: Json, now: int)
    ensures Apply(st, SetModel(session, model)) == st.(models := st.models[session := model])
    ensures var after := Apply(st, Prune(now));
            && after.wire == st.wire && after.inbox == st.inbox && after.lastTool == st.lastTool
            && after.clients == st.clients && after.globals == st.globals
            && after.lastNotifErrorAt == st.lastNotifErrorAt
            && (if session in st.lastDisconnect && session !in st.clients
                   && now - st.lastDisconnect[session] > 1_800_000
                then session !in after.history && session !in after.models && session !in after.status
                     && session !in after.lastDisconnect
                else SameSession(st, after, session))
  {
  }

  /** The four maps a tick deletes from hold the same for `s`. */
  predicate SameSession(st: State, after: State, s: SessionId) {
    && (s in after.history <==> s in st.history) && (s in st.history ==> after.history[s] == st.history[s])
    && (s in after.models <==> s in st.models) && (s in st.models ==> after.models[s] == st.models[s])
    && (s in after.status <==> s in st.status) && (s in st.status ==> after.status[s] == st.status[s])
    && (s in after.lastDisconnect <==> s in st.lastDisconnect)
    && (s in st.lastDisconnect ==> after.lastDisconnect[s] == st.lastDisconnect[s])
  }

  /** A new socket is sent one frame, the status of its session or idle; nothing is broadcast. */
  lemma OpenSends(st: State, ws: Socket)
    ensures var after := Apply(st, Open(ws));
            var told := if ws.session in st.status && st.status[ws.session] != "" then st.status[ws.session]
                       else "idle";
            && Sends(st, after, []) && after.status == st.status && after.history == st.history
            && after.inbox == st.inbox[ws := (if ws in st.inbox then st.inbox[ws] else [])
                 + [Direct(map["type" := Str("session_status"), "sessionId" := Str(ws.session),
                                  "status" := Str(told)])]]
  {
    hide Send, StatusEvent;
    var s := Seated(st, ws);
    AnswerSent(s, ws, StatusEvent(ws.session, Told(s, ws.session)));
    StatusEventIs(ws.session, Told(s, ws.session));
  }

  lemma StatusEventIs(session: SessionId, status: string)
    ensures StatusEvent(session, status)
            == map["type" := Str("session_status"), "sessionId" := Str(session), "status" := Str(status)]
  {
  }

  // ---------------------------------------------------------------------
  // What fetch_history over a socket is answered

  /** How many events are asked for: all, the last `limit`, or, for a negative one, all but the first -limit. */
  function Wanted(n: nat, limit: Option<int>): nat {
    if limit.None? || limit.value == 0 then n
    else if limit.value > 0 then (if limit.value < n then limit.value else n)
    else if -limit.value < n then n + limit.value else 0
  }

  /** `e` is a history event of session `s` with the last `k` events of `all`. */
  predicate HistoryOf(e: Event, s: SessionId, all: seq<Event>, k: nat)
    requires k <= |all|
  {
    && e.Keys == {"type", "sessionId", "events"} && e["type"] == Str("history") && e["sessionId"] == Str(s)
    && e["events"].Arr? && |e["events"].items| == k
    && forall i :: 0 <= i < k ==> e["events"].items[i] == Obj(all[|all| - k + i])
  }

  lemma AnswerIsHistory(s: SessionId, all: seq<Event>, limit: Option<int>)
    ensures Wanted(|all|, limit) <= |all|
    ensures HistoryOf(HistoryAnswer(s, Slice(all, limit)), s, all, Wanted(|all|, limit))
  {
  }

  /** fetch_history over a socket: the asking socket alone is sent one frame, the history of the session as cached. */
  lemma FetchSends(st: State, ws: Socket, s: SessionId, limit: Option<int>)
    ensures var after := Apply(st, FetchOverSocket(ws, s, limit));
            var cached := if s in st.history then st.history[s] else [];
            && Wanted(|cached|, limit) <= |cached| && after == st.(inbox := after.inbox)
            && exists e: Event :: HistoryOf(e, s, cached, Wanted(|cached|, limit))
                                  && after.inbox == st.inbox[ws := (if ws in st.inbox then st.inbox[ws] else []) +
                                                                       [Direct(e)]]
  {
    hide HistoryAnswer, Slice, HistoryOf, Send;
    AnswerIsHistory(s, Hist(st, s), limit);
    AnswerSent(st, ws, HistoryAnswer(s, Slice(Hist(st, s), limit)));
  }

  /** No socket but `ws` is sent anything between `st` and `after`. */
  ghost predicate OthersUntold(st: State, after: State, ws: Socket) {
    forall c :: c != ws ==> (c in after.inbox <==> c in st.inbox)
                            && (c in st.inbox ==> after.inbox[c] == st.inbox[c])
  }

  lemma FetchAnswersNow(st: State, ws: Socket, s: SessionId, limit: Option<int>)
    ensures var after := Apply(st, FetchOverSocket(ws, s, limit)); var all := Hist(st, s);
            && Wanted(|all|, limit) <= |all| && OthersUntold(st, after, ws)
            && exists e: Event :: LastSent(after, ws, Direct(e)) && HistoryOf(e, s, all, Wanted(|all|, limit))
  {
    hide HistoryAnswer, Slice, HistoryOf, Wanted, Hist;
    var e := HistoryAnswer(s, Slice(Hist(st, s), limit));
    AnswerIsHistory(s, Hist(st, s), limit);
    AnswerSent(st, ws, e);
    assert LastSent(Apply(st, FetchOverSocket(ws, s, limit)), ws, Direct(e));
  }

  /** Over runs: the asking socket is answered with the last recorded broadcasts of a session never pruned, and no other
      socket is sent anything. */
  lemma FetchAnswersSocket(trace: seq<Step>, ws: Socket, s: SessionId, limit: Option<int>)
    requires NeverPruned(INIT, trace, s)
    ensures var st := Run(INIT, trace); var after := Run(INIT, trace + [FetchOverSocket(ws, s, limit)]);
            var all := Recorded(st.wire, s);
            && Wanted(|all|, limit) <= |all| && OthersUntold(st, after, ws)
            && exists e: Event :: LastSent(after, ws, Direct(e)) && HistoryOf(e, s, all, Wanted(|all|, limit))
  {
    hide Run, Apply, Recorded, HistoryOf, LastSent, OthersUntold, Wanted, NeverPruned;
    CacheFromStart(trace, s);
    FetchAnswersNow(Run(INIT, trace), ws, s, limit);
    OneMoreStep(INIT, trace, FetchOverSocket(ws, s, limit));
  }
}
