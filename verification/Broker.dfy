/**
 The session side of the channel broker as a state machine over values.

 A run is a sequence of steps; each step is one handler, run to completion on
 the event loop. `wire` logs every call of broadcast in order and `inbox` what
 each socket has been sent, so that theorems can compare the replay cache with
 the live stream. ChannelBroker (BrokerServer.dfy) is the program itself,
 proved to take exactly these steps.
 */
module Broker {
  import opened Common

  type SessionId = string

  datatype Json =
    | Undefined
    | Null
    | Bool(b: bool)
    | Num(n: int)
    | Str(s: string)
    | Arr(items: seq<Json>)
    | Obj(fields: map<string, Json>)

  /** A JSON object, as handed to broadcast. */
  type Event = map<string, Json>

  datatype Socket = Socket(id: nat, session: SessionId)

  /** One call of broadcast. */
  datatype Cast = Cast(session: SessionId, event: Event, recorded: bool)

  /** What a socket is sent: a share of a broadcast, or an answer meant for it alone. */
  datatype Frame = Live(cast: Cast) | Direct(event: Event)

  datatype State = State(
    clients: map<SessionId, set<Socket>>,
    globals: set<Socket>,
    history: map<SessionId, seq<Event>>,
    models: map<SessionId, Json>,
    status: map<SessionId, string>,
    lastDisconnect: map<SessionId, int>,
    lastTool: map<SessionId, Json>,
    lastNotifErrorAt: int,
    wire: seq<Cast>,
    inbox: map<Socket, seq<Frame>>)

  const INIT := State(map[], {}, map[], map[], map[], map[], map[], 0, [], map[])

  const IDLE_MS := 30 * 60 * 1000
  const NOTIF_ERROR_COOLDOWN_MS := 10_000

  // ---------------------------------------------------------------------
  // Events

  predicate Truthy(j: Json) {
    match j
    case Undefined => false
    case Null => false
    case Bool(b) => b
    case Num(n) => n != 0
    case Str(s) => s != ""
    case Arr(_) => true
    case Obj(_) => true
  }

  function Base(kind: string, session: SessionId): Event {
    map["type" := Str(kind), "sessionId" := Str(session)]
  }

  function StatusEvent(session: SessionId, status: string): Event {
    Base("session_status", session)["status" := Str(status)]
  }

  function MessageStart(session: SessionId, id: string, role: string): Event {
    Base("message_start", session)["message" := Obj(map["id" := Str(id), "role" := Str(role)])]
  }

  function MessageUpdate(session: SessionId, id: string, text: Json): Event {
    Base("message_update", session)["message" := Obj(map["id" := Str(id)])]
      ["assistantMessageEvent" := Obj(map["type" := Str("text_delta"), "delta" := text])]
  }

  function MessageEnd(session: SessionId, id: string): Event {
    Base("message_end", session)["message" := Obj(map["id" := Str(id)])]
  }

  function AgentStart(session: SessionId, timestamp: Json): Event {
    Base("agent_start", session)["timestamp" := timestamp]
  }

  function AgentEnd(session: SessionId, result: Json, usage: Json, timestamp: Json): Event {
    Base("agent_end", session)["result" := result]["usage" := usage]["timestamp" := timestamp]
  }

  function SessionInit(session: SessionId, model: Json, cwd: Json, tools: Json, timestamp: Json): Event {
    Base("session_init", session)["model" := model]["cwd" := cwd]["tools" := tools]["timestamp" := timestamp]
  }

  function ToolStart(session: SessionId, callId: string, tool: Json, input: Json, timestamp: Json): Event {
    Base("tool_execution_start", session)["toolCallId" := Str(callId)]["toolName" := tool]["args" := input]
      ["timestamp" := timestamp]
  }

  function ToolEnd(session: SessionId, callId: string, output: Json, error: Json, timestamp: Json): Event {
    Base("tool_execution_end", session)["toolCallId" := Str(callId)]
      ["result" := if Truthy(error) then error else output]["isError" := Bool(Truthy(error))]
      ["timestamp" := timestamp]
  }

  function StatusNoteEvent(session: SessionId, note: string, detail: Json): Event {
    Base("status", session)["status" := Str(note)]["detail" := detail]
  }

  function PermissionRequest(session: SessionId, requestId: string, tool: Json, description: Json, args: Json): Event {
    Base("permission_request", session)["requestId" := Str(requestId)]["toolName" := tool]["description" := description]
      ["args" := args]
  }

  function PromptAck(session: SessionId, now: int): Event {
    Base("prompt_ack", session)["timestamp" := Num(now)]
  }

  function DeliveryError(session: SessionId, message: string): Event {
    Base("error", session)["message" := Str("Failed to deliver prompt to Claude: " + message)]
      ["code" := Str("CHANNEL_NOTIFICATION_FAILED")]
  }

  /** send_event spreads its payload last, so the payload may replace any field. */
  function SentEvent(session: SessionId, kind: string, data: Event): Event {
    Base(kind, session) + data
  }

  function Field(e: Event, key: string): Json {
    if key in e then e[key] else Undefined
  }

  // ---------------------------------------------------------------------
  // Broadcasting

  function Got(inbox: map<Socket, seq<Frame>>, c: Socket): seq<Frame> {
    if c in inbox then inbox[c] else []
  }

  function Send(inbox: map<Socket, seq<Frame>>, to: set<Socket>, f: Frame): map<Socket, seq<Frame>> {
    map c | c in inbox.Keys + to :: if c in to then Got(inbox, c) + [f] else inbox[c]
  }

  function ClientsOf(st: State, session: SessionId): set<Socket> {
    if session in st.clients then st.clients[session] else {}
  }

  function Hist(st: State, session: SessionId): seq<Event> {
    if session in st.history then st.history[session] else []
  }

  function AfterBroadcast(st: State, c: Cast): State {
    st.(inbox := Send(Send(st.inbox, ClientsOf(st, c.session), Live(c)), st.globals, Live(c)),
        history := if c.recorded
                   then st.history[c.session := Hist(st, c.session) + [c.event]]
                   else st.history,
        wire := st.wire + [c])
  }

  function AfterSetStatus(st: State, session: SessionId, status: string): State {
    AfterBroadcast(st.(status := st.status[session := status]), Cast(session, StatusEvent(session, status), false))
  }

  // ---------------------------------------------------------------------
  // Steps

  datatype Step =
    | Reply(chat: SessionId, text: Json, msgId: string, now: int)
    | StatusNote(chat: SessionId, note: string, detail: Json)
    | AskPermission(chat: SessionId, requestId: string, tool: Json, description: Json, args: Json)
    | SendEvent(chat: SessionId, kind: string, data: Event)
    | Prompt(ws: Socket, session: SessionId, now: int)
    | FetchOverSocket(ws: Socket, session: SessionId, limit: Option<int>)
    | SetModel(session: SessionId, model: Json)
    | NotifyFailed(session: SessionId, message: string, now: int)
    | Open(ws: Socket)
    | Close(ws: Socket, now: int)
    | SessionStart(session: SessionId, model: Json, cwd: Json, tools: Json, timestamp: Json)
    | PostToolUse(session: SessionId, callId: string, tool: Json, input: Json, output: Json, error: Json,
                  timestamp: Json)
    | Stop(session: SessionId, usage: Json, reason: Json, timestamp: Json)
    | UserPrompt(session: SessionId, msgId: string, text: Json, timestamp: Json)
    | Prune(now: int)
    | Ignored  // abort, a malformed message, an unknown tool or hook, a failed notification in cooldown

  predicate IsGlobal(session: SessionId) {
    session == "default" || session == ""
  }

  function Told(st: State, session: SessionId): string {
    if session in st.status && st.status[session] != "" then st.status[session] else "idle"
  }

  /** `limit ? history.slice(-limit) : history`, for any integer limit. */
  function Slice(h: seq<Event>, limit: Option<int>): seq<Event> {
    if limit.None? || limit.value == 0 then h
    else if limit.value > 0 then (if limit.value >= |h| then h else h[|h| - limit.value..])
    else if -limit.value >= |h| then [] else h[-limit.value..]
  }

  function HistoryAnswer(session: SessionId, events: seq<Event>): Event {
    Base("history", session)["events" := Arr(seq(|events|, i requires 0 <= i < |events| => Obj(events[i])))]
  }

  function Expired(st: State, now: int): set<SessionId> {
    set s | s in st.lastDisconnect && s !in st.clients && now - st.lastDisconnect[s] > IDLE_MS
  }

  function Answer(st: State, ws: Socket, event: Event): State {
    st.(inbox := Send(st.inbox, {ws}, Direct(event)))
  }

  function Seated(st: State, ws: Socket): State {
    st.(globals := if IsGlobal(ws.session) then st.globals + {ws} else st.globals,
        clients := if IsGlobal(ws.session) then st.clients
                   else st.clients[ws.session := ClientsOf(st, ws.session) + {ws}],
        lastDisconnect := st.lastDisconnect - {ws.session})
  }

  function AfterOpen(st: State, ws: Socket): State {
    var s := Seated(st, ws);
    Answer(s, ws, StatusEvent(ws.session, Told(s, ws.session)))
  }

  predicate LastToLeave(st: State, ws: Socket) {
    ws.session in st.clients && st.clients[ws.session] - {ws} == {}
  }

  function AfterClose(st: State, ws: Socket, now: int): State {
    st.(globals := st.globals - {ws},
        clients := if ws.session !in st.clients then st.clients
                   else if LastToLeave(st, ws) then st.clients - {ws.session}
                   else st.clients[ws.session := st.clients[ws.session] - {ws}],
        lastDisconnect := if LastToLeave(st, ws) then st.lastDisconnect[ws.session := now] else st.lastDisconnect)
  }

  function AfterPrune(st: State, now: int): State {
    var gone := Expired(st, now);
    st.(history := st.history - gone, models := st.models - gone, status := st.status - gone,
        lastDisconnect := st.lastDisconnect - gone)
  }

  function AfterSessionStart(st: State, session: SessionId, model: Json, init: Event): State {
    var s1 := st.(models := if Truthy(model) then st.models[session := model] else st.models);
    AfterSetStatus(AfterBroadcast(s1, Cast(session, init, true)), session, "idle")
  }

  function AfterToolUse(st: State, session: SessionId, tool: Json, started: bool, start: Event, end: Event): State {
    var s1 := st.(lastTool := if Truthy(tool) then st.lastTool[session := tool] else st.lastTool);
    AfterBroadcast(if started then AfterBroadcast(s1, Cast(session, start, true)) else s1, Cast(session, end, true))
  }

  predicate ReportsFailure(st: State, step: Step)
    requires step.NotifyFailed?
  {
    step.now - st.lastNotifErrorAt >= NOTIF_ERROR_COOLDOWN_MS
  }

  /** The handlers, statement by statement. */
  function Apply(st: State, step: Step): State {
    match step
    case Reply(chat, text, msgId, now) =>
      var s1 := AfterBroadcast(st, Cast(chat, MessageStart(chat, msgId, "assistant"), true));
      var s2 := AfterBroadcast(s1, Cast(chat, MessageUpdate(chat, msgId, text), true));
      var s3 := AfterBroadcast(s2, Cast(chat, MessageEnd(chat, msgId), true));
      var s4 := AfterBroadcast(s3, Cast(chat, AgentEnd(chat, Str("completed"), Undefined, Num(now)), true));
      AfterSetStatus(s4, chat, "idle")
    case StatusNote(chat, note, detail) =>
      AfterBroadcast(st, Cast(chat, StatusNoteEvent(chat, note, detail), false))
    case AskPermission(chat, requestId, tool, description, args) =>
      AfterBroadcast(st, Cast(chat, PermissionRequest(chat, requestId, tool, description, args), false))
    case SendEvent(chat, kind, data) =>
      var s1 := st.(lastTool := if kind == "tool_execution" && Truthy(Field(data, "tool_name"))
                                then st.lastTool[chat := Field(data, "tool_name")] else st.lastTool);
      AfterBroadcast(s1, Cast(chat, SentEvent(chat, kind, data), true))
    case Prompt(ws, session, now) =>
      var s1 := AfterSetStatus(st, session, "streaming");
      var s2 := AfterBroadcast(s1, Cast(session, AgentStart(session, Num(now)), true));
      Answer(s2, ws, PromptAck(session, now))
    case FetchOverSocket(ws, session, limit) =>
      Answer(st, ws, HistoryAnswer(session, Slice(Hist(st, session), limit)))
    case SetModel(session, model) =>
      st.(models := st.models[session := model])
    case NotifyFailed(session, message, now) =>
      if !ReportsFailure(st, step) then st
      else
        var s1 := st.(lastNotifErrorAt := now);
        if session == "" then s1
        else AfterBroadcast(s1, Cast(session, DeliveryError(session, message), false))
    case Open(ws) => AfterOpen(st, ws)
    case Close(ws, now) => AfterClose(st, ws, now)
    case SessionStart(session, model, cwd, tools, timestamp) =>
      AfterSessionStart(st, session, model, SessionInit(session, model, cwd, tools, timestamp))
    case PostToolUse(session, callId, tool, input, output, error, timestamp) =>
      AfterToolUse(st, session, tool, output != Undefined && !Truthy(error),
                   ToolStart(session, callId, tool, input, timestamp),
                   ToolEnd(session, callId, output, error, timestamp))
    case Stop(session, usage, reason, timestamp) =>
      var s1 := AfterBroadcast(st, Cast(session, AgentEnd(session, reason, usage, timestamp), true));
      AfterSetStatus(s1, session, "idle")
    case UserPrompt(session, msgId, text, timestamp) =>
      var s1 := AfterBroadcast(st, Cast(session, AgentStart(session, timestamp), true));
      var s2 := AfterBroadcast(s1, Cast(session, MessageStart(session, msgId, "user"), true));
      var s3 := AfterBroadcast(s2, Cast(session, MessageUpdate(session, msgId, text), true));
      AfterBroadcast(s3, Cast(session, MessageEnd(session, msgId), true))
    case Prune(now) => AfterPrune(st, now)
    case Ignored => st
  }

  /** A run: the steps of `trace`, from `st`. */
  function Run(st: State, trace: seq<Step>): State
    decreases |trace|
  {
    if trace == [] then st
    else Apply(Run(st, trace[..|trace| - 1]), trace[|trace| - 1])
  }
}
