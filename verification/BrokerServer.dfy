/** The broker program: its Maps and Sets, and the handlers that update them in place. */
module BrokerServer {
  import opened Common
  import opened Broker

  class ChannelBroker {
    var sessionClients: map<SessionId, set<Socket>>
    var globalClients: set<Socket>
    var sessionHistory: map<SessionId, seq<Event>>
    var sessionModels: map<SessionId, Json>
    var sessionStatusMap: map<SessionId, string>
    var sessionLastDisconnect: map<SessionId, int>
    var sessionLastToolName: map<SessionId, Json>
    var lastNotifErrorAt: int
    ghost var wire: seq<Cast>                  // every call of broadcast
    ghost var inbox: map<Socket, seq<Frame>>   // what each socket has been sent

    ghost function View(): State
      reads this
    {
      State(sessionClients, globalClients, sessionHistory, sessionModels, sessionStatusMap,
            sessionLastDisconnect, sessionLastToolName, lastNotifErrorAt, wire, inbox)
    }

    constructor ()
      ensures View() == INIT
    {
      sessionClients, globalClients, sessionHistory, sessionModels := map[], {}, map[], map[];
      sessionStatusMap, sessionLastDisconnect, sessionLastToolName := map[], map[], map[];
      lastNotifErrorAt := 0;
      wire, inbox := [], map[];
    }

    method SocketSend(client: Socket, frame: Frame)
      modifies this`inbox
      ensures inbox == Send(old(inbox), {client}, frame)
    {
      inbox := Send(inbox, {client}, frame);
    }

    method SendToAll(clients: set<Socket>, frame: Frame)
      modifies this`inbox
      ensures inbox == Send(old(inbox), clients, frame)
    {
      var rest := clients;
      while rest != {}
        invariant rest <= clients
        invariant inbox == Send(old(inbox), clients - rest, frame)
      {
        var client :| client in rest;
        SocketSend(client, frame);
        rest := rest - {client};
      }
    }

    method Broadcast(session: SessionId, event: Event, addToHistory: bool)
      modifies this
      ensures View() == AfterBroadcast(old(View()), Cast(session, event, addToHistory))
    {
      ghost var cast := Cast(session, event, addToHistory);
      wire := wire + [cast];
      if session in sessionClients {
        SendToAll(sessionClients[session], Live(Cast(session, event, addToHistory)));
      }
      SendToAll(globalClients, Live(Cast(session, event, addToHistory)));
      if addToHistory {
        var h := if session in sessionHistory then sessionHistory[session] else [];
        h := h + [event];
        sessionHistory := sessionHistory[session := h];
      }
      NobodyToSend(old(inbox), Live(cast));
    }

    lemma NobodyToSend(inbox: map<Socket, seq<Frame>>, f: Frame)
      ensures Send(inbox, {}, f) == inbox
    {}

    method SetStatus(session: SessionId, status: string)
      modifies this
      ensures View() == AfterSetStatus(old(View()), session, status)
    {
      sessionStatusMap := sessionStatusMap[session := status];
      Broadcast(session, StatusEvent(session, status), false);
    }

    method ToolReply(chat: SessionId, text: Json, msgId: string, now: int)
      modifies this
      ensures View() == Apply(old(View()), Reply(chat, text, msgId, now))
    {
      hide AfterBroadcast, AfterSetStatus, MessageStart, MessageUpdate, MessageEnd, AgentEnd;
      Broadcast(chat, MessageStart(chat, msgId, "assistant"), true);
      Broadcast(chat, MessageUpdate(chat, msgId, text), true);
      Broadcast(chat, MessageEnd(chat, msgId), true);
      Broadcast(chat, AgentEnd(chat, Str("completed"), Undefined, Num(now)), true);
      SetStatus(chat, "idle");
    }

    method ToolStatus(chat: SessionId, status: string, detail: Json)
      modifies this
      ensures View() == Apply(old(View()), StatusNote(chat, status, detail))
    {
      Broadcast(chat, StatusNoteEvent(chat, status, detail), false);
    }

    method FetchHistory(session: SessionId, limit: Option<int>) returns (events: seq<Event>)
      ensures events == Slice(Hist(View(), session), limit)
    {
      var history := if session in sessionHistory then sessionHistory[session] else [];
      events := Slice(history, limit);
    }

    /** The broadcast of request_permission; its promise is PermissionDesk.Request. */
    method ToolRequestPermission(chat: SessionId, requestId: string, tool: Json, description: Json, args: Json)
      modifies this
      ensures View() == Apply(old(View()), AskPermission(chat, requestId, tool, description, args))
    {
      Broadcast(chat, PermissionRequest(chat, requestId, tool, description, args), false);
    }

    method ToolSendEvent(chat: SessionId, kind: string, data: Event)
      modifies this
      ensures View() == Apply(old(View()), SendEvent(chat, kind, data))
    {
      if kind == "tool_execution" && Truthy(Field(data, "tool_name")) {
        sessionLastToolName := sessionLastToolName[chat := Field(data, "tool_name")];
      }
      Broadcast(chat, SentEvent(chat, kind, data), true);
    }

    method OnPrompt(ws: Socket, session: SessionId, now: int)
      modifies this
      ensures View() == Apply(old(View()), Prompt(ws, session, now))
    {
      hide AfterBroadcast, AfterSetStatus, AgentStart, PromptAck, Send;
      SetStatus(session, "streaming");
      Broadcast(session, AgentStart(session, Num(now)), true);
      SocketSend(ws, Direct(PromptAck(session, now)));
    }

    method OnFetchHistory(ws: Socket, session: SessionId, limit: Option<int>)
      modifies this
      ensures View() == Apply(old(View()), FetchOverSocket(ws, session, limit))
    {
      var events := FetchHistory(session, limit);
      SocketSend(ws, Direct(HistoryAnswer(session, events)));
    }

    method OnSetModel(session: SessionId, model: Json)
      modifies this
      ensures View() == Apply(old(View()), SetModel(session, model))
    {
      sessionModels := sessionModels[session := model];
    }

    method OnNotificationFailed(session: SessionId, message: string, now: int)
      modifies this
      ensures View() == Apply(old(View()), NotifyFailed(session, message, now))
    {
      if now - lastNotifErrorAt >= NOTIF_ERROR_COOLDOWN_MS {
        lastNotifErrorAt := now;
        if session != "" {
          Broadcast(session, DeliveryError(session, message), false);
        }
      }
    }

    /** The first half of the open handler: file the socket and forget that its session was left. */
    method Seat(ws: Socket)
      modifies this`globalClients, this`sessionClients, this`sessionLastDisconnect
      ensures View() == Seated(old(View()), ws)
    {
      if ws.session == "default" || ws.session == "" {
        globalClients := globalClients + {ws};
      } else {
        if ws.session !in sessionClients {
          sessionClients := sessionClients[ws.session := {}];
        }
        sessionClients := sessionClients[ws.session := sessionClients[ws.session] + {ws}];
      }
      sessionLastDisconnect := sessionLastDisconnect - {ws.session};
    }

    method OnOpen(ws: Socket)
      modifies this
      ensures View() == AfterOpen(old(View()), ws)
    {
      hide Send, StatusEvent, Seated;
      Seat(ws);
      var status :=
        if ws.session in sessionStatusMap && sessionStatusMap[ws.session] != ""
        then sessionStatusMap[ws.session] else "idle";
      SocketSend(ws, Direct(StatusEvent(ws.session, status)));
    }

    method OnClose(ws: Socket, now: int)
      modifies this
      ensures View() == AfterClose(old(View()), ws, now)
    {
      globalClients := globalClients - {ws};
      if ws.session in sessionClients {
        sessionClients := sessionClients[ws.session := sessionClients[ws.session] - {ws}];
        if sessionClients[ws.session] == {} {
          sessionClients := sessionClients - {ws.session};
          sessionLastDisconnect := sessionLastDisconnect[ws.session := now];
        }
      }
    }

    method HookSessionStart(session: SessionId, model: Json, cwd: Json, tools: Json, timestamp: Json)
      modifies this
      ensures View()
              == AfterSessionStart(old(View()), session, model, SessionInit(session, model, cwd, tools, timestamp))
    {
      hide AfterBroadcast, AfterSetStatus, SessionInit, StatusEvent;
      if Truthy(model) {
        sessionModels := sessionModels[session := model];
      }
      Broadcast(session, SessionInit(session, model, cwd, tools, timestamp), true);
      SetStatus(session, "idle");
    }

    method HookPostToolUse(session: SessionId, callId: string, tool: Json, input: Json, output: Json, error: Json,
                           timestamp: Json)
      modifies this
      ensures View() == AfterToolUse(old(View()), session, tool, output != Undefined && !Truthy(error),
                                     ToolStart(session, callId, tool, input, timestamp),
                                     ToolEnd(session, callId, output, error, timestamp))
    {
      hide AfterBroadcast, ToolStart, ToolEnd;
      if Truthy(tool) {
        sessionLastToolName := sessionLastToolName[session := tool];
      }
      if output != Undefined && !Truthy(error) {
        Broadcast(session, ToolStart(session, callId, tool, input, timestamp), true);
      }
      Broadcast(session, ToolEnd(session, callId, output, error, timestamp), true);
    }

    method HookStop(session: SessionId, usage: Json, reason: Json, timestamp: Json)
      modifies this
      ensures View() == Apply(old(View()), Stop(session, usage, reason, timestamp))
    {
      hide AfterBroadcast, AfterSetStatus, AgentEnd;
      Broadcast(session, AgentEnd(session, reason, usage, timestamp), true);
      SetStatus(session, "idle");
    }

    method HookUserPrompt(session: SessionId, msgId: string, text: Json, timestamp: Json)
      modifies this
      ensures View() == Apply(old(View()), UserPrompt(session, msgId, text, timestamp))
    {
      hide AfterBroadcast, AgentStart, MessageStart, MessageUpdate, MessageEnd;
      Broadcast(session, AgentStart(session, timestamp), true);
      Broadcast(session, MessageStart(session, msgId, "user"), true);
      Broadcast(session, MessageUpdate(session, msgId, text), true);
      Broadcast(session, MessageEnd(session, msgId), true);
    }

    lemma DropOne<V>(m: map<SessionId, V>, gone: set<SessionId>, id: SessionId)
      ensures m - gone - {id} == m - (gone + {id})
    {}

    method SessionsToDelete(now: int) returns (toDelete: set<SessionId>)
      ensures toDelete == Expired(View(), now)
    {
      toDelete := {};
      var rest := sessionLastDisconnect.Keys;
      while rest != {}
        invariant rest <= sessionLastDisconnect.Keys
        invariant toDelete == Expired(View(), now) - rest
      {
        var session :| session in rest;
        if session !in sessionClients && now - sessionLastDisconnect[session] > IDLE_MS {
          toDelete := toDelete + {session};
        }
        rest := rest - {session};
      }
    }

    method PruneTick(now: int)
      modifies `sessionHistory, `sessionModels, `sessionStatusMap, `sessionLastDisconnect
      ensures View() == AfterPrune(old(View()), now)
    {
      hide Expired;
      var toDelete := SessionsToDelete(now);
      var rest := toDelete;
      ghost var gone: set<SessionId> := {};
      while rest != {}
        invariant gone + rest == toDelete
        invariant sessionHistory == old(sessionHistory) - gone
        invariant sessionModels == old(sessionModels) - gone
        invariant sessionStatusMap == old(sessionStatusMap) - gone
        invariant sessionLastDisconnect == old(sessionLastDisconnect) - gone
        decreases rest
      {
        var id :| id in rest;
        sessionHistory := sessionHistory - {id};
        sessionModels := sessionModels - {id};
        sessionStatusMap := sessionStatusMap - {id};
        sessionLastDisconnect := sessionLastDisconnect - {id};
        DropOne(old(sessionHistory), gone, id);
        DropOne(old(sessionModels), gone, id);
        DropOne(old(sessionStatusMap), gone, id);
        DropOne(old(sessionLastDisconnect), gone, id);
        rest, gone := rest - {id}, gone + {id};
      }
    }
  }
}
