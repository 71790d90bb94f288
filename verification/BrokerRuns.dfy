/** What the broker keeps over whole runs. */
module BrokerRuns {
  import opened Common
  import opened Broker

  // ---------------------------------------------------------------------
  // Reference definitions, over the wire and over the trace alone

  /** Which broadcasts each handler makes, in order. */
  function Casts(st: State, step: Step): seq<Cast> {
    match step
    case Reply(chat, text, msgId, now) =>
      [Cast(chat, MessageStart(chat, msgId, "assistant"), true),
       Cast(chat, MessageUpdate(chat, msgId, text), true),
       Cast(chat, MessageEnd(chat, msgId), true),
       Cast(chat, AgentEnd(chat, Str("completed"), Undefined, Num(now)), true),
       Cast(chat, StatusEvent(chat, "idle"), false)]
    case StatusNote(chat, note, detail) => [Cast(chat, StatusNoteEvent(chat, note, detail), false)]
    case AskPermission(chat, requestId, tool, description, args) =>
      [Cast(chat, PermissionRequest(chat, requestId, tool, description, args), false)]
    case SendEvent(chat, kind, data) => [Cast(chat, SentEvent(chat, kind, data), true)]
    case Prompt(ws, session, now) =>
      [Cast(session, StatusEvent(session, "streaming"), false), Cast(session, AgentStart(session, Num(now)), true)]
    case NotifyFailed(session, message, now) =>
      if ReportsFailure(st, step) && session != "" then [Cast(session, DeliveryError(session, message), false)] else []
    case SessionStart(session, model, cwd, tools, timestamp) =>
      [Cast(session, SessionInit(session, model, cwd, tools, timestamp), true),
       Cast(session, StatusEvent(session, "idle"), false)]
    case PostToolUse(session, callId, tool, input, output, error, timestamp) =>
      (if output == Undefined || Truthy(error) then []
       else [Cast(session, ToolStart(session, callId, tool, input, timestamp), true)])
      + [Cast(session, ToolEnd(session, callId, output, error, timestamp), true)]
    case Stop(session, usage, reason, timestamp) =>
      [Cast(session, AgentEnd(session, reason, usage, timestamp), true),
       Cast(session, StatusEvent(session, "idle"), false)]
    case UserPrompt(session, msgId, text, timestamp) =>
      [Cast(session, AgentStart(session, timestamp), true),
       Cast(session, MessageStart(session, msgId, "user"), true),
       Cast(session, MessageUpdate(session, msgId, text), true),
       Cast(session, MessageEnd(session, msgId), true)]
    case FetchOverSocket(_, _, _) => []
    case SetModel(_, _) => []
    case Open(_) => []
    case Close(_, _) => []
    case Prune(_) => []
    case Ignored => []
  }

  /** The recorded broadcasts for `s`, in order. */
  function Recorded(casts: seq<Cast>, s: SessionId): seq<Event>
    decreases |casts|
  {
    if casts == [] then []
    else
      var c := casts[|casts| - 1];
      Recorded(casts[..|casts| - 1], s) + (if c.recorded && c.session == s then [c.event] else [])
  }

  predicate Hears(c: Socket, cast: Cast) {
    IsGlobal(c.session) || c.session == cast.session
  }

  /** The broadcasts meant for socket `c`, in order. */
  function Audible(casts: seq<Cast>, c: Socket): seq<Cast>
    decreases |casts|
  {
    if casts == [] then []
    else
      var last := casts[|casts| - 1];
      Audible(casts[..|casts| - 1], c) + (if Hears(c, last) then [last] else [])
  }

  /** The broadcasts among a socket's frames. */
  function LiveCasts(frames: seq<Frame>): seq<Cast>
    decreases |frames|
  {
    if frames == [] then []
    else
      var last := frames[|frames| - 1];
      LiveCasts(frames[..|frames| - 1]) + (if last.Live? then [last.cast] else [])
  }

  predicate Connected(st: State, c: Socket) {
    c in st.globals || c in ClientsOf(st, c.session)
  }

  predicate Prunes(st: State, step: Step, s: SessionId) {
    step.Prune? && s in Expired(st, step.now)
  }

  /** No client set is empty, every socket is filed once, under its own session, and no
      session is both connected and counted as disconnected. */
  ghost predicate Valid(st: State) {
    && (forall s <- st.clients ::
          && st.clients[s] != {} && !IsGlobal(s) && s !in st.lastDisconnect
          && forall c <- st.clients[s] :: c.session == s)
    && (forall c <- st.globals :: IsGlobal(c.session))
  }

  // ---------------------------------------------------------------------
  // One broadcast, then one step

  /** `st` differs from `base` by the broadcasts `casts`, as far as clients, cache and wire go. */
  ghost predicate Extends(base: State, st: State, casts: seq<Cast>) {
    && st.clients == base.clients && st.globals == base.globals && st.lastDisconnect == base.lastDisconnect
    && st.wire == base.wire + casts
    && (forall s :: Hist(st, s) == Hist(base, s) + Recorded(casts, s))
    && (forall c :: LiveCasts(Got(st.inbox, c))
                    == LiveCasts(Got(base.inbox, c)) + (if Connected(base, c) then Audible(casts, c) else []))
  }

  lemma LiveAppend(frames: seq<Frame>, f: Frame)
    ensures LiveCasts(frames + [f]) == LiveCasts(frames) + (if f.Live? then [f.cast] else [])
  {
    assert (frames + [f])[..|frames|] == frames;
  }

  lemma HeardOnce(st: State, cast: Cast, c: Socket)
    requires Valid(st)
    ensures Got(AfterBroadcast(st, cast).inbox, c)
            == Got(st.inbox, c) + (if Connected(st, c) && Hears(c, cast) then [Live(cast)] else [])
  {}

  lemma ExtendHist(base: State, st: State, casts: seq<Cast>, cast: Cast, s: SessionId)
    requires Hist(st, s) == Hist(base, s) + Recorded(casts, s)
    ensures Hist(AfterBroadcast(st, cast), s) == Hist(base, s) + Recorded(casts + [cast], s)
  {
    assert (casts + [cast])[..|casts|] == casts;
  }

  lemma AudibleAppend(casts: seq<Cast>, cast: Cast, c: Socket)
    ensures Audible(casts + [cast], c) == Audible(casts, c) + (if Hears(c, cast) then [cast] else [])
  {
    assert (casts + [cast])[..|casts|] == casts;
  }

  lemma HearMore(was: seq<Frame>, now: seq<Frame>, pre: seq<Cast>, casts: seq<Cast>, cast: Cast, c: Socket, on: bool)
    requires now == was + (if on && Hears(c, cast) then [Live(cast)] else [])
    requires LiveCasts(was) == pre + (if on then Audible(casts, c) else [])
    ensures LiveCasts(now) == pre + (if on then Audible(casts + [cast], c) else [])
  {
    hide Audible, LiveCasts;
    AudibleAppend(casts, cast, c);
    if on && Hears(c, cast) {
      LiveAppend(was, Live(cast));
      assert pre + Audible(casts, c) + [cast] == pre + (Audible(casts, c) + [cast]);
    } else {
      assert now == was;
    }
  }

  lemma ExtendInbox(base: State, st: State, casts: seq<Cast>, cast: Cast, c: Socket)
    requires Valid(st) && Connected(st, c) == Connected(base, c)
    requires LiveCasts(Got(st.inbox, c))
             == LiveCasts(Got(base.inbox, c)) + (if Connected(base, c) then Audible(casts, c) else [])
    ensures LiveCasts(Got(AfterBroadcast(st, cast).inbox, c))
            == LiveCasts(Got(base.inbox, c)) + (if Connected(base, c) then Audible(casts + [cast], c) else [])
  {
    HeardOnce(st, cast, c);
    HearMore(Got(st.inbox, c), Got(AfterBroadcast(st, cast).inbox, c), LiveCasts(Got(base.inbox, c)), casts, cast, c,
             Connected(st, c));
  }

  lemma Extend(base: State, st: State, casts: seq<Cast>, cast: Cast)
    requires Valid(base) && Extends(base, st, casts)
    ensures Extends(base, AfterBroadcast(st, cast), casts + [cast])
  {
    assert Valid(st);
    forall c: Socket { ExtendInbox(base, st, casts, cast, c); }
    forall s { ExtendHist(base, st, casts, cast, s); }
  }

  lemma DirectIsNotLive(inbox: map<Socket, seq<Frame>>, ws: Socket, e: Event, c: Socket)
    ensures LiveCasts(Got(Send(inbox, {ws}, Direct(e)), c)) == LiveCasts(Got(inbox, c))
  {
    if c == ws {
      LiveAppend(Got(inbox, c), Direct(e));
    }
  }

  lemma Same(st: State, st': State)
    requires st'.clients == st.clients && st'.globals == st.globals && st'.lastDisconnect == st.lastDisconnect
    requires st'.wire == st.wire && st'.history == st.history && st'.inbox == st.inbox
    ensures Extends(st, st', [])
  {}

  lemma One(st: State, st0: State, cast: Cast)
    requires Valid(st) && Extends(st, st0, [])
    ensures Extends(st, AfterBroadcast(st0, cast), [cast])
  {
    Extend(st, st0, [], cast);
    assert [] + [cast] == [cast];
  }

  lemma OneStatus(st: State, session: SessionId, status: string)
    requires Valid(st)
    ensures Extends(st, AfterSetStatus(st, session, status), [Cast(session, StatusEvent(session, status), false)])
  {
    var s0 := st.(status := st.status[session := status]);
    Same(st, s0);
    One(st, s0, Cast(session, StatusEvent(session, status), false));
  }

  lemma RecordedSplit(x: seq<Cast>, y: seq<Cast>, s: SessionId)
    ensures Recorded(x + y, s) == Recorded(x, s) + Recorded(y, s)
    decreases |y|
  {
    if y == [] {
      assert x + y == x;
    } else {
      assert (x + y)[..|x + y| - 1] == x + y[..|y| - 1];
      RecordedSplit(x, y[..|y| - 1], s);
    }
  }

  lemma AudibleSplit(x: seq<Cast>, y: seq<Cast>, c: Socket)
    ensures Audible(x + y, c) == Audible(x, c) + Audible(y, c)
    decreases |y|
  {
    if y == [] {
      assert x + y == x;
    } else {
      assert (x + y)[..|x + y| - 1] == x + y[..|y| - 1];
      AudibleSplit(x, y[..|y| - 1], c);
    }
  }

  lemma Assoc<T>(x: seq<T>, y: seq<T>, z: seq<T>)
    ensures (x + y) + z == x + (y + z)
  {}

  lemma ChainHist(a: State, b: State, d: State, x: seq<Cast>, y: seq<Cast>, s: SessionId)
    requires Hist(b, s) == Hist(a, s) + Recorded(x, s)
    requires Hist(d, s) == Hist(b, s) + Recorded(y, s)
    ensures Hist(d, s) == Hist(a, s) + Recorded(x + y, s)
  {
    RecordedSplit(x, y, s);
    Assoc(Hist(a, s), Recorded(x, s), Recorded(y, s));
  }

  lemma ChainHeard(p: seq<Cast>, q: seq<Cast>, r: seq<Cast>, x: seq<Cast>, y: seq<Cast>, c: Socket, on: bool)
    requires q == p + (if on then Audible(x, c) else [])
    requires r == q + (if on then Audible(y, c) else [])
    ensures r == p + (if on then Audible(x + y, c) else [])
  {
    AudibleSplit(x, y, c);
    Assoc(p, Audible(x, c), Audible(y, c));
  }

  lemma Chain(a: State, b: State, d: State, x: seq<Cast>, y: seq<Cast>)
    requires Extends(a, b, x) && Extends(b, d, y)
    ensures Extends(a, d, x + y)
  {
    forall s ensures Hist(d, s) == Hist(a, s) + Recorded(x + y, s) { ChainHist(a, b, d, x, y, s); }
    forall c: Socket
      ensures LiveCasts(Got(d.inbox, c))
              == LiveCasts(Got(a.inbox, c)) + (if Connected(a, c) then Audible(x + y, c) else [])
    {
      assert Connected(a, c) == Connected(b, c);
      ChainHeard(LiveCasts(Got(a.inbox, c)), LiveCasts(Got(b.inbox, c)), LiveCasts(Got(d.inbox, c)), x, y, c,
                 Connected(a, c));
    }
    Assoc(a.wire, x, y);
  }

  lemma Two(st: State, a: Cast, b: Cast)
    requires Valid(st)
    ensures Valid(AfterBroadcast(AfterBroadcast(st, a), b))
    ensures Extends(st, AfterBroadcast(AfterBroadcast(st, a), b), [a, b])
  {
    var s1 := AfterBroadcast(st, a);
    Same(st, st);
    One(st, st, a);
    Same(s1, s1);
    One(s1, s1, b);
    Chain(st, s1, AfterBroadcast(s1, b), [a], [b]);
    assert [a] + [b] == [a, b];
  }

  lemma Four(st: State, a: Cast, b: Cast, c: Cast, d: Cast)
    requires Valid(st)
    ensures var s4 := AfterBroadcast(AfterBroadcast(AfterBroadcast(AfterBroadcast(st, a), b), c), d);
            Valid(s4) && Extends(st, s4, [a, b, c, d])
  {
    var s2 := AfterBroadcast(AfterBroadcast(st, a), b);
    Two(st, a, b);
    Two(s2, c, d);
    Chain(st, s2, AfterBroadcast(AfterBroadcast(s2, c), d), [a, b], [c, d]);
    assert [a, b] + [c, d] == [a, b, c, d];
  }

  lemma ThenStatus(st: State, mid: State, casts: seq<Cast>, session: SessionId, status: string)
    requires Valid(st) && Valid(mid) && Extends(st, mid, casts)
    ensures Extends(st, AfterSetStatus(mid, session, status),
                    casts + [Cast(session, StatusEvent(session, status), false)])
  {
    OneStatus(mid, session, status);
    Chain(st, mid, AfterSetStatus(mid, session, status), casts, [Cast(session, StatusEvent(session, status), false)]);
  }

  /** `after` is `st` with the broadcasts `casts` made; only a prune may shorten a session's cache. */
  ghost predicate Announced(st: State, step: Step, after: State, casts: seq<Cast>) {
    && after.wire == st.wire + casts
    && (forall s :: !Prunes(st, step, s) ==> Hist(after, s) == Hist(st, s) + Recorded(casts, s))
    && (forall c :: LiveCasts(Got(after.inbox, c))
                    == LiveCasts(Got(st.inbox, c)) + (if Connected(st, c) then Audible(casts, c) else []))
  }

  /** What a step does to cache, wire and inboxes is exactly what `Casts` announces. */
  ghost predicate Announces(st: State, step: Step) {
    Announced(st, step, Apply(st, step), Casts(st, step))
  }

  lemma ReplyExtends(st: State, chat: SessionId, a: Cast, b: Cast, c: Cast, d: Cast)
    requires Valid(st)
    ensures var s4 := AfterBroadcast(AfterBroadcast(AfterBroadcast(AfterBroadcast(st, a), b), c), d);
            Extends(st, AfterSetStatus(s4, chat, "idle"), [a, b, c, d, Cast(chat, StatusEvent(chat, "idle"), false)])
  {
    hide *;
    Four(st, a, b, c, d);
    var s4 := AfterBroadcast(AfterBroadcast(AfterBroadcast(AfterBroadcast(st, a), b), c), d);
    ThenStatus(st, s4, [a, b, c, d], chat, "idle");
    var idle := Cast(chat, StatusEvent(chat, "idle"), false);
    assert [a, b, c, d] + [idle] == [a, b, c, d, idle];
  }

  lemma QuietThenOne(st: State, st0: State, cast: Cast)
    requires Valid(st)
    requires st0.clients == st.clients && st0.globals == st.globals && st0.lastDisconnect == st.lastDisconnect
    requires st0.wire == st.wire && st0.history == st.history && st0.inbox == st.inbox
    ensures Extends(st, AfterBroadcast(st0, cast), [cast])
  {
    Same(st, st0);
    One(st, st0, cast);
  }

  lemma ExtendsIsAnnounced(st: State, step: Step, after: State, casts: seq<Cast>)
    requires Extends(st, after, casts)
    ensures Announced(st, step, after, casts)
  {
    hide Connected, LiveCasts, Hist, Got, Recorded, Audible;
  }

  /** Frames for one socket alone leave every broadcast where it was. */
  lemma Answered(st: State, mid: State, casts: seq<Cast>, ws: Socket, e: Event)
    requires Extends(st, mid, casts)
    ensures Extends(st, Answer(mid, ws, e), casts)
  {
    var st' := Answer(mid, ws, e);
    forall c: Socket
      ensures LiveCasts(Got(st'.inbox, c)) == LiveCasts(Got(mid.inbox, c))
    {
      DirectIsNotLive(mid.inbox, ws, e, c);
    }
    forall s ensures Hist(st', s) == Hist(mid, s) {}
  }

  lemma PromptExtends(st: State, ws: Socket, session: SessionId, start: Cast, ack: Event)
    requires Valid(st)
    ensures Extends(st, Answer(AfterBroadcast(AfterSetStatus(st, session, "streaming"), start), ws, ack),
                    [Cast(session, StatusEvent(session, "streaming"), false), start])
  {
    var status := Cast(session, StatusEvent(session, "streaming"), false);
    var s0 := st.(status := st.status[session := "streaming"]);
    Two(s0, status, start);
    Same(st, s0);
    Chain(st, s0, AfterBroadcast(AfterBroadcast(s0, status), start), [], [status, start]);
    assert [] + [status, start] == [status, start];
    Answered(st, AfterBroadcast(AfterBroadcast(s0, status), start), [status, start], ws, ack);
  }

  lemma OneThenIdle(st: State, st0: State, a: Cast, session: SessionId)
    requires Valid(st)
    requires st0.clients == st.clients && st0.globals == st.globals && st0.lastDisconnect == st.lastDisconnect
    requires st0.wire == st.wire && st0.history == st.history && st0.inbox == st.inbox
    ensures Extends(st, AfterSetStatus(AfterBroadcast(st0, a), session, "idle"),
                    [a, Cast(session, StatusEvent(session, "idle"), false)])
  {
    QuietThenOne(st, st0, a);
    ThenStatus(st, AfterBroadcast(st0, a), [a], session, "idle");
    var idle := Cast(session, StatusEvent(session, "idle"), false);
    assert [a] + [idle] == [a, idle];
  }

  lemma ToolExtends(st: State, st0: State, start: Option<Cast>, end: Cast)
    requires Valid(st)
    requires st0.clients == st.clients && st0.globals == st.globals && st0.lastDisconnect == st.lastDisconnect
    requires st0.wire == st.wire && st0.history == st.history && st0.inbox == st.inbox
    ensures Extends(st, AfterBroadcast(if start.Some? then AfterBroadcast(st0, start.value) else st0, end),
                    (if start.Some? then [start.value] else []) + [end])
  {
    hide AfterBroadcast, Extends;
    if start.Some? {
      Two(st0, start.value, end);
      Same(st, st0);
      Chain(st, st0, AfterBroadcast(AfterBroadcast(st0, start.value), end), [], [start.value, end]);
      assert [] + [start.value, end] == [start.value] + [end];
    } else {
      QuietThenOne(st, st0, end);
      assert [] + [end] == [end];
    }
  }

  lemma Silent(st: State, step: Step, after: State)
    requires after.wire == st.wire
    requires forall s :: !Prunes(st, step, s) ==> Hist(after, s) == Hist(st, s)
    requires forall c :: LiveCasts(Got(after.inbox, c)) == LiveCasts(Got(st.inbox, c))
    ensures Announced(st, step, after, [])
  {
    hide Connected, LiveCasts, Hist, Got;
  }

  lemma AnswerSilent(st: State, step: Step, seated: State, ws: Socket, e: Event)
    requires seated.wire == st.wire && seated.history == st.history && seated.inbox == st.inbox
    ensures Announced(st, step, Answer(seated, ws, e), [])
  {
    hide Connected, LiveCasts, Send, Announced;
    forall c: Socket { DirectIsNotLive(st.inbox, ws, e, c); }
    Silent(st, step, Answer(seated, ws, e));
  }

  lemma OpenAnnounces(st: State, ws: Socket)
    ensures Announced(st, Open(ws), AfterOpen(st, ws), [])
  {
    hide Announced, Answer, StatusEvent, Told;
    AnswerSilent(st, Open(ws), Seated(st, ws), ws, StatusEvent(ws.session, Told(Seated(st, ws), ws.session)));
  }

  lemma PruneAnnounces(st: State, now: int)
    ensures Announced(st, Prune(now), AfterPrune(st, now), [])
  {
    hide Connected, LiveCasts, Announced;
    Silent(st, Prune(now), AfterPrune(st, now));
  }

  lemma CloseAnnounces(st: State, ws: Socket, now: int)
    ensures Announced(st, Close(ws, now), AfterClose(st, ws, now), [])
  {
    hide Connected, LiveCasts, Announced;
    Silent(st, Close(ws, now), AfterClose(st, ws, now));
  }

  lemma OtherExtends(st: State, step: Step)
    requires Valid(st)
    requires || step.StatusNote? || step.AskPermission? || step.SendEvent? || step.Prompt?
             || step.NotifyFailed? || step.FetchOverSocket?
    ensures Extends(st, Apply(st, step), Casts(st, step))
  {
    hide AfterBroadcast, AfterSetStatus, Answer, Extends, Valid, Hist, Slice, HistoryAnswer, Base, StatusEvent;
    hide StatusNoteEvent, SentEvent, PermissionRequest, AgentStart, PromptAck, DeliveryError;
    match step
    case StatusNote(chat, note, detail) =>
      QuietThenOne(st, st, Cast(chat, StatusNoteEvent(chat, note, detail), false));
    case AskPermission(chat, requestId, tool, description, args) =>
      QuietThenOne(st, st, Cast(chat, PermissionRequest(chat, requestId, tool, description, args), false));
    case SendEvent(chat, kind, data) =>
      var s1 := st.(lastTool := if kind == "tool_execution" && Truthy(Field(data, "tool_name"))
                                then st.lastTool[chat := Field(data, "tool_name")] else st.lastTool);
      QuietThenOne(st, s1, Cast(chat, SentEvent(chat, kind, data), true));
    case Prompt(ws, session, now) =>
      PromptExtends(st, ws, session, Cast(session, AgentStart(session, Num(now)), true), PromptAck(session, now));
    case NotifyFailed(session, message, now) =>
      if !ReportsFailure(st, step) {
        Same(st, st);
      } else if session == "" {
        Same(st, st.(lastNotifErrorAt := now));
      } else {
        QuietThenOne(st, st.(lastNotifErrorAt := now), Cast(session, DeliveryError(session, message), false));
      }
    case FetchOverSocket(ws, session, limit) =>
      Same(st, st);
      Answered(st, st, [], ws, HistoryAnswer(session, Slice(Hist(st, session), limit)));
  }

  lemma HookExtends(st: State, step: Step)
    requires Valid(st) && (step.SessionStart? || step.PostToolUse? || step.Stop?)
    ensures Extends(st, Apply(st, step), Casts(st, step))
  {
    hide AfterBroadcast, AfterSetStatus, Answer, Extends, Valid, Base, StatusEvent, AgentEnd, SessionInit;
    hide ToolStart, ToolEnd;
    match step
    case SessionStart(session, model, cwd, tools, timestamp) =>
      var s1 := st.(models := if Truthy(model) then st.models[session := model] else st.models);
      OneThenIdle(st, s1, Cast(session, SessionInit(session, model, cwd, tools, timestamp), true), session);
    case PostToolUse(session, callId, tool, input, output, error, timestamp) =>
      var s1 := st.(lastTool := if Truthy(tool) then st.lastTool[session := tool] else st.lastTool);
      var start := if output != Undefined && !Truthy(error)
                   then Some(Cast(session, ToolStart(session, callId, tool, input, timestamp), true)) else None;
      ToolExtends(st, s1, start, Cast(session, ToolEnd(session, callId, output, error, timestamp), true));
    case Stop(session, usage, reason, timestamp) =>
      OneThenIdle(st, st, Cast(session, AgentEnd(session, reason, usage, timestamp), true), session);
  }

  predicate MovesSockets(step: Step) {
    step.Open? || step.Close? || step.Prune?
  }

  lemma StepExtends(st: State, step: Step)
    requires Valid(st) && !MovesSockets(step)
    ensures Extends(st, Apply(st, step), Casts(st, step))
  {
    hide AfterBroadcast, AfterSetStatus, Answer, Extends, Valid;
    match step
    case Reply(chat, text, msgId, now) =>
      ReplyExtends(st, chat, Cast(chat, MessageStart(chat, msgId, "assistant"), true),
                   Cast(chat, MessageUpdate(chat, msgId, text), true),
                   Cast(chat, MessageEnd(chat, msgId), true),
                   Cast(chat, AgentEnd(chat, Str("completed"), Undefined, Num(now)), true));
    case UserPrompt(session, msgId, text, timestamp) =>
      Four(st, Cast(session, AgentStart(session, timestamp), true),
           Cast(session, MessageStart(session, msgId, "user"), true),
           Cast(session, MessageUpdate(session, msgId, text), true),
           Cast(session, MessageEnd(session, msgId), true));
    case SetModel(session, model) => Same(st, Apply(st, step));
    case Ignored => Same(st, st);
    case SessionStart(_, _, _, _, _) => HookExtends(st, step);
    case PostToolUse(_, _, _, _, _, _, _) => HookExtends(st, step);
    case Stop(_, _, _, _) => HookExtends(st, step);
    case _ => OtherExtends(st, step);
  }

  lemma StepAnnounces(st: State, step: Step)
    requires Valid(st)
    ensures Announces(st, step)
  {
    hide Extends, Valid, Announced, AfterOpen, AfterClose, AfterPrune, Expired;
    match step
    case Open(ws) => OpenAnnounces(st, ws);
    case Prune(now) => PruneAnnounces(st, now);
    case Close(ws, now) => CloseAnnounces(st, ws, now);
    case _ =>
      StepExtends(st, step);
      ExtendsIsAnnounced(st, step, Apply(st, step), Casts(st, step));
  }

  // ---------------------------------------------------------------------
  // Invariants

  lemma ValidStep(st: State, step: Step)
    requires Valid(st)
    ensures Valid(Apply(st, step))
  {
    match step
    case Open(ws) => ValidOpen(st, ws);
    case Close(ws, now) => ValidClose(st, ws, now);
    case Prune(now) => ValidPrune(st, now);
    case _ =>
      StepExtends(st, step);
      ValidSeats(st, Apply(st, step));
  }

  lemma ValidSeats(st: State, after: State)
    requires Valid(st)
    requires after.clients == st.clients && after.globals == st.globals && after.lastDisconnect == st.lastDisconnect
    ensures Valid(after)
  {}

  lemma ValidOpen(st: State, ws: Socket)
    requires Valid(st)
    ensures Valid(AfterOpen(st, ws))
  {
    hide Send, StatusEvent, Told;
  }

  lemma ValidClose(st: State, ws: Socket, now: int)
    requires Valid(st)
    ensures Valid(AfterClose(st, ws, now))
  {}

  lemma ValidPrune(st: State, now: int)
    requires Valid(st)
    ensures Valid(AfterPrune(st, now))
  {}

  lemma {:induction false} ValidRun(st: State, trace: seq<Step>)
    requires Valid(st)
    ensures Valid(Run(st, trace))
    decreases |trace|
  {
    if trace != [] {
      ValidRun(st, trace[..|trace| - 1]);
      ValidStep(Run(st, trace[..|trace| - 1]), trace[|trace| - 1]);
    }
  }

  // ---------------------------------------------------------------------
  // The replay cache against the live stream

  /** The broadcasts a run makes: its handlers' announcements, one after the other. */
  function AllCasts(st: State, trace: seq<Step>): seq<Cast>
    decreases |trace|
  {
    if trace == [] then []
    else
      var before := trace[..|trace| - 1];
      AllCasts(st, before) + Casts(Run(st, before), trace[|trace| - 1])
  }

  ghost predicate NeverPruned(st: State, trace: seq<Step>, s: SessionId) {
    forall i :: 0 <= i < |trace| ==> !Prunes(Run(st, trace[..i]), trace[i], s)
  }

  ghost predicate StaysConnected(st: State, trace: seq<Step>, c: Socket) {
    forall i :: 0 <= i < |trace| ==> Connected(Run(st, trace[..i]), c)
  }

  lemma OneMoreStep(st: State, before: seq<Step>, step: Step)
    ensures Run(st, before + [step]) == Apply(Run(st, before), step)
    ensures AllCasts(st, before + [step]) == AllCasts(st, before) + Casts(Run(st, before), step)
  {
    hide Apply, Casts;
    assert (before + [step])[..|before|] == before;
  }

  lemma NeverPrunedBefore(st: State, before: seq<Step>, step: Step, s: SessionId)
    requires NeverPruned(st, before + [step], s)
    ensures NeverPruned(st, before, s) && !Prunes(Run(st, before), step, s)
  {
    hide Run, Prunes;
    var trace := before + [step];
    assert trace[..|before|] == before && trace[|before|] == step;
    forall i | 0 <= i < |before| ensures !Prunes(Run(st, before[..i]), before[i], s) {
      assert trace[..i] == before[..i] && trace[i] == before[i];
    }
  }

  lemma ConnectedBefore(st: State, before: seq<Step>, step: Step, c: Socket)
    requires StaysConnected(st, before + [step], c)
    ensures StaysConnected(st, before, c) && Connected(Run(st, before), c)
  {
    hide Run, Connected;
    var trace := before + [step];
    assert trace[..|before|] == before;
    forall i | 0 <= i < |before| ensures Connected(Run(st, before[..i]), c) {
      assert trace[..i] == before[..i];
    }
  }

  lemma {:induction false} WireLogsEveryCast(st: State, trace: seq<Step>)
    requires Valid(st)
    ensures Run(st, trace).wire == st.wire + AllCasts(st, trace)
    decreases |trace|
  {
    if trace != [] {
      var before := trace[..|trace| - 1];
      WireLogsEveryCast(st, before);
      ValidRun(st, before);
      StepAnnounces(Run(st, before), trace[|trace| - 1]);
      Assoc(st.wire, AllCasts(st, before), Casts(Run(st, before), trace[|trace| - 1]));
    }
  }

  lemma CacheStep(st: State, before: seq<Step>, step: Step, s: SessionId)
    requires Valid(Run(st, before)) && !Prunes(Run(st, before), step, s)
    requires Hist(Run(st, before), s) == Hist(st, s) + Recorded(AllCasts(st, before), s)
    ensures Hist(Run(st, before + [step]), s) == Hist(st, s) + Recorded(AllCasts(st, before + [step]), s)
  {
    hide Run, AllCasts, Apply, Casts, Valid, Hist, Recorded, Prunes;
    OneMoreStep(st, before, step);
    var mid := Run(st, before);
    StepAnnounces(mid, step);
    ChainHist(st, mid, Run(st, before + [step]), AllCasts(st, before), Casts(mid, step), s);
  }

  /** Replay: while `s` is not pruned, its cache grows by exactly its recorded broadcasts. */
  lemma {:induction false} CacheIsRecordedWire(st: State, trace: seq<Step>, s: SessionId)
    requires Valid(st) && NeverPruned(st, trace, s)
    ensures Hist(Run(st, trace), s) == Hist(st, s) + Recorded(AllCasts(st, trace), s)
    decreases |trace|
  {
    hide Apply, Casts, Valid, Hist, Prunes, NeverPruned;
    if trace != [] {
      var before, step := trace[..|trace| - 1], trace[|trace| - 1];
      assert before + [step] == trace;
      NeverPrunedBefore(st, before, step, s);
      CacheIsRecordedWire(st, before, s);
      ValidRun(st, before);
      CacheStep(st, before, step, s);
    }
  }

  lemma HearStep(st: State, before: seq<Step>, step: Step, c: Socket)
    requires Valid(Run(st, before)) && Connected(Run(st, before), c)
    requires LiveCasts(Got(Run(st, before).inbox, c)) == LiveCasts(Got(st.inbox, c)) + Audible(AllCasts(st, before), c)
    ensures LiveCasts(Got(Run(st, before + [step]).inbox, c))
            == LiveCasts(Got(st.inbox, c)) + Audible(AllCasts(st, before + [step]), c)
  {
    hide Run, AllCasts, Apply, Casts, Valid, Audible, LiveCasts, Connected, Got;
    OneMoreStep(st, before, step);
    var mid := Run(st, before);
    StepAnnounces(mid, step);
    ChainHeard(LiveCasts(Got(st.inbox, c)), LiveCasts(Got(mid.inbox, c)),
               LiveCasts(Got(Run(st, before + [step]).inbox, c)), AllCasts(st, before), Casts(mid, step), c, true);
  }

  /** Live: a socket connected throughout is sent exactly the broadcasts meant for it, once each, in order. */
  lemma {:induction false} ConnectedHearsEverything(st: State, trace: seq<Step>, c: Socket)
    requires Valid(st) && StaysConnected(st, trace, c)
    ensures LiveCasts(Got(Run(st, trace).inbox, c)) == LiveCasts(Got(st.inbox, c)) + Audible(AllCasts(st, trace), c)
    decreases |trace|
  {
    hide Apply, Casts, Valid, LiveCasts, Got, Connected, StaysConnected;
    if trace != [] {
      var before, step := trace[..|trace| - 1], trace[|trace| - 1];
      assert before + [step] == trace;
      ConnectedBefore(st, before, step, c);
      ConnectedHearsEverything(st, before, c);
      ValidRun(st, before);
      HearStep(st, before, step, c);
    }
  }

  lemma {:induction false} RecordedOfAudible(casts: seq<Cast>, c: Socket, s: SessionId)
    requires IsGlobal(c.session) || c.session == s
    ensures Recorded(Audible(casts, c), s) == Recorded(casts, s)
    decreases |casts|
  {
    if casts != [] {
      var before, last := casts[..|casts| - 1], casts[|casts| - 1];
      RecordedOfAudible(before, c, s);
      if Hears(c, last) {
        RecordedSplit(Audible(before, c), [last], s);
        assert Recorded([last], s) == (if last.recorded && last.session == s then [last.event] else []);
      } else {
        assert Audible(casts, c) == Audible(before, c);
      }
    }
  }

  /** Replay agrees with live: what the cache of `s` gained is the recorded part, for `s`, of what any
      session or global client connected throughout received. */
  lemma ReplayAgreesWithLive(st: State, trace: seq<Step>, c: Socket, s: SessionId)
    requires Valid(st) && NeverPruned(st, trace, s) && StaysConnected(st, trace, c)
    requires IsGlobal(c.session) || c.session == s
    ensures var heard := LiveCasts(Got(Run(st, trace).inbox, c));
            var before := LiveCasts(Got(st.inbox, c));
            before <= heard
            && Hist(Run(st, trace), s) == Hist(st, s) + Recorded(heard[|before|..], s)
  {
    CacheIsRecordedWire(st, trace, s);
    ConnectedHearsEverything(st, trace, c);
    RecordedOfAudible(AllCasts(st, trace), c, s);
    var heard, before := LiveCasts(Got(Run(st, trace).inbox, c)), LiveCasts(Got(st.inbox, c));
    assert heard[|before|..] == Audible(AllCasts(st, trace), c);
  }

  function Min(a: int, b: int): int {
    if a <= b then a else b
  }

  lemma CacheFromStart(trace: seq<Step>, s: SessionId)
    requires NeverPruned(INIT, trace, s)
    ensures Hist(Run(INIT, trace), s) == Recorded(Run(INIT, trace).wire, s)
  {
    WireLogsEveryCast(INIT, trace);
    CacheIsRecordedWire(INIT, trace, s);
    assert [] + AllCasts(INIT, trace) == AllCasts(INIT, trace);
    assert [] + Recorded(AllCasts(INIT, trace), s) == Recorded(AllCasts(INIT, trace), s);
  }

  lemma SliceIsTail(h: seq<Event>, limit: Option<int>)
    ensures limit.None? || limit.value == 0 ==> Slice(h, limit) == h
    ensures limit.Some? && limit.value > 0 ==> Slice(h, limit) == h[|h| - Min(limit.value, |h|)..]
    ensures limit.Some? && limit.value < 0 ==> Slice(h, limit) == h[Min(-limit.value, |h|)..]
  {}

  /** fetch_history: the last min(limit, n) recorded broadcasts, all of them for no limit or 0;
      a negative limit drops that many from the front instead. */
  lemma FetchAnswersFromTheWire(trace: seq<Step>, s: SessionId, limit: Option<int>)
    requires NeverPruned(INIT, trace, s)
    ensures var all := Recorded(Run(INIT, trace).wire, s);
            var got := Slice(Hist(Run(INIT, trace), s), limit);
            && (limit.None? || limit.value == 0 ==> got == all)
            && (limit.Some? && limit.value > 0 ==> got == all[|all| - Min(limit.value, |all|)..])
            && (limit.Some? && limit.value < 0 ==> got == all[Min(-limit.value, |all|)..])
  {
    hide Run, Hist, Recorded, Slice, NeverPruned;
    CacheFromStart(trace, s);
    SliceIsTail(Hist(Run(INIT, trace), s), limit);
  }
}
