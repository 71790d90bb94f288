/** How often the broker reports that a prompt could not be delivered. */
module BrokerReports {
  import opened Broker

  /** Step `i` of the run reports a failed notification. */
  predicate ReportsAt(st: State, trace: seq<Step>, i: nat)
    requires i < |trace|
  {
    trace[i].NotifyFailed? && ReportsFailure(Run(st, trace[..i]), trace[i])
  }

  lemma BroadcastsKeepTheTime()
    ensures forall st, c :: AfterBroadcast(st, c).lastNotifErrorAt == st.lastNotifErrorAt
    ensures forall st, s, x :: AfterSetStatus(st, s, x).lastNotifErrorAt == st.lastNotifErrorAt
  {
    hide Send, Hist;
  }

  lemma CooldownStep(st: State, step: Step)
    ensures Apply(st, step).lastNotifErrorAt
            == if step.NotifyFailed? && ReportsFailure(st, step) then step.now else st.lastNotifErrorAt
  {
    hide *;
    BroadcastsKeepTheTime();
    match step
    case NotifyFailed(_, _, _) => FailureStep(st, step);
    case Reply(_, _, _, _) => AnnouncingStep(st, step);
    case Prompt(_, _, _) => AnnouncingStep(st, step);
    case UserPrompt(_, _, _, _) => AnnouncingStep(st, step);
    case Stop(_, _, _, _) => AnnouncingStep(st, step);
    case SessionStart(_, _, _, _, _) => AnnouncingStep(st, step);
    case _ => OtherStep(st, step);
  }

  lemma FailureStep(st: State, step: Step)
    requires step.NotifyFailed?
    ensures Apply(st, step).lastNotifErrorAt == if ReportsFailure(st, step) then step.now else st.lastNotifErrorAt
  {
    hide AfterBroadcast, DeliveryError;
    BroadcastsKeepTheTime();
  }

  lemma AnnouncingStep(st: State, step: Step)
    requires step.Reply? || step.Prompt? || step.UserPrompt? || step.Stop? || step.SessionStart?
    ensures Apply(st, step).lastNotifErrorAt == st.lastNotifErrorAt
  {
    hide AfterBroadcast, AfterSetStatus, Send, MessageStart, MessageUpdate, MessageEnd, AgentStart, AgentEnd;
    hide SessionInit, PromptAck;
    BroadcastsKeepTheTime();
  }

  lemma OtherStep(st: State, step: Step)
    requires !step.Reply? && !step.Prompt? && !step.UserPrompt? && !step.Stop? && !step.SessionStart?
    requires !step.NotifyFailed?
    ensures Apply(st, step).lastNotifErrorAt == st.lastNotifErrorAt
  {
    hide AfterBroadcast, Send, Hist, Expired, Slice, Told, ToolStart, ToolEnd, StatusEvent, StatusNoteEvent;
    hide PermissionRequest, HistoryAnswer, SentEvent;
    BroadcastsKeepTheTime();
  }

  lemma {:induction false} CooldownKeeps(st: State, trace: seq<Step>, i: nat)
    requires i < |trace| && ReportsAt(st, trace, i)
    ensures Run(st, trace).lastNotifErrorAt >= trace[i].now
    decreases |trace|
  {
    hide Apply;
    var n := |trace| - 1;
    CooldownStep(Run(st, trace[..n]), trace[n]);
    if i < n {
      assert trace[..n][..i] == trace[..i];
      CooldownKeeps(st, trace[..n], i);
    }
  }

  /** Two reports of a run, whatever the clock did in between, are at least the cooldown of 10 s apart. */
  lemma ReportsApart(st: State, trace: seq<Step>, i: nat, j: nat)
    requires i < j < |trace| && ReportsAt(st, trace, i) && ReportsAt(st, trace, j)
    ensures trace[j].now - trace[i].now >= 10_000
  {
    hide Run, Apply;
    assert trace[..j][..i] == trace[..i];
    CooldownKeeps(st, trace[..j], i);
  }
}
