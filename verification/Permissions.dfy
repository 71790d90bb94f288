/**
 request_permission: one promise and one 120 s timer per request, and a map from
 request id to the request that a response would answer. Requests are numbered by
 tickets; the request ids are the caller's and may be reused.
 */
module Permissions {
  const TIMEOUT_MS := 120_000

  type RequestId = string
  type Ticket = nat

  datatype Verdict = Answered(allowed: bool) | TimedOut

  /** One call of a promise's resolve or reject. */
  datatype Settlement = Settlement(ticket: Ticket, verdict: Verdict)

  datatype Timer = Timer(id: RequestId, deadline: int)

  datatype State = State(
    next: nat,
    pending: map<RequestId, Ticket>,
    timers: map<Ticket, Timer>,
    settled: seq<Settlement>)

  const INIT := State(0, map[], map[], [])

  datatype Step =
    | Request(id: RequestId, now: int)
    | Respond(id: RequestId, allowed: bool)
    | Fire(ticket: Ticket, now: int)

  /** A timer callback runs only while its timer is armed, and not before it is due. */
  predicate Due(st: State, step: Step)
    requires step.Fire?
  {
    step.ticket in st.timers && st.timers[step.ticket].deadline <= step.now
  }

  function AfterRequest(st: State, id: RequestId, now: int): State {
    State(st.next + 1, st.pending[id := st.next], st.timers[st.next := Timer(id, now + TIMEOUT_MS)], st.settled)
  }

  function AfterRespond(st: State, id: RequestId, allowed: bool): State {
    if id !in st.pending then st
    else
      var t := st.pending[id];
      State(st.next, st.pending - {id}, st.timers - {t}, st.settled + [Settlement(t, Answered(allowed))])
  }

  /** The callback deletes whatever request is now filed under its id. */
  function AfterFire(st: State, t: Ticket): State
    requires t in st.timers
  {
    State(st.next, st.pending - {st.timers[t].id}, st.timers - {t}, st.settled + [Settlement(t, TimedOut)])
  }

  function Apply(st: State, step: Step): State {
    match step
    case Request(id, now) => AfterRequest(st, id, now)
    case Respond(id, allowed) => AfterRespond(st, id, allowed)
    case Fire(t, now) => if Due(st, step) then AfterFire(st, t) else st
  }

  function Run(trace: seq<Step>): State
    decreases |trace|
  {
    if trace == [] then INIT else Apply(Run(trace[..|trace| - 1]), trace[|trace| - 1])
  }

  // ---------------------------------------------------------------------
  // The program

  class PermissionDesk {
    var pendingPermissions: map<RequestId, Ticket>
    var armed: map<Ticket, Timer>          // the setTimeout callbacks not yet run or cleared
    var issued: nat
    ghost var settled: seq<Settlement>     // every resolve or reject called

    ghost function View(): State
      reads this
    {
      State(issued, pendingPermissions, armed, settled)
    }

    constructor ()
      ensures View() == INIT
    {
      pendingPermissions, armed, issued, settled := map[], map[], 0, [];
    }

    method RequestPermission(id: RequestId, now: int) returns (ticket: Ticket)
      modifies this
      ensures ticket == old(issued)
      ensures View() == Apply(old(View()), Request(id, now))
    {
      ticket := issued;
      issued := issued + 1;
      armed := armed[ticket := Timer(id, now + TIMEOUT_MS)];
      pendingPermissions := pendingPermissions[id := ticket];
    }

    method OnResponse(id: RequestId, allowed: bool)
      modifies this
      ensures View() == Apply(old(View()), Respond(id, allowed))
    {
      if id in pendingPermissions {
        var ticket := pendingPermissions[id];
        pendingPermissions := pendingPermissions - {id};
        armed := armed - {ticket};
        settled := settled + [Settlement(ticket, Answered(allowed))];
      }
    }

    method OnTimeout(ticket: Ticket, now: int)
      requires ticket in armed && armed[ticket].deadline <= now
      modifies this
      ensures View() == Apply(old(View()), Fire(ticket, now))
    {
      pendingPermissions := pendingPermissions - {armed[ticket].id};
      armed := armed - {ticket};
      settled := settled + [Settlement(ticket, TimedOut)];
    }
  }

  // ---------------------------------------------------------------------
  // Exactly once

  function Count(log: seq<Settlement>, t: Ticket): nat
    decreases |log|
  {
    if log == [] then 0
    else Count(log[..|log| - 1], t) + (if log[|log| - 1].ticket == t then 1 else 0)
  }

  lemma CountAppend(log: seq<Settlement>, s: Settlement, t: Ticket)
    ensures Count(log + [s], t) == Count(log, t) + (if s.ticket == t then 1 else 0)
  {
    assert (log + [s])[..|log|] == log;
  }

  /** Every promise issued is either settled once with no timer left, or unsettled with its timer armed;
      a request on file is an unsettled one with that id. */
  ghost predicate Valid(st: State) {
    && (forall t: Ticket :: t in st.timers ==> t < st.next)
    && (forall t: Ticket :: Count(st.settled, t) == if t < st.next && t !in st.timers then 1 else 0)
    && (forall id <- st.pending :: st.pending[id] in st.timers && st.timers[st.pending[id]].id == id)
  }

  lemma ValidStep(st: State, step: Step)
    requires Valid(st)
    ensures Valid(Apply(st, step))
  {
    var after := Apply(st, step);
    if |after.settled| > |st.settled| {
      var s := after.settled[|st.settled|];
      forall t: Ticket ensures Count(after.settled, t) == Count(st.settled, t) + (if s.ticket == t then 1 else 0) {
        CountAppend(st.settled, s, t);
      }
    }
  }

  lemma {:induction false} ValidRun(trace: seq<Step>)
    ensures Valid(Run(trace))
    decreases |trace|
  {
    if trace != [] {
      ValidRun(trace[..|trace| - 1]);
      ValidStep(Run(trace[..|trace| - 1]), trace[|trace| - 1]);
    }
  }

  /** The step that issued ticket `t`, from the trace alone. */
  function Requests(trace: seq<Step>): seq<Step>
    decreases |trace|
  {
    if trace == [] then []
    else Requests(trace[..|trace| - 1]) + (if trace[|trace| - 1].Request? then [trace[|trace| - 1]] else [])
  }

  /** Whatever became of its id, an unsettled promise still has its own timer, due 120 s after its request;
      and that timer's callback settles it. */
  lemma {:induction false} TimersKeepDeadlines(trace: seq<Step>)
    ensures var st := Run(trace); var asked := Requests(trace);
            && st.next == |asked|
            && (forall i :: 0 <= i < |asked| ==> asked[i].Request?)
            && (forall t: Ticket :: t in st.timers ==>
                  t < |asked| && st.timers[t] == Timer(asked[t].id, asked[t].now + 120_000))
    decreases |trace|
  {
    if trace != [] {
      TimersKeepDeadlines(trace[..|trace| - 1]);
    }
  }

  /** Each promise settles at most once in any run; once the clock passes its deadline with no due callback
      left waiting, or its own callback runs, exactly once. */
  lemma SettlesOnceByDeadline(trace: seq<Step>, t: Ticket, now: int)
    requires t < |Requests(trace)|
    requires Requests(trace)[t].Request? && now >= Requests(trace)[t].now + 120_000
    ensures Count(Run(trace).settled, t) <= 1
    ensures Count(Run(trace + [Fire(t, now)]).settled, t) == 1
    ensures (forall u <- Run(trace).timers :: Run(trace).timers[u].deadline > now) ==> Count(Run(trace).settled, t) == 1
  {
    ValidRun(trace);
    TimersKeepDeadlines(trace);
    assert (trace + [Fire(t, now)])[..|trace|] == trace;
    ValidStep(Run(trace), Fire(t, now));
  }

  // ---------------------------------------------------------------------
  // Which request a response answers

  function TicketAt(trace: seq<Step>, i: nat): Ticket
    requires i < |trace|
  {
    Run(trace[..i]).next
  }

  /** Step `step` takes whatever is on file under `id` off it. */
  predicate Displaces(before: State, step: Step, id: RequestId) {
    match step
    case Request(other, _) => other == id
    case Respond(other, _) => other == id
    case Fire(t, _) => Due(before, step) && before.timers[t].id == id
  }

  /** The request made at step `i` is the one a response to its id would answer: nothing since has
      reused the id, answered it, or timed out under it. */
  ghost predicate OnFile(trace: seq<Step>, i: nat) {
    && i < |trace| && trace[i].Request?
    && (forall j :: i < j < |trace| ==> !Displaces(Run(trace[..j]), trace[j], trace[i].id))
  }

  lemma OnFileStep(trace: seq<Step>, i: nat)
    requires i < |trace| - 1
    ensures var n := |trace| - 1;
            OnFile(trace, i) <==> OnFile(trace[..n], i) && !Displaces(Run(trace[..n]), trace[n], trace[i].id)
  {
    hide Run, Displaces;
    var n := |trace| - 1;
    assert forall j :: 0 <= j <= n ==> trace[..n][..j] == trace[..j];
  }

  lemma FiledStep(st: State, step: Step, id: RequestId, t: Ticket)
    requires t < st.next
    ensures var after := Apply(st, step);
            (id in after.pending && after.pending[id] == t)
            <==> (id in st.pending && st.pending[id] == t && !Displaces(st, step, id))
  {}

  /** pendingPermissions holds exactly the requests on file. */
  lemma {:induction false} PendingIsOnFile(trace: seq<Step>, i: nat)
    requires i < |trace| && trace[i].Request?
    ensures var st := Run(trace); var id := trace[i].id;
            OnFile(trace, i) <==> id in st.pending && st.pending[id] == TicketAt(trace, i)
    decreases |trace|
  {
    var n := |trace| - 1;
    if i < n {
      hide Apply, Displaces, OnFile;
      PendingIsOnFile(trace[..n], i);
      OnFileStep(trace, i);
      assert trace[..n][..i] == trace[..i];
      NextGrows(trace[..n], i);
      FiledStep(Run(trace[..n]), trace[n], trace[i].id, TicketAt(trace, i));
    }
  }

  lemma {:induction false} NextGrows(trace: seq<Step>, i: nat)
    requires i < |trace| && trace[i].Request?
    ensures TicketAt(trace, i) < Run(trace).next
    decreases |trace|
  {
    var n := |trace| - 1;
    if i < n {
      NextGrows(trace[..n], i);
      assert trace[..n][..i] == trace[..i];
    }
  }

  /** A response settles the request made at step `i` if and only if that request is on file; it settles
      no other then, and nothing at all when no request is on file. */
  lemma ResponseAnswersOnFile(trace: seq<Step>, i: nat, allowed: bool)
    requires i < |trace| && trace[i].Request?
    ensures var st := Run(trace); var after := Apply(st, Respond(trace[i].id, allowed));
            OnFile(trace, i) <==> after.settled == st.settled + [Settlement(TicketAt(trace, i), Answered(allowed))]
  {
    PendingIsOnFile(trace, i);
    var st := Run(trace);
    var after := Apply(st, Respond(trace[i].id, allowed));
    if trace[i].id in st.pending {
      assert after.settled[|st.settled|].ticket == st.pending[trace[i].id];
    } else {
      assert |after.settled| == |st.settled|;
    }
  }

  /** With ids used once, the first response before the deadline callback is the verdict delivered. */
  lemma FirstResponseWins(trace: seq<Step>, i: nat, allowed: bool)
    requires i < |trace| && trace[i].Request?
    requires forall j :: 0 <= j < |trace| && j != i && trace[j].Request? ==> trace[j].id != trace[i].id
    requires forall j :: i < j < |trace| && trace[j].Respond? ==> trace[j].id != trace[i].id
    requires forall j :: i < j < |trace| && trace[j].Fire? && trace[j].ticket == TicketAt(trace, i)
                         ==> !Due(Run(trace[..j]), trace[j])
    ensures Apply(Run(trace), Respond(trace[i].id, allowed)).settled
            == Run(trace).settled + [Settlement(TicketAt(trace, i), Answered(allowed))]
  {
    hide Run, Apply, TicketAt;
    forall j | i < j < |trace| ensures !Displaces(Run(trace[..j]), trace[j], trace[i].id) {
      if trace[j].Fire? && Displaces(Run(trace[..j]), trace[j], trace[i].id) {
        OnlyTicketOfId(trace, i, j, trace[j].ticket);
      }
    }
    ResponseAnswersOnFile(trace, i, allowed);
  }

  /** A ticket whose timer carries an id was issued by a request with that id. */
  lemma {:induction false} TicketHasRequest(trace: seq<Step>, t: Ticket) returns (k: nat)
    requires t in Run(trace).timers
    ensures k < |trace| && trace[k].Request? && trace[k].id == Run(trace).timers[t].id && TicketAt(trace, k) == t
    decreases |trace|
  {
    var n := |trace| - 1;
    if trace[n].Request? && t == Run(trace[..n]).next {
      k := n;
    } else {
      k := TicketHasRequest(trace[..n], t);
      assert trace[..n][..k] == trace[..k];
    }
  }

  lemma OnlyTicketOfId(trace: seq<Step>, i: nat, j: nat, t: Ticket)
    requires i < j < |trace| && trace[i].Request?
    requires forall k :: 0 <= k < |trace| && k != i && trace[k].Request? ==> trace[k].id != trace[i].id
    requires t in Run(trace[..j]).timers && Run(trace[..j]).timers[t].id == trace[i].id
    ensures t == TicketAt(trace, i)
  {
    var k := TicketHasRequest(trace[..j], t);
    assert trace[..j][..k] == trace[..k];
    assert k == i;
  }

  /** With an id used twice the promise fails: the first request's timer drops the second's entry, and the
      answer given well before the second's deadline reaches nobody. */
  lemma ReusedIdLosesTheAnswer()
    ensures var trace := [Request("r", 0), Request("r", 60_000), Fire(0, 120_000)];
            var st := Run(trace + [Respond("r", true)]);
            Count(st.settled, 1) == 0 && 1 in st.timers && st.timers[1].deadline == 180_000
  {
    var t1 := [Request("r", 0)];
    var t2 := t1 + [Request("r", 60_000)];
    var t3 := t2 + [Fire(0, 120_000)];
    var t4 := t3 + [Respond("r", true)];
    assert t1[..0] == [] && t2[..1] == t1 && t3[..2] == t2 && t4[..3] == t3;
    assert Run(t1) == State(1, map["r" := 0], map[0 := Timer("r", 120_000)], []);
    assert Run(t2) == State(2, map["r" := 1], map[0 := Timer("r", 120_000), 1 := Timer("r", 180_000)], []);
    assert Run(t3) == State(2, map[], map[1 := Timer("r", 180_000)], [Settlement(0, TimedOut)]);
    assert t3 == [Request("r", 0), Request("r", 60_000), Fire(0, 120_000)];
    CountAppend([], Settlement(0, TimedOut), 1);
  }

  // ---------------------------------------------------------------------
  // What settles a promise, and with what

  /** Only a response and a timeout settle anything: the one with the answer given, to the request filed under its id,
      the other with a rejection, of its own request; a request settles nothing. */
  lemma SettledInFull(st: State, id: RequestId, allowed: bool, t: Ticket, now: int)
    ensures Apply(st, Respond(id, allowed)).settled
            == if id in st.pending then st.settled + [Settlement(st.pending[id], Answered(allowed))] else st.settled
    ensures Apply(st, Fire(t, now)).settled
            == if t in st.timers && st.timers[t].deadline <= now then st.settled + [Settlement(t, TimedOut)]
               else st.settled
    ensures var after := Apply(st, Request(id, now));
            && after.settled == st.settled && after.next == st.next + 1
            && after.timers == st.timers[st.next := Timer(id, now + 120_000)]
  {
  }
}
