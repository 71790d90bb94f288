/**
 The burst client's mailbox: messages that nobody asked for yet, and calls of
 waitFor that nothing has answered yet. A letter is a parsed message with its
 arrival number, which stands for the message object's identity; a waiter is a
 call of waitFor, numbered in call order.
 */
module Mailbox {
  import opened Common

  datatype Letter<M> = Letter(no: nat, body: M)

  datatype Waiter<!M> = Waiter(id: nat, matches: M -> bool)

  /** One promise of waitFor resolved with one message. */
  datatype Delivery<!M> = Delivery(to: Waiter<M>, letter: Letter<M>)

  datatype State<!M> = State(
    inbox: seq<Letter<M>>,
    waiters: seq<Waiter<M>>,
    timers: set<nat>,
    arrived: nat,
    calls: nat,
    delivered: seq<Delivery<M>>,
    rejected: seq<nat>)

  function Init<M>(): State<M> {
    State([], [], {}, 0, 0, [], [])
  }

  datatype Step<!M> =
    | Arrive(message: Option<M>)   // None: not JSON
    | WaitFor(matches: M -> bool)
    | Timeout(id: nat)

  /** Array.prototype.findIndex, with the length for not found. */
  function FindIndex<T>(s: seq<T>, p: T -> bool): (i: nat)
    ensures i <= |s| && (i < |s| ==> p(s[i]))
    ensures forall j :: 0 <= j < i ==> !p(s[j])
  {
    if s == [] || p(s[0]) then 0 else 1 + FindIndex(s[1..], p)
  }

  /** splice(i, 1) */
  function Without<T>(s: seq<T>, i: nat): (r: seq<T>)
    requires i < |s|
    ensures |r| == |s| - 1 && forall j :: 0 <= j < |r| ==> r[j] == s[if j < i then j else j + 1]
  {
    s[..i] + s[i + 1..]
  }

  /** Where findIndex finds the first waiter that wants `message`; the length if none does. */
  function WaiterFor<M>(waiters: seq<Waiter<M>>, message: M): (i: nat)
    ensures i <= |waiters| && (i < |waiters| ==> waiters[i].matches(message))
    ensures forall j :: 0 <= j < i ==> !waiters[j].matches(message)
  {
    FindIndex(waiters, (w: Waiter<M>) => w.matches(message))
  }

  function LetterFor<M>(inbox: seq<Letter<M>>, matches: M -> bool): (i: nat)
    ensures i <= |inbox| && (i < |inbox| ==> matches(inbox[i].body))
    ensures forall j :: 0 <= j < i ==> !matches(inbox[j].body)
  {
    FindIndex(inbox, (l: Letter<M>) => matches(l.body))
  }

  function IndexOf<M>(waiters: seq<Waiter<M>>, id: nat): (i: nat)
    ensures i <= |waiters| && (i < |waiters| ==> waiters[i].id == id)
    ensures forall j :: 0 <= j < i ==> waiters[j].id != id
  {
    FindIndex(waiters, (w: Waiter<M>) => w.id == id)
  }

  function AfterArrive<M>(st: State<M>, message: M): State<M> {
    var i := WaiterFor(st.waiters, message);
    var l := Letter(st.arrived, message);
    if i < |st.waiters| then
      st.(arrived := st.arrived + 1,
          waiters := Without(st.waiters, i),
          timers := st.timers - {st.waiters[i].id},
          delivered := st.delivered + [Delivery(st.waiters[i], l)])
    else
      st.(arrived := st.arrived + 1, inbox := st.inbox + [l])
  }

  function AfterWaitFor<M>(st: State<M>, matches: M -> bool): State<M> {
    var i := LetterFor(st.inbox, matches);
    var w := Waiter(st.calls, matches);
    if i < |st.inbox| then
      st.(calls := st.calls + 1,
          inbox := Without(st.inbox, i),
          delivered := st.delivered + [Delivery(w, st.inbox[i])])
    else
      st.(calls := st.calls + 1, waiters := st.waiters + [w], timers := st.timers + {st.calls})
  }

  function AfterTimeout<M>(st: State<M>, id: nat): State<M> {
    if id !in st.timers then st
    else
      var i := IndexOf(st.waiters, id);
      st.(waiters := if i < |st.waiters| then Without(st.waiters, i) else st.waiters,
          timers := st.timers - {id},
          rejected := st.rejected + [id])
  }

  function Apply<M>(st: State<M>, step: Step<M>): State<M> {
    match step
    case Arrive(message) => if message.None? then st else AfterArrive(st, message.value)
    case WaitFor(matches) => AfterWaitFor(st, matches)
    case Timeout(id) => AfterTimeout(st, id)
  }

  function Run<M>(trace: seq<Step<M>>): State<M>
    decreases |trace|
  {
    if trace == [] then Init() else Apply(Run(trace[..|trace| - 1]), trace[|trace| - 1])
  }

  // ---------------------------------------------------------------------
  // The program

  class BurstClient<!M> {
    var inbox: seq<Letter<M>>
    var waiters: seq<Waiter<M>>
    var messagesReceived: nat
    var timers: set<nat>            // setTimeout callbacks neither run nor cleared
    var arrived: nat                // stands for the identity of the next message object
    var calls: nat                  // ... and of the next waiter object
    ghost var delivered: seq<Delivery<M>>
    ghost var rejected: seq<nat>

    ghost function View(): State<M>
      reads this
    {
      State(inbox, waiters, timers, arrived, calls, delivered, rejected)
    }

    constructor ()
      ensures View() == Init() && messagesReceived == 0
    {
      inbox, waiters, messagesReceived, timers := [], [], 0, {};
      arrived, calls, delivered, rejected := 0, 0, [], [];
    }

    method OnMessage(message: Option<M>)
      modifies this
      ensures messagesReceived == old(messagesReceived) + 1
      ensures View() == Apply(old(View()), Arrive(message))
    {
      messagesReceived := messagesReceived + 1;
      if message.None? {
        return;
      }
      var msg := Letter(arrived, message.value);
      arrived := arrived + 1;
      var idx := WaiterFor(waiters, msg.body);
      if idx < |waiters| {
        var w := waiters[idx];
        waiters := waiters[..idx] + waiters[idx + 1..];
        timers := timers - {w.id};
        delivered := delivered + [Delivery(w, msg)];
      } else {
        inbox := inbox + [msg];
      }
    }

    /** Some letter: the promise is already resolved with it. None: it waits, under the number returned. */
    method CallWaitFor(matches: M -> bool) returns (id: nat, letter: Option<Letter<M>>)
      modifies this
      ensures id == old(calls) && messagesReceived == old(messagesReceived)
      ensures View() == Apply(old(View()), WaitFor(matches))
      ensures letter.Some? ==> View().delivered == old(delivered) + [Delivery(Waiter(id, matches), letter.value)]
      ensures letter.None? ==> id in timers && Waiter(id, matches) in waiters
    {
      id, calls := calls, calls + 1;
      var idx := LetterFor(inbox, matches);
      if idx < |inbox| {
        letter := Some(inbox[idx]);
        inbox := inbox[..idx] + inbox[idx + 1..];
        delivered := delivered + [Delivery(Waiter(id, matches), letter.value)];
      } else {
        letter := None;
        timers := timers + {id};
        waiters := waiters + [Waiter(id, matches)];
      }
    }

    method OnTimeout(id: nat)
      requires id in timers
      modifies this
      ensures messagesReceived == old(messagesReceived)
      ensures View() == Apply(old(View()), Timeout(id))
    {
      timers := timers - {id};
      var i := IndexOf(waiters, id);
      if i < |waiters| {
        waiters := waiters[..i] + waiters[i + 1..];
      }
      rejected := rejected + [id];
    }
  }

  // ---------------------------------------------------------------------
  // Nothing is lost, nothing is handed out twice

  function LetterNos<M>(s: seq<Letter<M>>): seq<nat> {
    seq(|s|, k requires 0 <= k < |s| => s[k].no)
  }

  function WaiterIds<M>(s: seq<Waiter<M>>): seq<nat> {
    seq(|s|, k requires 0 <= k < |s| => s[k].id)
  }

  function DeliveredNos<M>(s: seq<Delivery<M>>): seq<nat> {
    seq(|s|, k requires 0 <= k < |s| => s[k].letter.no)
  }

  function DeliveredIds<M>(s: seq<Delivery<M>>): seq<nat> {
    seq(|s|, k requires 0 <= k < |s| => s[k].to.id)
  }

  /** Each of 0, ..., n - 1 once. */
  function Upto(n: nat): (m: multiset<nat>)
    ensures forall k: nat :: m[k] == if k < n then 1 else 0
  {
    if n == 0 then multiset{} else Upto(n - 1) + multiset{n - 1}
  }

  /** Every parsed message is in the inbox or was handed over, once in all. */
  ghost predicate LettersConserved<M>(st: State<M>) {
    multiset(LetterNos(st.inbox)) + multiset(DeliveredNos(st.delivered)) == Upto(st.arrived)
  }

  /** Every call of waitFor is waiting, answered, or timed out, once in all. */
  ghost predicate CallsConserved<M>(st: State<M>) {
    multiset(WaiterIds(st.waiters)) + multiset(DeliveredIds(st.delivered)) + multiset(st.rejected) == Upto(st.calls)
  }

  /** No message in the inbox is wanted by anyone waiting. */
  ghost predicate NoLostWakeUp<M>(st: State<M>) {
    forall i, j :: 0 <= i < |st.inbox| && 0 <= j < |st.waiters| ==> !st.waiters[j].matches(st.inbox[i].body)
  }

  /** Inbox and waiters are in arrival and call order; a timer is armed exactly for those waiting;
      every message handed over was wanted. */
  ghost predicate Ordered<M>(st: State<M>) {
    && (forall i, j :: 0 <= i < j < |st.inbox| ==> st.inbox[i].no < st.inbox[j].no)
    && (forall i :: 0 <= i < |st.inbox| ==> st.inbox[i].no < st.arrived)
    && (forall i, j :: 0 <= i < j < |st.waiters| ==> st.waiters[i].id < st.waiters[j].id)
    && (forall i :: 0 <= i < |st.waiters| ==> st.waiters[i].id < st.calls)
    && TimersMatch(st)
    && (forall d <- st.delivered :: d.to.matches(d.letter.body))
  }

  ghost predicate Valid<M>(st: State<M>) {
    LettersConserved(st) && CallsConserved(st) && NoLostWakeUp(st) && Ordered(st)
  }

  lemma MultisetWithout(s: seq<nat>, i: nat)
    requires i < |s|
    ensures multiset(s) == multiset(Without(s, i)) + multiset{s[i]}
  {
    assert s == s[..i] + [s[i]] + s[i + 1..];
  }

  lemma WithoutLetter<M>(s: seq<Letter<M>>, i: nat)
    requires i < |s|
    ensures multiset(LetterNos(s)) == multiset(LetterNos(Without(s, i))) + multiset{s[i].no}
  {
    MultisetWithout(LetterNos(s), i);
    assert LetterNos(Without(s, i)) == Without(LetterNos(s), i);
  }

  lemma WithoutWaiter<M>(s: seq<Waiter<M>>, i: nat)
    requires i < |s|
    ensures multiset(WaiterIds(s)) == multiset(WaiterIds(Without(s, i))) + multiset{s[i].id}
  {
    MultisetWithout(WaiterIds(s), i);
    assert WaiterIds(Without(s, i)) == Without(WaiterIds(s), i);
  }

  lemma DeliveredMore<M>(s: seq<Delivery<M>>, d: Delivery<M>)
    ensures multiset(DeliveredNos(s + [d])) == multiset(DeliveredNos(s)) + multiset{d.letter.no}
    ensures multiset(DeliveredIds(s + [d])) == multiset(DeliveredIds(s)) + multiset{d.to.id}
  {
    assert DeliveredNos(s + [d]) == DeliveredNos(s) + [d.letter.no];
    assert DeliveredIds(s + [d]) == DeliveredIds(s) + [d.to.id];
  }

  lemma LetterMore<M>(s: seq<Letter<M>>, l: Letter<M>)
    ensures multiset(LetterNos(s + [l])) == multiset(LetterNos(s)) + multiset{l.no}
  {
    assert LetterNos(s + [l]) == LetterNos(s) + [l.no];
  }

  lemma WaiterMore<M>(s: seq<Waiter<M>>, w: Waiter<M>)
    ensures multiset(WaiterIds(s + [w])) == multiset(WaiterIds(s)) + multiset{w.id}
  {
    assert WaiterIds(s + [w]) == WaiterIds(s) + [w.id];
  }

  lemma ArriveConserves<M>(st: State<M>, message: M)
    requires LettersConserved(st) && CallsConserved(st)
    ensures LettersConserved(AfterArrive(st, message)) && CallsConserved(AfterArrive(st, message))
  {
    hide LettersConserved, CallsConserved, LetterNos, WaiterIds, DeliveredNos, DeliveredIds, Without;
    var i := WaiterFor(st.waiters, message);
    var l := Letter(st.arrived, message);
    if i < |st.waiters| {
      HandOverConserves(st, i, l, AfterArrive(st, message));
    } else {
      KeepConserves(st, l, AfterArrive(st, message));
    }
  }

  lemma HandOverConserves<M>(st: State<M>, i: nat, l: Letter<M>, after: State<M>)
    requires LettersConserved(st) && CallsConserved(st) && i < |st.waiters| && l.no == st.arrived
    requires after.waiters == Without(st.waiters, i) && after.delivered == st.delivered + [Delivery(st.waiters[i], l)]
    requires after.inbox == st.inbox && after.rejected == st.rejected
    requires after.arrived == st.arrived + 1 && after.calls == st.calls
    ensures LettersConserved(after) && CallsConserved(after)
  {
    hide LetterNos, WaiterIds, DeliveredNos, DeliveredIds, Without;
    WithoutWaiter(st.waiters, i);
    DeliveredMore(st.delivered, Delivery(st.waiters[i], l));
  }

  lemma KeepConserves<M>(st: State<M>, l: Letter<M>, after: State<M>)
    requires LettersConserved(st) && CallsConserved(st) && l.no == st.arrived
    requires after.inbox == st.inbox + [l] && after.arrived == st.arrived + 1
    requires after.waiters == st.waiters && after.delivered == st.delivered && after.rejected == st.rejected
    requires after.calls == st.calls
    ensures LettersConserved(after) && CallsConserved(after)
  {
    hide LetterNos, WaiterIds, DeliveredNos, DeliveredIds;
    LetterMore(st.inbox, l);
  }

  lemma WaitForConserves<M>(st: State<M>, matches: M -> bool)
    requires LettersConserved(st) && CallsConserved(st)
    ensures LettersConserved(AfterWaitFor(st, matches)) && CallsConserved(AfterWaitFor(st, matches))
  {
    hide LettersConserved, CallsConserved, LetterNos, WaiterIds, DeliveredNos, DeliveredIds;
    var i := LetterFor(st.inbox, matches);
    var w := Waiter(st.calls, matches);
    if i < |st.inbox| {
      TakeConserves(st, i, w, AfterWaitFor(st, matches));
    } else {
      QueueConserves(st, w, AfterWaitFor(st, matches));
    }
  }

  lemma TakeConserves<M>(st: State<M>, i: nat, w: Waiter<M>, after: State<M>)
    requires LettersConserved(st) && CallsConserved(st) && i < |st.inbox| && w.id == st.calls
    requires after.inbox == Without(st.inbox, i) && after.delivered == st.delivered + [Delivery(w, st.inbox[i])]
    requires after.waiters == st.waiters && after.rejected == st.rejected
    requires after.arrived == st.arrived && after.calls == st.calls + 1
    ensures LettersConserved(after) && CallsConserved(after)
  {
    hide LetterNos, WaiterIds, DeliveredNos, DeliveredIds, Without;
    WithoutLetter(st.inbox, i);
    DeliveredMore(st.delivered, Delivery(w, st.inbox[i]));
  }

  lemma QueueConserves<M>(st: State<M>, w: Waiter<M>, after: State<M>)
    requires LettersConserved(st) && CallsConserved(st) && w.id == st.calls
    requires after.waiters == st.waiters + [w] && after.calls == st.calls + 1
    requires after.inbox == st.inbox && after.delivered == st.delivered && after.rejected == st.rejected
    requires after.arrived == st.arrived
    ensures LettersConserved(after) && CallsConserved(after)
  {
    hide LetterNos, WaiterIds, DeliveredNos, DeliveredIds;
    WaiterMore(st.waiters, w);
  }

  lemma TimeoutConserves<M>(st: State<M>, id: nat)
    requires LettersConserved(st) && CallsConserved(st) && Ordered(st)
    ensures LettersConserved(AfterTimeout(st, id)) && CallsConserved(AfterTimeout(st, id))
  {
    if id in st.timers {
      WithoutWaiter(st.waiters, IndexOf(st.waiters, id));
    }
  }

  lemma OrderedArrive<M>(st: State<M>, message: M)
    requires NoLostWakeUp(st) && Ordered(st)
    ensures NoLostWakeUp(AfterArrive(st, message)) && Ordered(AfterArrive(st, message))
  {
    hide TimersMatch, Without;
    TimersFollow(st, AfterArrive(st, message), WaiterFor(st.waiters, message));
  }

  lemma OrderedWaitFor<M>(st: State<M>, matches: M -> bool)
    requires NoLostWakeUp(st) && Ordered(st)
    ensures NoLostWakeUp(AfterWaitFor(st, matches)) && Ordered(AfterWaitFor(st, matches))
  {
    hide Without, TimersMatch;
    if LetterFor(st.inbox, matches) == |st.inbox| {
      TimersQueue(st, AfterWaitFor(st, matches), Waiter(st.calls, matches));
    } else {
      TimersFollow(st, AfterWaitFor(st, matches), |st.waiters|);
    }
  }

  lemma TimersQueue<M>(st: State<M>, after: State<M>, w: Waiter<M>)
    requires TimersMatch(st) && after.waiters == st.waiters + [w] && after.timers == st.timers + {w.id}
    ensures TimersMatch(after)
  {
    forall id ensures id in after.timers <==> exists k :: 0 <= k < |after.waiters| && after.waiters[k].id == id {
      if id in st.timers {
        var k :| 0 <= k < |st.waiters| && st.waiters[k].id == id;
        assert after.waiters[k].id == id;
      }
      if id == w.id {
        assert after.waiters[|st.waiters|].id == id;
      }
    }
  }

  lemma OrderedTimeout<M>(st: State<M>, id: nat)
    requires NoLostWakeUp(st) && Ordered(st)
    ensures NoLostWakeUp(AfterTimeout(st, id)) && Ordered(AfterTimeout(st, id))
  {
    hide Without;
    TimersFollow(st, AfterTimeout(st, id), IndexOf(st.waiters, id));
  }

  ghost predicate TimersMatch<M>(st: State<M>) {
    forall id :: id in st.timers <==> exists i :: 0 <= i < |st.waiters| && st.waiters[i].id == id
  }

  lemma TimersFollow<M>(st: State<M>, after: State<M>, i: nat)
    requires Ordered(st)
    requires i < |st.waiters| ==>
               after.waiters == Without(st.waiters, i) && after.timers == st.timers - {st.waiters[i].id}
    requires i >= |st.waiters| ==> after.waiters == st.waiters && after.timers == st.timers
    ensures TimersMatch(after)
  {
    forall id ensures id in after.timers <==> exists k :: 0 <= k < |after.waiters| && after.waiters[k].id == id {
      if id in after.timers {
        var k :| 0 <= k < |st.waiters| && st.waiters[k].id == id;
        if i < |st.waiters| {
          assert after.waiters[if k < i then k else k - 1].id == id;
        }
      }
    }
  }

  lemma OrderedStep<M>(st: State<M>, step: Step<M>)
    requires NoLostWakeUp(st) && Ordered(st)
    ensures NoLostWakeUp(Apply(st, step)) && Ordered(Apply(st, step))
  {
    hide NoLostWakeUp, Ordered, AfterArrive, AfterWaitFor, AfterTimeout;
    match step
    case Arrive(message) => if message.Some? { OrderedArrive(st, message.value); }
    case WaitFor(matches) => OrderedWaitFor(st, matches);
    case Timeout(id) => OrderedTimeout(st, id);
  }

  lemma {:induction false} ValidRun<M>(trace: seq<Step<M>>)
    ensures Valid(Run(trace))
    decreases |trace|
  {
    if trace != [] {
      hide LettersConserved, CallsConserved, NoLostWakeUp, Ordered;
      var st, step := Run(trace[..|trace| - 1]), trace[|trace| - 1];
      ValidRun(trace[..|trace| - 1]);
      OrderedStep(st, step);
      match step
      case Arrive(message) => if message.Some? { ArriveConserves(st, message.value); }
      case WaitFor(matches) => WaitForConserves(st, matches);
      case Timeout(id) => TimeoutConserves(st, id);
    }
  }

  /** Exactly once, for every message and every call, in every run. */
  lemma EveryMessageAndCallOnce<M>(trace: seq<Step<M>>, n: nat)
    ensures var st := Run(trace);
            && (n < st.arrived ==>
                  multiset(LetterNos(st.inbox))[n] + multiset(DeliveredNos(st.delivered))[n] == 1)
            && (n < st.calls ==>
                  multiset(WaiterIds(st.waiters))[n] + multiset(DeliveredIds(st.delivered))[n]
                  + multiset(st.rejected)[n] == 1)
            && NoLostWakeUp(st)
            && (forall d <- st.delivered :: d.to.matches(d.letter.body))
  {
    hide NoLostWakeUp, Run, LetterNos, DeliveredNos, WaiterIds, DeliveredIds;
    ValidRun(trace);
    var st := Run(trace);
    assert (multiset(LetterNos(st.inbox)) + multiset(DeliveredNos(st.delivered)))[n] == Upto(st.arrived)[n];
    assert (multiset(WaiterIds(st.waiters)) + multiset(DeliveredIds(st.delivered)) + multiset(st.rejected))[n]
           == Upto(st.calls)[n];
  }

  /** waitFor takes the earliest unconsumed match: no other message that matches and has not been handed
      over arrived before it; and it waits only if there is none. */
  lemma WaitForTakesEarliest<M>(trace: seq<Step<M>>, matches: M -> bool)
    ensures var st := Run(trace); var after := Apply(st, WaitFor(matches));
            if exists l <- st.inbox :: matches(l.body) then
              exists l :: && after.delivered == st.delivered + [Delivery(Waiter(st.calls, matches), l)]
                          && l in st.inbox && matches(l.body)
                          && (forall other <- st.inbox :: matches(other.body) ==> l.no <= other.no)
            else after.delivered == st.delivered && after.waiters == st.waiters + [Waiter(st.calls, matches)]
  {
    hide Run, Without, LettersConserved, CallsConserved, NoLostWakeUp, TimersMatch;
    ValidRun(trace);
    var st := Run(trace);
    var i := LetterFor(st.inbox, matches);
    if i < |st.inbox| {
      assert st.inbox[i] in st.inbox;
      assert Apply(st, WaitFor(matches)).delivered == st.delivered + [Delivery(Waiter(st.calls, matches), st.inbox[i])];
    }
  }

  /** An arriving message goes to the longest-waiting waiter that wants it, and to the inbox only if
      nobody does. */
  lemma ArrivalWakesLongestWaiting<M>(trace: seq<Step<M>>, message: M)
    ensures var st := Run(trace); var after := Apply(st, Arrive(Some(message)));
            if exists w <- st.waiters :: w.matches(message) then
              exists w :: && after.delivered == st.delivered + [Delivery(w, Letter(st.arrived, message))]
                          && w in st.waiters && w.matches(message)
                          && (forall other <- st.waiters :: other.matches(message) ==> w.id <= other.id)
            else after.delivered == st.delivered && after.inbox == st.inbox + [Letter(st.arrived, message)]
  {
    hide Run, Without, LettersConserved, CallsConserved, NoLostWakeUp, TimersMatch;
    ValidRun(trace);
    var st := Run(trace);
    var i := WaiterFor(st.waiters, message);
    if i < |st.waiters| {
      assert st.waiters[i] in st.waiters;
      assert Apply(st, Arrive(Some(message))).delivered
             == st.delivered + [Delivery(st.waiters[i], Letter(st.arrived, message))];
    }
  }

  /** A wait times out only if no unconsumed message would have answered it. */
  lemma TimeoutOnlyWithoutMatch<M>(trace: seq<Step<M>>, id: nat)
    requires id in Run(trace).timers
    ensures var st := Run(trace); var after := Apply(st, Timeout(id));
            && after.rejected == st.rejected + [id] && after.inbox == st.inbox && after.delivered == st.delivered
            && exists w <- st.waiters :: w.id == id && w !in after.waiters && forall l <- st.inbox :: !w.matches(l.body)
  {
    hide Run, LettersConserved, CallsConserved;
    ValidRun(trace);
    var st := Run(trace);
    var i := IndexOf(st.waiters, id);
    assert st.waiters[i] in st.waiters;
  }
}
