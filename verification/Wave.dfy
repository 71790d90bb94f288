/**
 One wave of load: children are dispatched over the lanes until the wave's time is
 up, then the backbone lane tops up what is missing from the target. Attempts are
 promises, numbered in dispatch order; they settle at any time, also after the
 wave has returned its result.
 */
module Wave {
  import opened Common

  datatype LaneName = A | B | C

  datatype Lane = Lane(name: LaneName, maxConcurrent: int, isBackbone: bool)

  /** runWave's options, with the backbone already picked. */
  datatype Config = Config(lanes: seq<Lane>, backbone: Lane, target: int, backbonePaused: bool)

  datatype Outcome = Success | Failure | Threw

  datatype Settled = Settled(lane: LaneName, outcome: Outcome)

  datatype Phase =
    | Dispatching
    | ToppingUp(i: nat, shortfall: nat, waiting: bool)
    | Returned(shortfall: nat, anomaly: bool)
    | Rejected

  datatype State = State(
    phase: Phase,
    attempted: map<LaneName, nat>,
    completed: map<LaneName, nat>,
    inFlight: map<LaneName, set<nat>>,
    toppedUp: nat,
    failedTopUps: nat,
    dispatched: nat,
    settled: seq<Settled>)

  const INIT := State(Dispatching, map[], map[], map[], 0, 0, 0, [])

  datatype Step =
    | Tick(pick: Option<Lane>)       // one turn of the dispatch loop
    | LoopEnds                       // the wave's time is up, or the run is stopped
    | Settle(lane: LaneName, promise: nat, outcome: Outcome)
    | TopUp(stopped: bool)
    | TopUpDone(outcome: Outcome)

  /** m[k] ?? 0 */
  function Get(m: map<LaneName, nat>, k: LaneName): nat {
    if k in m then m[k] else 0
  }

  function Unsettled(st: State, l: LaneName): set<nat> {
    if l in st.inFlight then st.inFlight[l] else {}
  }

  function Total(m: map<LaneName, nat>): nat {
    Get(m, A) + Get(m, B) + Get(m, C)
  }

  function Increment(m: map<LaneName, nat>, k: LaneName): map<LaneName, nat> {
    m[k := Get(m, k) + 1]
  }

  predicate FirstBackbone(lanes: seq<Lane>, i: nat)
    requires i < |lanes|
  {
    lanes[i].isBackbone && forall j :: 0 <= j < i ==> !lanes[j].isBackbone
  }

  function BackboneOf(lanes: seq<Lane>): (r: Option<Lane>)
    ensures r == None <==> forall l <- lanes :: !l.isBackbone
    ensures r.Some? ==> exists i :: 0 <= i < |lanes| && lanes[i] == r.value && FirstBackbone(lanes, i)
  {
    if lanes == [] then None
    else if lanes[0].isBackbone then Some(lanes[0])
    else BackboneOf(lanes[1..])
  }

  /** Who may be dispatched before the top-up. */
  predicate Candidate(cfg: Config, l: Lane) {
    l in cfg.lanes && !(cfg.backbonePaused && l.isBackbone)
  }

  function TopUpCount(completed: map<LaneName, nat>, target: int): nat {
    if target - Total(completed) <= 0 then 0 else target - Total(completed)
  }

  predicate BackboneDown(cfg: Config, completed: map<LaneName, nat>) {
    Get(completed, cfg.backbone.name) == 0 && Total(completed) < cfg.target
  }

  /** pickLane returns nothing or one of its candidates; a promise settles once. */
  predicate Possible(cfg: Config, st: State, step: Step) {
    match step
    case Tick(pick) => st.phase == Dispatching && (pick.Some? ==> Candidate(cfg, pick.value))
    case LoopEnds => st.phase == Dispatching
    case Settle(l, p, _) => p in Unsettled(st, l)
    case TopUp(_) => st.phase.ToppingUp? && !st.phase.waiting
    case TopUpDone(_) => st.phase.ToppingUp? && st.phase.waiting
  }

  function AfterDispatch(st: State, l: Lane): State {
    st.(attempted := Increment(st.attempted, l.name),
        inFlight := st.inFlight[l.name := Unsettled(st, l.name) + {st.dispatched}],
        dispatched := st.dispatched + 1)
  }

  function AfterTick(st: State, pick: Option<Lane>): State {
    if pick.Some? && |Unsettled(st, pick.value.name)| < pick.value.maxConcurrent then AfterDispatch(st, pick.value)
    else st
  }

  function AfterSettle(st: State, l: LaneName, p: nat, outcome: Outcome): State {
    st.(inFlight := st.inFlight[l := Unsettled(st, l) - {p}],
        completed := if outcome == Success then Increment(st.completed, l) else st.completed,
        settled := st.settled + [Settled(l, outcome)])
  }

  function AfterTopUp(cfg: Config, st: State, stopped: bool): State
    requires st.phase.ToppingUp?
  {
    if st.phase.i < st.phase.shortfall && !stopped then st.(phase := st.phase.(waiting := true))
    else st.(phase := Returned(st.phase.shortfall, BackboneDown(cfg, st.completed)))
  }

  function AfterTopUpDone(cfg: Config, st: State, outcome: Outcome): State
    requires st.phase.ToppingUp?
  {
    match outcome
    case Success =>
      st.(phase := ToppingUp(st.phase.i + 1, st.phase.shortfall, false),
          completed := Increment(st.completed, cfg.backbone.name), toppedUp := st.toppedUp + 1)
    case Failure =>
      st.(phase := ToppingUp(st.phase.i + 1, st.phase.shortfall, false), failedTopUps := st.failedTopUps + 1)
    case Threw => st.(phase := Rejected)
  }

  function Apply(cfg: Config, st: State, step: Step): State {
    if !Possible(cfg, st, step) then st
    else
      match step
      case Tick(pick) => AfterTick(st, pick)
      case LoopEnds => st.(phase := ToppingUp(0, TopUpCount(st.completed, cfg.target), false))
      case Settle(l, p, outcome) => AfterSettle(st, l, p, outcome)
      case TopUp(stopped) => AfterTopUp(cfg, st, stopped)
      case TopUpDone(outcome) => AfterTopUpDone(cfg, st, outcome)
  }

  function Run(cfg: Config, trace: seq<Step>): State
    decreases |trace|
  {
    if trace == [] then INIT else Apply(cfg, Run(cfg, trace[..|trace| - 1]), trace[|trace| - 1])
  }

  // ---------------------------------------------------------------------
  // The program, one method for each stretch between two awaits

  method PickBackbone(lanes: seq<Lane>) returns (r: Option<Lane>)
    ensures r == BackboneOf(lanes)
  {
    for i := 0 to |lanes|
      invariant BackboneOf(lanes) == BackboneOf(lanes[i..])
    {
      if lanes[i].isBackbone {
        return Some(lanes[i]);
      }
    }
    return None;
  }

  class WaveRun {
    const cfg: Config
    var attemptedByLane: map<LaneName, nat>
    var completedByLane: map<LaneName, nat>
    var inFlight: map<LaneName, set<nat>>
    var toppedUp: nat
    var phase: Phase                  // where the function stands
    ghost var failedTopUps: nat
    ghost var settled: seq<Settled>
    var dispatched: nat

    ghost function View(): State
      reads this
    {
      State(phase, attemptedByLane, completedByLane, inFlight, toppedUp, failedTopUps, dispatched, settled)
    }

    constructor (cfg: Config)
      ensures View() == INIT && this.cfg == cfg
    {
      this.cfg := cfg;
      phase, attemptedByLane, completedByLane, inFlight := Dispatching, map[], map[], map[];
      toppedUp, failedTopUps, dispatched, settled := 0, 0, 0, [];
    }

    method Dispatch(lane: Lane)
      modifies this
      ensures View() == AfterDispatch(old(View()), lane)
    {
      attemptedByLane := attemptedByLane[lane.name := Get(attemptedByLane, lane.name) + 1];
      var running := if lane.name in inFlight then inFlight[lane.name] else {};
      running := running + {dispatched};
      dispatched := dispatched + 1;
      inFlight := inFlight[lane.name := running];
    }

    /** One turn of the dispatch loop; when it ends, the shortfall. */
    method OnTick(timeUp: bool, stopped: bool, pick: Option<Lane>)
      requires phase == Dispatching && (pick.Some? ==> Candidate(cfg, pick.value))
      modifies this
      ensures View() == Apply(cfg, old(View()), if timeUp || stopped then LoopEnds else Tick(pick))
    {
      if timeUp || stopped {
        var shortfall := cfg.target - Total(completedByLane);
        phase := ToppingUp(0, if shortfall <= 0 then 0 else shortfall, false);
        return;
      }
      if pick.Some? {
        var running := if pick.value.name in inFlight then |inFlight[pick.value.name]| else 0;
        if running < pick.value.maxConcurrent {
          Dispatch(pick.value);
        }
      }
    }

    /** An attempt's then or catch handler. */
    method OnSettled(lane: LaneName, promise: nat, outcome: Outcome)
      requires promise in Unsettled(View(), lane)
      modifies this
      ensures View() == Apply(cfg, old(View()), Settle(lane, promise, outcome))
    {
      inFlight := inFlight[lane := inFlight[lane] - {promise}];
      if outcome == Success {
        completedByLane := completedByLane[lane := Get(completedByLane, lane) + 1];
      }
      settled := settled + [Settled(lane, outcome)];
    }

    /** The head of the top-up loop, and the return after it. */
    method OnTopUp(stopped: bool)
      requires phase.ToppingUp? && !phase.waiting
      modifies this
      ensures View() == Apply(cfg, old(View()), TopUp(stopped))
    {
      if phase.i < phase.shortfall && !stopped {
        phase := phase.(waiting := true);
      } else {
        var anomaly := Get(completedByLane, cfg.backbone.name) == 0 && Total(completedByLane) < cfg.target;
        phase := Returned(phase.shortfall, anomaly);
      }
    }

    method OnTopUpDone(outcome: Outcome)
      requires phase.ToppingUp? && phase.waiting
      modifies this
      ensures View() == Apply(cfg, old(View()), TopUpDone(outcome))
    {
      if outcome == Threw {
        phase := Rejected;
        return;
      }
      if outcome == Success {
        completedByLane := completedByLane[cfg.backbone.name := Get(completedByLane, cfg.backbone.name) + 1];
        toppedUp := toppedUp + 1;
      } else {
        failedTopUps := failedTopUps + 1;
      }
      phase := ToppingUp(phase.i + 1, phase.shortfall, false);
    }
  }

  /** runWave up to its loop: without a backbone lane it throws. */
  method StartWave(lanes: seq<Lane>, target: int, backbonePaused: bool) returns (run: Option<WaveRun>)
    ensures run.None? <==> BackboneOf(lanes).None?
    ensures run.Some? ==>
              && fresh(run.value) && run.value.View() == INIT
              && run.value.cfg == Config(lanes, BackboneOf(lanes).value, target, backbonePaused)
  {
    var backbone := PickBackbone(lanes);
    if backbone.None? {
      return None;
    }
    var wave := new WaveRun(Config(lanes, backbone.value, target, backbonePaused));
    run := Some(wave);
  }

  // ---------------------------------------------------------------------
  // Accounting over every interleaving

  function SettledOf(log: seq<Settled>, l: LaneName): nat
    decreases |log|
  {
    if log == [] then 0
    else SettledOf(log[..|log| - 1], l) + (if log[|log| - 1].lane == l then 1 else 0)
  }

  function SuccessesOf(log: seq<Settled>, l: LaneName): (n: nat)
    ensures n <= SettledOf(log, l)
    decreases |log|
  {
    if log == [] then 0
    else SuccessesOf(log[..|log| - 1], l) + (if log[|log| - 1] == Settled(l, Success) then 1 else 0)
  }

  lemma LogMore(log: seq<Settled>, s: Settled, l: LaneName)
    ensures SettledOf(log + [s], l) == SettledOf(log, l) + (if s.lane == l then 1 else 0)
    ensures SuccessesOf(log + [s], l) == SuccessesOf(log, l) + (if s == Settled(l, Success) then 1 else 0)
  {
    assert (log + [s])[..|log|] == log;
  }

  function TopUps(cfg: Config, st: State, l: LaneName): nat {
    if l == cfg.backbone.name then st.toppedUp else 0
  }

  /** Lane `l` was dispatched only as a candidate, and below that candidate's cap. */
  ghost predicate WithinCap(cfg: Config, st: State, l: LaneName) {
    Get(st.attempted, l) > 0 ==> exists c :: Candidate(cfg, c) && c.name == l && |Unsettled(st, l)| <= c.maxConcurrent
  }

  ghost predicate LaneBalanced(cfg: Config, st: State, l: LaneName) {
    && Get(st.attempted, l) == |Unsettled(st, l)| + SettledOf(st.settled, l)
    && Get(st.completed, l) == SuccessesOf(st.settled, l) + TopUps(cfg, st, l)
    && (forall p <- Unsettled(st, l) :: p < st.dispatched)
    && WithinCap(cfg, st, l)
  }

  ghost predicate Balanced(cfg: Config, st: State) {
    forall l :: LaneBalanced(cfg, st, l)
  }

  /** While topping up: as many turns as top-ups ended; and what is done, still to do or failed reaches the target. */
  ghost predicate TopUpOnCourse(cfg: Config, st: State) {
    && (st.phase == Dispatching ==> st.toppedUp == st.failedTopUps == 0)
    && (st.phase.ToppingUp? ==>
          && st.toppedUp + st.failedTopUps == st.phase.i <= st.phase.shortfall
          && (st.phase.waiting ==> st.phase.i < st.phase.shortfall)
          && Total(st.completed) + (st.phase.shortfall - st.phase.i) + st.failedTopUps >= cfg.target)
    && (st.phase.Returned? ==> st.toppedUp + st.failedTopUps <= st.phase.shortfall)
  }

  lemma CountMore(m: map<LaneName, nat>, k: LaneName)
    ensures Total(Increment(m, k)) == Total(m) + 1
    ensures forall l :: Get(Increment(m, k), l) == Get(m, l) + (if l == k then 1 else 0)
  {
  }

  lemma DispatchBalanced(cfg: Config, st: State, c: Lane)
    requires Balanced(cfg, st) && Candidate(cfg, c) && |Unsettled(st, c.name)| < c.maxConcurrent
    ensures Balanced(cfg, AfterDispatch(st, c))
  {
    hide Candidate;
    CountMore(st.attempted, c.name);
    var after := AfterDispatch(st, c);
    forall l ensures LaneBalanced(cfg, after, l) {
      assert LaneBalanced(cfg, st, l);
    }
  }

  lemma SettleBalanced(cfg: Config, st: State, k: LaneName, p: nat, outcome: Outcome)
    requires Balanced(cfg, st) && p in Unsettled(st, k)
    ensures Balanced(cfg, AfterSettle(st, k, p, outcome))
  {
    hide Candidate, SettledOf, SuccessesOf;
    CountMore(st.completed, k);
    var after := AfterSettle(st, k, p, outcome);
    forall l ensures LaneBalanced(cfg, after, l) {
      assert LaneBalanced(cfg, st, l);
      LogMore(st.settled, Settled(k, outcome), l);
    }
  }

  lemma TopUpBalanced(cfg: Config, st: State, after: State)
    requires Balanced(cfg, st)
    requires after.attempted == st.attempted && after.inFlight == st.inFlight
    requires after.dispatched == st.dispatched && after.settled == st.settled
    requires || (after.completed == st.completed && after.toppedUp == st.toppedUp)
             || (after.completed == Increment(st.completed, cfg.backbone.name) && after.toppedUp == st.toppedUp + 1)
    ensures Balanced(cfg, after)
  {
    hide Candidate, SettledOf, SuccessesOf;
    CountMore(st.completed, cfg.backbone.name);
    forall l ensures LaneBalanced(cfg, after, l) {
      assert LaneBalanced(cfg, st, l);
    }
  }

  lemma BalancedStep(cfg: Config, st: State, step: Step)
    requires Balanced(cfg, st)
    ensures Balanced(cfg, Apply(cfg, st, step))
  {
    hide Balanced, Total, Increment, AfterDispatch, AfterSettle;
    if Possible(cfg, st, step) {
      match step
      case LoopEnds => TopUpBalanced(cfg, st, Apply(cfg, st, step));
      case Tick(pick) =>
        if pick.Some? && |Unsettled(st, pick.value.name)| < pick.value.maxConcurrent {
          DispatchBalanced(cfg, st, pick.value);
        }
      case Settle(l, p, outcome) => SettleBalanced(cfg, st, l, p, outcome);
      case TopUp(_) => TopUpBalanced(cfg, st, Apply(cfg, st, step));
      case TopUpDone(_) => TopUpBalanced(cfg, st, Apply(cfg, st, step));
    }
  }

  lemma TopUpStep(cfg: Config, st: State, step: Step)
    requires TopUpOnCourse(cfg, st)
    ensures TopUpOnCourse(cfg, Apply(cfg, st, step))
  {
    hide Total, Increment, Candidate;
    CountMore(st.completed, cfg.backbone.name);
    if step.Settle? {
      CountMore(st.completed, step.lane);
    }
  }

  lemma {:induction false} ValidRun(cfg: Config, trace: seq<Step>)
    ensures Balanced(cfg, Run(cfg, trace)) && TopUpOnCourse(cfg, Run(cfg, trace))
    decreases |trace|
  {
    if trace == [] {
      assert forall l :: LaneBalanced(cfg, INIT, l);
    } else {
      hide Balanced, TopUpOnCourse, Apply;
      ValidRun(cfg, trace[..|trace| - 1]);
      BalancedStep(cfg, Run(cfg, trace[..|trace| - 1]), trace[|trace| - 1]);
      TopUpStep(cfg, Run(cfg, trace[..|trace| - 1]), trace[|trace| - 1]);
    }
  }

  ghost predicate DistinctNames(lanes: seq<Lane>) {
    forall l, k :: l in lanes && k in lanes && l.name == k.name ==> l == k
  }

  /** Lane by lane: attempts are settled or unsettled; unsettled ones keep the lane's cap; completions are the
      attempts that succeeded and, on the backbone, the top-ups that did, so never more than were made. */
  lemma AttemptsAccountedFor(cfg: Config, trace: seq<Step>, lane: Lane)
    requires DistinctNames(cfg.lanes) && lane in cfg.lanes
    ensures var st := Run(cfg, trace); var l := lane.name;
            && Get(st.attempted, l) == |Unsettled(st, l)| + SettledOf(st.settled, l)
            && (Unsettled(st, l) == {} || |Unsettled(st, l)| <= lane.maxConcurrent)
            && Get(st.completed, l) == SuccessesOf(st.settled, l) + TopUps(cfg, st, l)
            && Get(st.completed, l) <= Get(st.attempted, l) + TopUps(cfg, st, l)
            && (cfg.backbonePaused && lane.isBackbone ==> Get(st.attempted, l) == 0 && Unsettled(st, l) == {})
  {
    hide Run, SettledOf, SuccessesOf;
    ValidRun(cfg, trace);
    assert LaneBalanced(cfg, Run(cfg, trace), lane.name);
  }

  /** All in all: what counts as completed is every attempt that succeeded and every top-up that did. */
  lemma CompletionsConserved(cfg: Config, trace: seq<Step>)
    ensures var st := Run(cfg, trace);
            Total(st.completed)
            == SuccessesOf(st.settled, A) + SuccessesOf(st.settled, B) + SuccessesOf(st.settled, C) + st.toppedUp
  {
    hide Run, SettledOf, SuccessesOf;
    ValidRun(cfg, trace);
    var st := Run(cfg, trace);
    assert LaneBalanced(cfg, st, A) && LaneBalanced(cfg, st, B) && LaneBalanced(cfg, st, C);
  }

  /** Where the dispatch loop ended. */
  function EndOfLoop(trace: seq<Step>): (k: nat)
    ensures k <= |trace| && (k < |trace| ==> trace[k] == LoopEnds)
    ensures forall i :: 0 <= i < k ==> trace[i] != LoopEnds
    decreases |trace|
  {
    if trace == [] then 0
    else
      var k := EndOfLoop(trace[..|trace| - 1]);
      if k < |trace| - 1 || trace[|trace| - 1] == LoopEnds then k else |trace|
  }

  lemma PhaseStep(cfg: Config, st: State, step: Step)
    ensures var after := Apply(cfg, st, step); var done := Total(st.completed);
            && (step == LoopEnds && st.phase == Dispatching ==>
                  && after.phase.ToppingUp?
                  && done + after.phase.shortfall == if done >= cfg.target then done else cfg.target)
            && (step != LoopEnds && st.phase == Dispatching ==> after.phase == Dispatching)
            && (st.phase != Dispatching ==> after.phase != Dispatching)
            && (st.phase != Dispatching && (after.phase.ToppingUp? || after.phase.Returned?) ==>
                  (st.phase.ToppingUp? || st.phase.Returned?) && after.phase.shortfall == st.phase.shortfall)
  {
    hide Candidate;
  }

  /** The shortfall is what the target lacked when the loop ended, whatever settles later; and top-ups, good or
      failed, never exceed it. */
  lemma {:induction false} ToppedUpWithinShortfall(cfg: Config, trace: seq<Step>)
    ensures var st := Run(cfg, trace); var k := EndOfLoop(trace);
            && (k == |trace| <==> st.phase == Dispatching)
            && (st.phase.ToppingUp? || st.phase.Returned? ==>
                  && (var done := Total(Run(cfg, trace[..k]).completed);
                      done + st.phase.shortfall == if done >= cfg.target then done else cfg.target)
                  && st.toppedUp + st.failedTopUps <= st.phase.shortfall)
    decreases |trace|
  {
    if trace != [] {
      hide Total, Candidate, Apply, TopUpCount;
      var front := trace[..|trace| - 1];
      ToppedUpWithinShortfall(cfg, front);
      PhaseStep(cfg, Run(cfg, front), trace[|trace| - 1]);
      ValidRun(cfg, trace);
      var k := EndOfLoop(front);
      assert front[..k] == trace[..k];
    }
  }

  /** A wave whose top-up was not stopped misses its target by no more than the top-ups that failed. */
  lemma TargetMetButForFailures(cfg: Config, trace: seq<Step>)
    requires Run(cfg, trace).phase.ToppingUp? && !Run(cfg, trace).phase.waiting
    ensures var end := Run(cfg, trace + [TopUp(false)]);
            end.phase.Returned? ==> Total(end.completed) + end.failedTopUps >= cfg.target
  {
    hide Run, Total;
    RunMore(cfg, trace, TopUp(false));
    ValidRun(cfg, trace);
  }

  lemma RunMore(cfg: Config, trace: seq<Step>, step: Step)
    ensures Run(cfg, trace + [step]) == Apply(cfg, Run(cfg, trace), step)
  {
    assert (trace + [step])[..|trace|] == trace;
  }

  /** Attempts that succeeded, over all lanes. */
  function Organic(st: State): nat {
    SuccessesOf(st.settled, A) + SuccessesOf(st.settled, B) + SuccessesOf(st.settled, C)
  }

  lemma {:induction false} OrganicGrows(cfg: Config, trace: seq<Step>, k: nat)
    requires k <= |trace|
    ensures Organic(Run(cfg, trace[..k])) <= Organic(Run(cfg, trace))
    decreases |trace|
  {
    if k == |trace| {
      assert trace[..k] == trace;
    } else {
      hide Organic, Apply;
      var front := trace[..|trace| - 1];
      assert front[..k] == trace[..k];
      OrganicGrows(cfg, front, k);
      OrganicStep(cfg, Run(cfg, front), trace[|trace| - 1]);
    }
  }

  lemma OrganicStep(cfg: Config, st: State, step: Step)
    ensures Organic(st) <= Organic(Apply(cfg, st, step))
  {
    hide SuccessesOf, Candidate, Total, Increment;
    if step.Settle? {
      var s := Settled(step.lane, step.outcome);
      LogMore(st.settled, s, A);
      LogMore(st.settled, s, B);
      LogMore(st.settled, s, C);
    }
  }

  lemma LoopStateIsBare(cfg: Config, trace: seq<Step>)
    ensures Run(cfg, trace[..EndOfLoop(trace)]).toppedUp == 0
  {
    hide Run, EndOfLoop;
    var front := trace[..EndOfLoop(trace)];
    assert EndOfLoop(front) == |front| by {
      assert forall i :: 0 <= i < |front| ==> front[i] == trace[i];
    }
    ToppedUpWithinShortfall(cfg, front);
    ValidRun(cfg, front);
  }

  /** A wave that has returned, stopped or not, meets its target exactly when at least as many attempts succeeded
      after the dispatch loop ended as the top-ups left of the shortfall; what settles after the return counts too. */
  lemma TargetMetExactly(cfg: Config, trace: seq<Step>)
    requires Run(cfg, trace).phase.Returned?
    ensures var end := Run(cfg, trace); var loopEnd := Run(cfg, trace[..EndOfLoop(trace)]);
            Total(end.completed) >= cfg.target
            <==> end.phase.shortfall - end.toppedUp <= Organic(end) - Organic(loopEnd)
  {
    hide Run, Total, SuccessesOf, EndOfLoop, BackboneDown;
    ToppedUpWithinShortfall(cfg, trace);
    LoopStateIsBare(cfg, trace);
    CompletionsConserved(cfg, trace);
    CompletionsConserved(cfg, trace[..EndOfLoop(trace)]);
    OrganicGrows(cfg, trace, EndOfLoop(trace));
  }

  /** A wave can miss its target because its top-up was stopped, with no top-up failed, or because one failed. */
  lemma StoppedOrFailedTopUpMisses(lane: Lane)
    ensures var cfg := Config([lane], lane, 1, false); var st := Run(cfg, [LoopEnds, TopUp(true)]);
            st.phase.Returned? && st.failedTopUps == 0 && Total(st.completed) < cfg.target
    ensures var cfg := Config([lane], lane, 1, false);
            var st := Run(cfg, [LoopEnds, TopUp(false), TopUpDone(Failure), TopUp(false)]);
            st.phase.Returned? && st.failedTopUps == 1 && Total(st.completed) < cfg.target
  {
    hide Run;
    var cfg := Config([lane], lane, 1, false);
    var t1 := [LoopEnds];
    var t2 := t1 + [TopUp(false)];
    var t3 := t2 + [TopUpDone(Failure)];
    RunEmpty(cfg);
    RunMore(cfg, [], LoopEnds);
    assert [] + [LoopEnds] == t1;
    RunMore(cfg, t1, TopUp(true));
    assert t1 + [TopUp(true)] == [LoopEnds, TopUp(true)];
    RunMore(cfg, t1, TopUp(false));
    RunMore(cfg, t2, TopUpDone(Failure));
    RunMore(cfg, t3, TopUp(false));
    assert t3 + [TopUp(false)] == [LoopEnds, TopUp(false), TopUpDone(Failure), TopUp(false)];
  }

  /** A wave reports its backbone down exactly when it missed its target with no attempt of the backbone lane
      successful and nothing topped up; unless stopped, every top-up was then tried and failed, and there was one. */
  lemma AnomalyExactly(cfg: Config, trace: seq<Step>, stopped: bool)
    requires Run(cfg, trace).phase.ToppingUp? && !Run(cfg, trace).phase.waiting
    requires Run(cfg, trace + [TopUp(stopped)]).phase.Returned?
    ensures var st := Run(cfg, trace + [TopUp(stopped)]);
            && (st.phase.anomaly <==> && Total(st.completed) < cfg.target && st.toppedUp == 0
                                      && SuccessesOf(st.settled, cfg.backbone.name) == 0)
            && (st.phase.anomaly && !stopped ==> st.failedTopUps == st.phase.shortfall > 0)
  {
    hide Run, Total, SuccessesOf;
    RunMore(cfg, trace, TopUp(stopped));
    ValidRun(cfg, trace);
    assert LaneBalanced(cfg, Run(cfg, trace), cfg.backbone.name);
  }

  /** The result is the live map: an attempt that settles after the return still counts, so a wave reported
      down can reach its target with its backbone's success. */
  lemma LateSuccessBeliesAnomaly()
    ensures var lane := Lane(A, 1, true);
            var cfg := Config([lane], lane, 1, false);
            var trace := [Tick(Some(lane)), LoopEnds, TopUp(false), TopUpDone(Failure),
                          TopUp(false), Settle(A, 0, Success)];
            var st := Run(cfg, trace);
            st.phase == Returned(1, true) && Get(st.completed, cfg.backbone.name) == 1 == cfg.target
  {
    hide Run;
    var lane := Lane(A, 1, true);
    var cfg := Config([lane], lane, 1, false);
    var t1 := [Tick(Some(lane))];
    var t2 := t1 + [LoopEnds];
    var t3 := t2 + [TopUp(false)];
    var t4 := t3 + [TopUpDone(Failure)];
    var t5 := t4 + [TopUp(false)];
    var t6 := t5 + [Settle(A, 0, Success)];
    RunEmpty(cfg);
    RunMore(cfg, [], Tick(Some(lane)));
    assert [] + t1 == t1;
    RunMore(cfg, t1, LoopEnds);
    RunMore(cfg, t2, TopUp(false));
    RunMore(cfg, t3, TopUpDone(Failure));
    RunMore(cfg, t4, TopUp(false));
    RunMore(cfg, t5, Settle(A, 0, Success));
    assert Run(cfg, t1) == State(Dispatching, map[A := 1], map[], map[A := {0}], 0, 0, 1, []);
    assert Run(cfg, t2) == Run(cfg, t1).(phase := ToppingUp(0, 1, false));
    assert Run(cfg, t5) == Run(cfg, t1).(phase := Returned(1, true), failedTopUps := 1);
    assert t6 == [Tick(Some(lane)), LoopEnds, TopUp(false), TopUpDone(Failure),
                  TopUp(false), Settle(A, 0, Success)];
  }

  // ---------------------------------------------------------------------
  // How long the reported flag stays true

  /** Attempts of all lanes still out. */
  function Out(st: State): nat {
    |Unsettled(st, A)| + |Unsettled(st, B)| + |Unsettled(st, C)|
  }

  /** The backbone has delivered nothing and has nothing out, and all that is out cannot reach the target. */
  predicate DownForGood(cfg: Config, st: State) {
    && Unsettled(st, cfg.backbone.name) == {} && Get(st.completed, cfg.backbone.name) == 0
    && Total(st.completed) + Out(st) < cfg.target
  }

  lemma OutLess(st: State, l: LaneName, p: nat, outcome: Outcome)
    requires p in Unsettled(st, l)
    ensures Out(AfterSettle(st, l, p, outcome)) == Out(st) - 1
    ensures forall k :: k != l ==> Unsettled(AfterSettle(st, l, p, outcome), k) == Unsettled(st, k)
  {
  }

  /** After the return only attempts settle, each at most adding its own completion. */
  lemma ReturnedStep(cfg: Config, st: State, step: Step)
    requires st.phase.Returned?
    ensures var after := Apply(cfg, st, step);
            && after.phase == st.phase
            && (DownForGood(cfg, st) ==> DownForGood(cfg, after))
            && (!BackboneDown(cfg, st.completed) ==> !BackboneDown(cfg, after.completed))
  {
    hide Total, Increment, Out, AfterSettle;
    if Possible(cfg, st, step) && step.Settle? {
      CountMore(st.completed, step.lane);
      OutLess(st, step.lane, step.promise, step.outcome);
      SettledParts(st, step.lane, step.promise, step.outcome);
    }
  }

  lemma SettledParts(st: State, l: LaneName, p: nat, outcome: Outcome)
    ensures var after := AfterSettle(st, l, p, outcome);
            && after.phase == st.phase
            && after.completed == (if outcome == Success then Increment(st.completed, l) else st.completed)
            && Unsettled(after, l) == Unsettled(st, l) - {p}
  {
  }

  lemma {:induction false} ReturnedRun(cfg: Config, trace: seq<Step>, more: seq<Step>)
    requires Run(cfg, trace).phase.Returned?
    ensures var st := Run(cfg, trace); var end := Run(cfg, trace + more);
            && end.phase == st.phase
            && (DownForGood(cfg, st) ==> DownForGood(cfg, end))
            && (!BackboneDown(cfg, st.completed) ==> !BackboneDown(cfg, end.completed))
    decreases |more|
  {
    hide Run, DownForGood, BackboneDown, Apply;
    if more == [] {
      assert trace + more == trace;
    } else {
      var front, last := more[..|more| - 1], more[|more| - 1];
      ReturnedRun(cfg, trace, front);
      assert trace + more == trace + front + [last];
      RunMore(cfg, trace + front, last);
      ReturnedStep(cfg, Run(cfg, trace + front), last);
    }
  }

  /** Every attempt out can succeed: then all of them count. */
  lemma {:induction false} AllSucceed(cfg: Config, trace: seq<Step>) returns (more: seq<Step>)
    ensures var st := Run(cfg, trace);
            Total(Run(cfg, trace + more).completed) == Total(st.completed) + Out(st)
    decreases Out(Run(cfg, trace))
  {
    var st := Run(cfg, trace);
    if l :| Unsettled(st, l) != {} {
      hide Run, Total, Increment;
      var p :| p in Unsettled(st, l);
      var step := Settle(l, p, Success);
      RunMore(cfg, trace, step);
      OutLess(st, l, p, Success);
      CountMore(st.completed, l);
      var rest := AllSucceed(cfg, trace + [step]);
      more := [step] + rest;
      assert trace + more == trace + [step] + rest;
    } else {
      more := [];
      assert Unsettled(st, A) == {} && Unsettled(st, B) == {} && Unsettled(st, C) == {};
      assert trace + more == trace;
    }
  }

  /** The result of a wave stays one with its backbone down, whatever settles later, exactly when the backbone
      delivered nothing and has nothing out, and the attempts of the other lanes still out cannot reach the target. */
  lemma DownForGoodExactly(cfg: Config, trace: seq<Step>)
    requires Run(cfg, trace).phase.Returned?
    ensures (forall more :: BackboneDown(cfg, Run(cfg, trace + more).completed)) <==> DownForGood(cfg, Run(cfg, trace))
  {
    hide Run, Total, Out;
    var st := Run(cfg, trace);
    var l := cfg.backbone.name;
    assert trace + [] == trace;
    if DownForGood(cfg, st) {
      forall more ensures BackboneDown(cfg, Run(cfg, trace + more).completed) {
        ReturnedRun(cfg, trace, more);
      }
    } else if p :| p in Unsettled(st, l) {
      RunMore(cfg, trace, Settle(l, p, Success));
      CountMore(st.completed, l);
      assert !BackboneDown(cfg, Run(cfg, trace + [Settle(l, p, Success)]).completed);
    } else {
      var more := AllSucceed(cfg, trace);
      assert !BackboneDown(cfg, Run(cfg, trace + more).completed) || !BackboneDown(cfg, Run(cfg, trace + []).completed);
    }
  }

  /** The flag a wave reports is true of its live result ever after exactly when it was not set, or the backbone is
      down for good at the return. */
  lemma ReportedFlagStaysTrueExactly(cfg: Config, trace: seq<Step>, stopped: bool)
    requires Run(cfg, trace).phase.ToppingUp? && !Run(cfg, trace).phase.waiting
    requires Run(cfg, trace + [TopUp(stopped)]).phase.Returned?
    ensures var returned := trace + [TopUp(stopped)]; var st := Run(cfg, returned);
            (forall more :: BackboneDown(cfg, Run(cfg, returned + more).completed) == st.phase.anomaly)
            <==> (st.phase.anomaly ==> DownForGood(cfg, st))
  {
    hide Run, BackboneDown, DownForGood;
    var returned := trace + [TopUp(stopped)];
    RunMore(cfg, trace, TopUp(stopped));
    assert returned + [] == returned;
    DownForGoodExactly(cfg, returned);
    if !Run(cfg, returned).phase.anomaly {
      forall more ensures !BackboneDown(cfg, Run(cfg, returned + more).completed) {
        ReturnedRun(cfg, returned, more);
      }
    }
  }

  lemma RunEmpty(cfg: Config)
    ensures Run(cfg, []) == INIT
  {
  }

  // ---------------------------------------------------------------------
  // Each step in full

  /** A turn of the loop dispatches the lane picked exactly when it is below its cap. */
  lemma TickInFull(cfg: Config, st: State, lane: Lane)
    requires st.phase == Dispatching && lane in cfg.lanes && (cfg.backbonePaused ==> !lane.isBackbone)
    ensures var out := if lane.name in st.inFlight then st.inFlight[lane.name] else {};
            var made := if lane.name in st.attempted then st.attempted[lane.name] else 0;
            Apply(cfg, st, Tick(Some(lane)))
            == if |out| < lane.maxConcurrent
               then st.(attempted := st.attempted[lane.name := made + 1],
                        inFlight := st.inFlight[lane.name := out + {st.dispatched}], dispatched := st.dispatched + 1)
               else st
  {
  }

  /** An attempt that settles leaves its lane, and counts as completed exactly when it succeeded. */
  lemma SettleInFull(cfg: Config, st: State, l: LaneName, p: nat, outcome: Outcome)
    requires l in st.inFlight && p in st.inFlight[l]
    ensures var done := if l in st.completed then st.completed[l] else 0;
            Apply(cfg, st, Settle(l, p, outcome))
            == st.(inFlight := st.inFlight[l := st.inFlight[l] - {p}],
                   completed := if outcome == Success then st.completed[l := done + 1] else st.completed,
                   settled := st.settled + [Settled(l, outcome)])
  {
  }

  /** A top-up is tried while one is left and the run is not stopped; it counts on the backbone exactly when it
      succeeded, and a throw rejects the wave. */
  lemma TopUpInFull(cfg: Config, st: State, i: nat, shortfall: nat, stopped: bool, outcome: Outcome)
    ensures st.phase == ToppingUp(i, shortfall, false) ==>
              var after := Apply(cfg, st, TopUp(stopped));
              && after == st.(phase := after.phase)
              && (i < shortfall && !stopped ==> after.phase == ToppingUp(i, shortfall, true))
              && (i >= shortfall || stopped ==> after.phase.Returned? && after.phase.shortfall == shortfall)
    ensures st.phase == ToppingUp(i, shortfall, true) ==>
              var b := cfg.backbone.name;
              var done := if b in st.completed then st.completed[b] else 0;
              var next := ToppingUp(i + 1, shortfall, false);
              Apply(cfg, st, TopUpDone(outcome))
              == match outcome
                 case Success => st.(phase := next, completed := st.completed[b := done + 1],
                                   toppedUp := st.toppedUp + 1)
                 case Failure => st.(phase := next, failedTopUps := st.failedTopUps + 1)
                 case Threw => st.(phase := Rejected)
  {
  }
}
