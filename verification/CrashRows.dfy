/** The counts of the report: orphaned processes, one row per child, and the totals. */
module CrashRows {
  import opened Common
  import opened SessionLog
  import opened TranscriptDiff

  // ---------------------------------------------------------------------
  // Orphaned processes

  datatype Process = Process(pid: int, cmd: string, owner: Option<string>)

  datatype OrphanReport = OrphanReport(orphansAtKill: nat, orphanPids: seq<int>, gonePids: seq<int>)

  function Pids(procs: seq<Process>): set<int> {
    set p <- procs :: p.pid
  }

  /** The keys of the Map built from the non-server records: each pid where it first occurs. */
  function ChildPids(before: seq<Process>, server: set<int>): seq<int>
    decreases |before|
  {
    if before == [] then []
    else
      var keys := ChildPids(before[..|before| - 1], server);
      var pid := before[|before| - 1].pid;
      if pid in server || pid in keys then keys else keys + [pid]
  }

  function Keep(pids: seq<int>, wanted: set<int>): seq<int>
    decreases |pids|
  {
    if pids == [] then []
    else Keep(pids[..|pids| - 1], wanted) + (if pids[|pids| - 1] in wanted then [pids[|pids| - 1]] else [])
  }

  function Drop(pids: seq<int>, unwanted: set<int>): seq<int>
    decreases |pids|
  {
    if pids == [] then []
    else Drop(pids[..|pids| - 1], unwanted) + (if pids[|pids| - 1] in unwanted then [] else [pids[|pids| - 1]])
  }

  function DiffProcessSnapshots(before: seq<Process>, after: seq<Process>, server: set<int>): OrphanReport {
    var children := ChildPids(before, server);
    var orphans := Keep(children, Pids(after));
    OrphanReport(|orphans|, orphans, Drop(children, Pids(after)))
  }

  /** A process with this pid is in the snapshot. */
  predicate Runs(procs: seq<Process>, pid: int) {
    exists p <- procs :: p.pid == pid
  }

  ghost predicate Distinct(s: seq<int>) {
    forall i, j :: 0 <= i < j < |s| ==> s[i] != s[j]
  }

  lemma {:induction false} ChildPidsExact(before: seq<Process>, server: set<int>)
    ensures Distinct(ChildPids(before, server))
    ensures forall p :: p in ChildPids(before, server) <==> p in Pids(before) && p !in server
    decreases |before|
  {
    if before != [] {
      var n := |before| - 1;
      ChildPidsExact(before[..n], server);
      assert forall p :: p in Pids(before) <==> p in Pids(before[..n]) || p == before[n].pid by {
        assert before == before[..n] + [before[n]];
      }
    }
  }

  lemma {:induction false} KeepExact(pids: seq<int>, wanted: set<int>)
    requires Distinct(pids)
    ensures forall p :: p in Keep(pids, wanted) <==> p in pids && p in wanted
    ensures Distinct(Keep(pids, wanted))
    decreases |pids|
  {
    if pids != [] {
      var n := |pids| - 1;
      KeepExact(pids[..n], wanted);
      assert pids == pids[..n] + [pids[n]] && pids[n] !in pids[..n];
    }
  }

  lemma {:induction false} DropExact(pids: seq<int>, unwanted: set<int>)
    requires Distinct(pids)
    ensures forall p :: p in Drop(pids, unwanted) <==> p in pids && p !in unwanted
    ensures Distinct(Drop(pids, unwanted))
    decreases |pids|
  {
    if pids != [] {
      var n := |pids| - 1;
      DropExact(pids[..n], unwanted);
      assert pids == pids[..n] + [pids[n]] && pids[n] !in pids[..n];
    }
  }

  lemma {:induction false} KeptAndDropped(pids: seq<int>, alive: set<int>)
    ensures |Keep(pids, alive)| + |Drop(pids, alive)| == |pids|
    decreases |pids|
  {
    if pids != [] {
      KeptAndDropped(pids[..|pids| - 1], alive);
    }
  }

  function SetOf(s: seq<int>): set<int> {
    set p <- s
  }

  lemma {:induction false} DistinctCounts(s: seq<int>)
    requires Distinct(s)
    ensures |SetOf(s)| == |s|
    decreases |s|
  {
    if s != [] {
      var n := |s| - 1;
      DistinctCounts(s[..n]);
      assert SetOf(s) == SetOf(s[..n]) + {s[n]};
    }
  }

  /** Orphan and gone pids partition the distinct non-server pids of the first snapshot, each named once. */
  lemma OrphansAndGonePartition(before: seq<Process>, after: seq<Process>, server: set<int>)
    ensures var r := DiffProcessSnapshots(before, after, server);
            && (forall p :: p in r.orphanPids <==> Runs(before, p) && p !in server && Runs(after, p))
            && (forall p :: p in r.gonePids <==> Runs(before, p) && p !in server && !Runs(after, p))
            && Distinct(r.orphanPids) && Distinct(r.gonePids)
            && r.orphansAtKill + |r.gonePids| == |Pids(before) - server|
  {
    var children := ChildPids(before, server);
    ChildPidsExact(before, server);
    KeepExact(children, Pids(after));
    DropExact(children, Pids(after));
    KeptAndDropped(children, Pids(after));
    DistinctCounts(children);
    assert SetOf(children) == Pids(before) - server;
  }

  // ---------------------------------------------------------------------
  // One row per child

  function Lower(s: string): string
    decreases |s|
  {
    if s == [] then []
    else
      var c := s[|s| - 1];
      Lower(s[..|s| - 1]) + [if 'A' <= c <= 'Z' then (c as int + 32) as char else c]
  }

  const EDIT_TOOL_NAMES := {"edit", "write", "read", "multiedit", "writefile"}

  predicate IsEdit(e: Record) {
    e.toolName.Some? && Lower(e.toolName.value) in EDIT_TOOL_NAMES
  }

  function Edits(recs: seq<Record>): nat
    decreases |recs|
  {
    if recs == [] then 0
    else Edits(recs[..|recs| - 1]) + (if IsEdit(recs[|recs| - 1]) then 1 else 0)
  }

  function ToolResultsLost(d: Diff): nat {
    if "toolResult" in d.lostKinds then d.lostKinds["toolResult"]
    else if "tool_result" in d.lostKinds then d.lostKinds["tool_result"]
    else 0
  }

  /** The fields of the row derived from the transcript diff. */
  datatype LossRow = LossRow(turnsLost: nat, toolResultsLost: nat, editsLost: nat, newAfterRecovery: nat)

  function LossRowOf(d: Diff): LossRow {
    LossRow(d.lostCount, ToolResultsLost(d), Edits(d.lostToolCalls), d.newCount)
  }

  lemma {:induction false} TwoKindsFit(recs: seq<Record>, k: string, l: string)
    requires k != l
    ensures CountKind(recs, k) + CountKind(recs, l) <= |recs|
    decreases |recs|
  {
    if recs != [] {
      TwoKindsFit(recs[..|recs| - 1], k, l);
    }
  }

  lemma {:induction false} EditsFit(recs: seq<Record>)
    ensures Edits(recs) <= |recs|
    decreases |recs|
  {
    if recs != [] {
      EditsFit(recs[..|recs| - 1]);
    }
  }

  /** In every row the edits and tool results lost are distinct records among the turns lost. */
  lemma LossesFitInTurns(before: seq<Record>, after: seq<Record>)
    ensures var row := LossRowOf(DiffOf(before, after));
            row.editsLost + row.toolResultsLost <= row.turnsLost
  {
    hide Kinds, CountKind, Edits, ToolCalls, Tags;
    var lost := before[Retained(before, after)..];
    ToolCallsExact(lost);
    EditsFit(FirstOf(ToolCalls(lost), 50));
    KindsExact(lost, "toolResult");
    KindsExact(lost, "tool_result");
    TwoKindsFit(lost, "toolCall", "toolResult");
    TwoKindsFit(lost, "toolCall", "tool_result");
  }

  lemma {:induction false} EditsSplit(x: seq<Record>, y: seq<Record>)
    ensures Edits(x + y) == Edits(x) + Edits(y)
    decreases |y|
  {
    if y == [] {
      assert x + y == x;
    } else {
      assert (x + y)[..|x + y| - 1] == x + y[..|y| - 1];
      EditsSplit(x, y[..|y| - 1]);
    }
  }

  /** editsLost counts every edit call lost exactly when no edit call comes after the first 50 tool calls lost,
      so always when at most 50 were lost; otherwise it is too low. */
  lemma EditsLostExactly(before: seq<Record>, after: seq<Record>)
    ensures var calls := ToolCalls(before[Retained(before, after)..]);
            var row := LossRowOf(DiffOf(before, after));
            && row.editsLost <= Edits(calls)
            && (row.editsLost == Edits(calls) <==> |calls| <= 50 || Edits(calls[50..]) == 0)
  {
    var calls := ToolCalls(before[Retained(before, after)..]);
    if |calls| > 50 {
      EditsSplit(calls[..50], calls[50..]);
      assert calls[..50] + calls[50..] == calls;
    }
  }

  function Copies(e: Record, n: nat): (r: seq<Record>)
    ensures |r| == n
  {
    if n == 0 then [] else Copies(e, n - 1) + [e]
  }

  lemma {:induction false} CopiesOfEdit(e: Record, n: nat)
    requires e.kind == "toolCall" && IsEdit(e)
    ensures ToolCalls(Copies(e, n)) == Copies(e, n) && Edits(Copies(e, n)) == n
  {
    if n > 0 {
      CopiesOfEdit(e, n - 1);
      assert Copies(e, n)[..n - 1] == Copies(e, n - 1);
    }
  }

  /** More than 50 edit calls lost are not all counted. */
  lemma FiftyFirstEditUncounted(e: Record, n: nat)
    requires e.kind == "toolCall" && IsEdit(e) && n > 50
    ensures LossRowOf(DiffOf(Copies(e, n), [])).editsLost < n
  {
    hide IsEdit;
    var lost := Copies(e, n);
    CopiesOfEdit(e, n);
    assert Retained(lost, []) == 0 && lost[0..] == lost;
    EditsFit(lost[..50]);
  }

  // ---------------------------------------------------------------------
  // Totals

  datatype Row = Row(
    turnsLost: int,
    parentActionNeeded: bool,
    workedAfterReadiness: bool,
    silentStall: bool,
    duplicateCommits: int,
    buildRuns: int,
    orphanPids: seq<int>,
    finalOutcome: string)

  datatype Totals = Totals(
    children: nat,
    turnsLost: int,
    neededParentAction: nat,
    workedWithoutParentAction: nat,
    silentStalls: nat,
    duplicateCommits: int,
    buildRuns: int,
    orphanProcesses: nat,
    goalAchieved: nat,
    stuckOrFailed: nat)

  /** rows.reduce((a, r) => a + f(r), 0) */
  function SumOf(rows: seq<Row>, f: Row -> int): int
    decreases |rows|
  {
    if rows == [] then 0 else SumOf(rows[..|rows| - 1], f) + f(rows[|rows| - 1])
  }

  /** rows.filter(p).length */
  function CountOf(rows: seq<Row>, p: Row -> bool): nat
    decreases |rows|
  {
    if rows == [] then 0 else CountOf(rows[..|rows| - 1], p) + (if p(rows[|rows| - 1]) then 1 else 0)
  }

  /** rows.reduce((a, r) => Math.max(a, f(r)), 0) */
  function MaxOf(rows: seq<Row>, f: Row -> int): int
    decreases |rows|
  {
    if rows == [] then 0 else Max(MaxOf(rows[..|rows| - 1], f), f(rows[|rows| - 1]))
  }

  function Max(a: int, b: int): int {
    if a >= b then a else b
  }

  function OrphanUnion(rows: seq<Row>): set<int> {
    set r <- rows, p <- r.orphanPids :: p
  }

  predicate NeedsAction(r: Row) { r.parentActionNeeded }

  predicate WorkedAlone(r: Row) { !r.parentActionNeeded && r.workedAfterReadiness }

  predicate Stalled(r: Row) { r.silentStall }

  predicate Achieved(r: Row) { r.finalOutcome == "goal_achieved" }

  predicate StuckOrFailed(r: Row) { r.finalOutcome == "stuck" || r.finalOutcome == "failed" }

  function Turns(r: Row): int { r.turnsLost }

  function Duplicates(r: Row): int { r.duplicateCommits }

  function Builds(r: Row): int { r.buildRuns }

  function TotalsRows(rows: seq<Row>): Totals {
    Totals(|rows|, SumOf(rows, Turns), CountOf(rows, NeedsAction), CountOf(rows, WorkedAlone),
           CountOf(rows, Stalled), SumOf(rows, Duplicates), MaxOf(rows, Builds), |OrphanUnion(rows)|,
           CountOf(rows, Achieved), CountOf(rows, StuckOrFailed))
  }

  lemma {:induction false} FoldsSplit(x: seq<Row>, y: seq<Row>, f: Row -> int, p: Row -> bool)
    ensures SumOf(x + y, f) == SumOf(x, f) + SumOf(y, f)
    ensures CountOf(x + y, p) == CountOf(x, p) + CountOf(y, p)
    ensures MaxOf(x, f) >= 0 && MaxOf(x + y, f) == Max(MaxOf(x, f), MaxOf(y, f))
    decreases |x| + |y|
  {
    if y == [] {
      assert x + y == x;
      if x != [] {
        FoldsSplit(x[..|x| - 1], [], f, p);
      }
    } else {
      assert (x + y)[..|x + y| - 1] == x + y[..|y| - 1];
      FoldsSplit(x, y[..|y| - 1], f, p);
    }
  }

  /** Totals over two batches: count fields add, buildRuns is the larger, and orphans are counted once,
      by pid, across both. */
  lemma TotalsOfConcatenation(x: seq<Row>, y: seq<Row>)
    ensures var a := TotalsRows(x); var b := TotalsRows(y); var t := TotalsRows(x + y);
            && t.children == a.children + b.children
            && t.turnsLost == a.turnsLost + b.turnsLost
            && t.neededParentAction == a.neededParentAction + b.neededParentAction
            && t.workedWithoutParentAction == a.workedWithoutParentAction + b.workedWithoutParentAction
            && t.silentStalls == a.silentStalls + b.silentStalls
            && t.duplicateCommits == a.duplicateCommits + b.duplicateCommits
            && t.buildRuns == (if a.buildRuns >= b.buildRuns then a.buildRuns else b.buildRuns)
            && t.orphanProcesses == |OrphanUnion(x) + OrphanUnion(y)|
            && t.goalAchieved == a.goalAchieved + b.goalAchieved
            && t.stuckOrFailed == a.stuckOrFailed + b.stuckOrFailed
  {
    FoldsSplit(x, y, Turns, NeedsAction);
    FoldsSplit(x, y, Duplicates, WorkedAlone);
    FoldsSplit(x, y, Builds, Stalled);
    FoldsSplit(x, y, Builds, Achieved);
    FoldsSplit(x, y, Builds, StuckOrFailed);
    assert OrphanUnion(x + y) == OrphanUnion(x) + OrphanUnion(y);
  }

  /** ... and the totals of no row and of one row, which with concatenation fix them for every report. */
  lemma TotalsOfOneRow(r: Row)
    ensures TotalsRows([]) == Totals(0, 0, 0, 0, 0, 0, 0, 0, 0, 0)
    ensures var t := TotalsRows([r]);
            && t.children == 1 && t.turnsLost == r.turnsLost && t.duplicateCommits == r.duplicateCommits
            && (t.neededParentAction == 1 <==> r.parentActionNeeded)
            && (t.workedWithoutParentAction == 1 <==> r.workedAfterReadiness && !r.parentActionNeeded)
            && (t.silentStalls == 1 <==> r.silentStall)
            && t.buildRuns == (if r.buildRuns >= 0 then r.buildRuns else 0)
            && (Distinct(r.orphanPids) ==> t.orphanProcesses == |r.orphanPids|)
            && (t.goalAchieved == 1 <==> r.finalOutcome == "goal_achieved")
            && (t.stuckOrFailed == 1 <==> r.finalOutcome in {"stuck", "failed"})
  {
    assert [r][..0] == [];
    forall p ensures p in OrphanUnion([r]) <==> p in SetOf(r.orphanPids) {
      assert r in [r];
    }
    assert OrphanUnion([r]) == SetOf(r.orphanPids);
    if Distinct(r.orphanPids) {
      DistinctCounts(r.orphanPids);
    }
  }

  /** Orphans are counted once over all rows, by pid. */
  lemma OrphansCountedOnce(rows: seq<Row>, pids: set<int>)
    requires forall p :: p in pids <==> exists r <- rows :: p in r.orphanPids
    ensures TotalsRows(rows).orphanProcesses == |pids|
  {
    forall p
      ensures p in OrphanUnion(rows) <==> p in pids
    {
      assert p in OrphanUnion(rows) <==> exists r <- rows :: p in r.orphanPids;
    }
    assert OrphanUnion(rows) == pids;
  }

  // ---------------------------------------------------------------------
  // The row in full

  /** `c` is the letter `w`, or the capital that `w` is the small letter of. */
  predicate IsLetter(c: char, w: char) {
    c == w || ('A' <= c <= 'Z' && c as int + 32 == w as int)
  }

  /** `s` spells `word`, in any case. */
  predicate Spells(s: string, word: string) {
    |s| == |word| && forall i :: 0 <= i < |s| ==> IsLetter(s[i], word[i])
  }

  predicate NamesAnEdit(e: Record) {
    e.toolName.Some? && (|| Spells(e.toolName.value, "edit") || Spells(e.toolName.value, "write")
                         || Spells(e.toolName.value, "read") || Spells(e.toolName.value, "multiedit")
                         || Spells(e.toolName.value, "writefile"))
  }

  lemma SpellsMore(s: string, word: string)
    requires |s| == |word| > 0
    ensures var n := |s| - 1;
            Spells(s, word) <==> Spells(s[..n], word[..n]) && IsLetter(s[n], word[n])
  {
    hide IsLetter;
    var n := |s| - 1;
    assert forall i :: 0 <= i < n ==> s[..n][i] == s[i] && word[..n][i] == word[i];
  }

  lemma {:induction false} LowerSpells(s: string, word: string)
    requires forall c <- word :: 'a' <= c <= 'z'
    ensures Lower(s) == word <==> Spells(s, word)
    decreases |s|
  {
    hide Spells;
    LowerLength(s);
    SpellsLength(s, word);
    if s != "" && |s| == |word| {
      var n := |s| - 1;
      assert word == word[..n] + [word[n]] && word[n] in word;
      assert forall c <- word[..n] :: c in word;
      LowerSpells(s[..n], word[..n]);
      SpellsMore(s, word);
    }
  }

  lemma SpellsLength(s: string, word: string)
    ensures Spells(s, word) ==> |s| == |word|
    ensures s == word == "" ==> Spells(s, word)
  {
  }

  lemma {:induction false} LowerLength(s: string)
    ensures |Lower(s)| == |s|
    decreases |s|
  {
    if s != "" {
      LowerLength(s[..|s| - 1]);
    }
  }

  lemma EditExactly(e: Record)
    ensures IsEdit(e) <==> NamesAnEdit(e)
  {
    hide Lower, Spells;
    if e.toolName.Some? {
      LowerSpells(e.toolName.value, "edit");
      LowerSpells(e.toolName.value, "write");
      LowerSpells(e.toolName.value, "read");
      LowerSpells(e.toolName.value, "multiedit");
      LowerSpells(e.toolName.value, "writefile");
    }
  }

  /** Place `i` holds an edit call with fewer than 50 tool calls before it. */
  predicate IsSpot(lost: seq<Record>, i: nat)
    requires i < |lost|
  {
    lost[i].kind == "toolCall" && CountKind(lost[..i], "toolCall") < 50 && NamesAnEdit(lost[i])
  }

  /** Where the edits counted stand. */
  function EditSpots(lost: seq<Record>): set<nat> {
    set i: nat | i < |lost| && IsSpot(lost, i)
  }

  lemma IsSpotMore(front: seq<Record>, last: Record, i: nat)
    requires i < |front|
    ensures IsSpot(front + [last], i) <==> IsSpot(front, i)
  {
    assert (front + [last])[..i] == front[..i];
  }

  lemma IsSpotLast(front: seq<Record>, last: Record)
    ensures IsSpot(front + [last], |front|)
       <==> last.kind == "toolCall" && CountKind(front, "toolCall") < 50 && NamesAnEdit(last)
  {
    assert (front + [last])[..|front|] == front;
  }

  lemma InSpots(front: seq<Record>, last: Record, i: nat)
    ensures i in EditSpots(front + [last]) <==>
              || i in EditSpots(front)
              || (i == |front| && last.kind == "toolCall" && CountKind(front, "toolCall") < 50 && NamesAnEdit(last))
  {
    hide IsSpot, NamesAnEdit, CountKind;
    if i < |front| {
      IsSpotMore(front, last, i);
    } else if i == |front| {
      IsSpotLast(front, last);
    }
  }

  lemma EditSpotsStep(front: seq<Record>, last: Record)
    ensures EditSpots(front + [last])
         == EditSpots(front)
            + (if last.kind == "toolCall" && CountKind(front, "toolCall") < 50 && NamesAnEdit(last) then {|front|}
               else {})
  {
    hide EditSpots, NamesAnEdit, CountKind;
    forall i: nat
      ensures i in EditSpots(front + [last]) <==>
                || i in EditSpots(front)
                || (i == |front| && last.kind == "toolCall" && CountKind(front, "toolCall") < 50 && NamesAnEdit(last))
    {
      InSpots(front, last, i);
    }
  }

  lemma FirstCallsStep(front: seq<Record>, last: Record)
    ensures FirstOf(ToolCalls(front + [last]), 50)
         == FirstOf(ToolCalls(front), 50)
            + (if last.kind == "toolCall" && |ToolCalls(front)| < 50 then [last] else [])
  {
    assert (front + [last])[..|front|] == front;
  }

  lemma EditsStep(front: seq<Record>, last: Record)
    ensures Edits(FirstOf(ToolCalls(front + [last]), 50))
         == Edits(FirstOf(ToolCalls(front), 50))
            + (if last.kind == "toolCall" && CountKind(front, "toolCall") < 50 && NamesAnEdit(last) then 1 else 0)
  {
    hide IsEdit, NamesAnEdit, CountKind, ToolCalls, FirstOf, Edits;
    var calls := FirstOf(ToolCalls(front), 50);
    FirstCallsStep(front, last);
    ToolCallsExact(front);
    EditExactly(last);
    EditsOfOne(last);
    EditsSplit(calls, [last]);
    assert calls + [] == calls;
  }

  lemma {:induction false} EditsAreSpots(lost: seq<Record>)
    ensures Edits(FirstOf(ToolCalls(lost), 50)) == |EditSpots(lost)|
    decreases |lost|
  {
    hide NamesAnEdit, CountKind, ToolCalls, FirstOf, Edits, EditSpots;
    if lost == [] {
      EditSpotsOfNone();
    } else {
      var front, last := lost[..|lost| - 1], lost[|lost| - 1];
      assert lost == front + [last];
      EditsAreSpots(front);
      EditsStep(front, last);
      EditSpotsStep(front, last);
      EditSpotsBelow(front);
    }
  }

  lemma EditSpotsOfNone()
    ensures Edits(FirstOf(ToolCalls([]), 50)) == 0 && EditSpots([]) == {}
  {
  }

  lemma EditSpotsBelow(front: seq<Record>)
    ensures |front| !in EditSpots(front)
  {
  }

  lemma EditsOfOne(e: Record)
    ensures Edits([e]) == (if IsEdit(e) then 1 else 0)
  {
    assert [e][..0] == [];
  }

  /** Every counted field of the row, by the records lost and gained. */
  lemma RowInFull(before: seq<Record>, after: seq<Record>)
    ensures var row := LossRowOf(DiffOf(before, after)); var p := Retained(before, after); var lost := before[p..];
            && row.turnsLost == |before| - p && row.newAfterRecovery == |after| - p
            && row.toolResultsLost == (if CountKind(lost, "toolResult") > 0 then CountKind(lost, "toolResult")
                                       else CountKind(lost, "tool_result"))
            && row.editsLost == |EditSpots(lost)|
  {
    hide Kinds, CountKind, Edits, ToolCalls, Tags, EditSpots;
    var lost := before[Retained(before, after)..];
    KindsExact(lost, "toolResult");
    KindsExact(lost, "tool_result");
    EditsAreSpots(lost);
  }
}
