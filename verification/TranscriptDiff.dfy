/** The common-prefix diff of two transcript snapshots, and what it says of a log that only grows. */
module TranscriptDiff {
  import opened SessionLog

  datatype Diff = Diff(
    lostCount: nat,
    lostKinds: map<string, nat>,
    retainedCount: nat,
    newCount: nat,
    newKinds: map<string, nat>,
    lostExamples: seq<string>,
    lostToolCalls: seq<Record>)

  const MAX_TOOL_CALLS := 50
  const MAX_EXAMPLES := 5

  // ---------------------------------------------------------------------
  // Specification

  /** The longest common prefix, by tag. */
  function Retained(a: seq<Record>, b: seq<Record>): (p: nat)
    ensures p <= |a| && p <= |b|
  {
    if a == [] || b == [] || a[0].tag != b[0].tag then 0 else 1 + Retained(a[1..], b[1..])
  }

  function CountKind(recs: seq<Record>, kind: string): nat
    decreases |recs|
  {
    if recs == [] then 0
    else CountKind(recs[..|recs| - 1], kind) + (if recs[|recs| - 1].kind == kind then 1 else 0)
  }

  function Kinds(recs: seq<Record>): map<string, nat>
    decreases |recs|
  {
    if recs == [] then map[]
    else
      var m := Kinds(recs[..|recs| - 1]);
      var kind := recs[|recs| - 1].kind;
      m[kind := (if kind in m then m[kind] else 0) + 1]
  }

  function ToolCalls(recs: seq<Record>): seq<Record>
    decreases |recs|
  {
    if recs == [] then []
    else ToolCalls(recs[..|recs| - 1]) + (if recs[|recs| - 1].kind == "toolCall" then [recs[|recs| - 1]] else [])
  }

  function Tags(recs: seq<Record>): seq<string>
    decreases |recs|
  {
    if recs == [] then [] else Tags(recs[..|recs| - 1]) + [recs[|recs| - 1].tag]
  }

  function FirstOf<T>(s: seq<T>, n: nat): seq<T> {
    if |s| <= n then s else s[..n]
  }

  function DiffOf(before: seq<Record>, after: seq<Record>): Diff {
    var p := Retained(before, after);
    var lost := before[p..];
    var gained := after[p..];
    Diff(|lost|, Kinds(lost), p, |gained|, Kinds(gained), Tags(FirstOf(lost, MAX_EXAMPLES)),
         FirstOf(ToolCalls(lost), MAX_TOOL_CALLS))
  }

  // ---------------------------------------------------------------------
  // The program

  method CountKinds(recs: seq<Record>) returns (kinds: map<string, nat>)
    ensures kinds == Kinds(recs)
  {
    kinds := map[];
    for i := 0 to |recs|
      invariant kinds == Kinds(recs[..i])
    {
      assert recs[..i + 1][..i] == recs[..i];
      var kind := recs[i].kind;
      kinds := kinds[kind := (if kind in kinds then kinds[kind] else 0) + 1];
    }
    assert recs[..|recs|] == recs;
  }

  method DiffTranscriptSnapshots(before: seq<Record>, after: seq<Record>) returns (d: Diff)
    ensures d == DiffOf(before, after)
  {
    var p := 0;
    var limit := if |before| <= |after| then |before| else |after|;
    while p < limit && before[p].tag == after[p].tag
      invariant p <= limit
      invariant Retained(before, after) == p + Retained(before[p..], after[p..])
    {
      p := p + 1;
    }
    var lost, gained := before[p..], after[p..];
    var lostKinds := CountKinds(lost);
    var newKinds := CountKinds(gained);
    d := Diff(|lost|, lostKinds, p, |gained|, newKinds, Tags(FirstOf(lost, MAX_EXAMPLES)),
              FirstOf(ToolCalls(lost), MAX_TOOL_CALLS));
  }

  // ---------------------------------------------------------------------
  // The diff is the longest common prefix

  ghost predicate Agree(a: seq<Record>, b: seq<Record>, p: nat) {
    p <= |a| && p <= |b| && forall k :: 0 <= k < p ==> a[k].tag == b[k].tag
  }

  /** Retained is the greatest length up to which the snapshots agree. */
  lemma {:induction false} RetainedIsMaximal(a: seq<Record>, b: seq<Record>, q: nat)
    ensures Agree(a, b, q) <==> q <= Retained(a, b)
  {
    if a == [] || b == [] || a[0].tag != b[0].tag {
    } else if q > 0 {
      RetainedIsMaximal(a[1..], b[1..], q - 1);
      if Agree(a[1..], b[1..], q - 1) && q <= |a| && q <= |b| {
        forall k | 0 <= k < q ensures a[k].tag == b[k].tag {
          assert k > 0 ==> a[1..][k - 1] == a[k] && b[1..][k - 1] == b[k];
        }
      }
      if Agree(a, b, q) {
        forall k | 0 <= k < q - 1 ensures a[1..][k].tag == b[1..][k].tag {
          assert a[1..][k] == a[k + 1] && b[1..][k] == b[k + 1];
        }
      }
    }
  }

  /** Swapping the snapshots swaps lost and new. */
  lemma DiffSwaps(a: seq<Record>, b: seq<Record>)
    ensures var d := DiffOf(a, b); var e := DiffOf(b, a);
            && e.retainedCount == d.retainedCount
            && e.lostCount == d.newCount && e.newCount == d.lostCount
            && e.lostKinds == d.newKinds && e.newKinds == d.lostKinds
  {
    RetainedIsMaximal(a, b, Retained(a, b));
    RetainedIsMaximal(b, a, Retained(b, a));
    RetainedIsMaximal(a, b, Retained(b, a));
    RetainedIsMaximal(b, a, Retained(a, b));
  }

  /** Over three snapshots, what two share is at least what both share with the third. */
  lemma RetainedUltrametric(a: seq<Record>, b: seq<Record>, c: seq<Record>)
    ensures Retained(a, c) >= Retained(a, b) || Retained(a, c) >= Retained(b, c)
  {
    var p := if Retained(a, b) <= Retained(b, c) then Retained(a, b) else Retained(b, c);
    RetainedIsMaximal(a, b, p);
    RetainedIsMaximal(b, c, p);
    assert Agree(a, c, p);
    RetainedIsMaximal(a, c, p);
  }

  // ---------------------------------------------------------------------
  // The per-kind counts add up

  ghost function Sum(m: map<string, nat>): nat
    decreases |m|
  {
    if m == map[] then 0
    else
      var k :| k in m;
      m[k] + Sum(m - {k})
  }

  lemma {:induction false} SumWithout(m: map<string, nat>, k: string)
    requires k in m
    ensures Sum(m) == m[k] + Sum(m - {k})
    decreases |m|
  {
    var first :| first in m && Sum(m) == m[first] + Sum(m - {first});
    if first != k {
      SumWithout(m - {first}, k);
      SumWithout(m - {k}, first);
      assert m - {first} - {k} == m - {k} - {first};
    }
  }

  lemma SumUpdate(m: map<string, nat>, k: string, v: nat)
    ensures Sum(m[k := v]) == Sum(m) - (if k in m then m[k] else 0) + v
  {
    SumWithout(m[k := v], k);
    assert m[k := v] - {k} == m - {k};
    if k in m {
      SumWithout(m, k);
    } else {
      assert m - {k} == m;
    }
  }

  /** The per-kind table counts every kind exactly, lists no other, and sums to the number of records. */
  lemma {:induction false} KindsExact(recs: seq<Record>, kind: string)
    ensures kind in Kinds(recs) <==> CountKind(recs, kind) > 0
    ensures kind in Kinds(recs) ==> Kinds(recs)[kind] == CountKind(recs, kind)
    ensures Sum(Kinds(recs)) == |recs|
    decreases |recs|
  {
    if recs != [] {
      var before, last := recs[..|recs| - 1], recs[|recs| - 1].kind;
      KindsExact(before, kind);
      KindsExact(before, last);
      SumUpdate(Kinds(before), last, (if last in Kinds(before) then Kinds(before)[last] else 0) + 1);
    }
  }

  lemma DiffAccountsForEveryRecord(before: seq<Record>, after: seq<Record>)
    ensures var d := DiffOf(before, after);
            && d.retainedCount + d.lostCount == |before|
            && d.retainedCount + d.newCount == |after|
            && Sum(d.lostKinds) == d.lostCount
            && Sum(d.newKinds) == d.newCount
  {
    var p := Retained(before, after);
    KindsExact(before[p..], "");
    KindsExact(after[p..], "");
  }

  // ---------------------------------------------------------------------
  // A log that only grows loses nothing

  /** Records the parser has closed: later lines cannot change them. */
  function Closed(lines: seq<Line>): seq<Record> {
    TakeAll(START, Tokens(lines)).out
  }

  lemma {:induction false} TakeGrows(a: Acc, toks: seq<Token>)
    ensures var r := TakeAll(a, toks);
            && a.out <= r.out
            && (a.pending ==>
                  || (r.pending && r.out == a.out)
                  || (|r.out| > |a.out| && r.out[|a.out|].kind == "assistant"
                      && r.out[|a.out|].tag == "assistant#" + Digits(|a.out|)))
    decreases |toks|
  {
    hide Digits, UserRecord, CallRecord;
    if toks != [] {
      TakeGrows(a, toks[..|toks| - 1]);
    }
  }

  /** Appending lines keeps every closed record, and every record's kind, tag and index. */
  lemma GrowthKeepsRecords(a: seq<Line>, b: seq<Line>)
    ensures Closed(a) <= Records(a + b)
    ensures |Closed(a)| <= |Records(a)| <= |Closed(a)| + 1 && |Records(a)| <= |Records(a + b)|
    ensures forall k :: 0 <= k < |Records(a)| ==>
              Records(a)[k].tag == Records(a + b)[k].tag && Records(a)[k].kind == Records(a + b)[k].kind
  {
    hide Digits, UserRecord, CallRecord, Tokens, TakeAll;
    TokensSplit(a, b);
    TakeSplit(START, Tokens(a), Tokens(b));
    TakeGrows(TakeAll(START, Tokens(a)), Tokens(b));
  }

  /** Append-only means zero loss: nothing lost, everything retained, the rest new. */
  lemma AppendLosesNothing(a: seq<Line>, b: seq<Line>)
    ensures var d := DiffOf(Records(a), Records(a + b));
            && d.lostCount == 0 && d.lostKinds == map[] && d.lostToolCalls == []
            && d.retainedCount == |Records(a)|
            && d.newCount == |Records(a + b)| - |Records(a)|
  {
    hide Records;
    GrowthKeepsRecords(a, b);
    RetainedIsMaximal(Records(a), Records(a + b), |Records(a)|);
    assert Records(a)[Retained(Records(a), Records(a + b))..] == [];
  }

  lemma TornLineAddsNothing(a: seq<Line>)
    ensures Records(a + [Unparsable]) == Records(a)
  {
    hide Digits, UserRecord, CallRecord, TakeAll, Flush;
    assert (a + [Unparsable])[..|a|] == a;
    assert Tokens(a) + [] == Tokens(a);
  }

  /** Nor does a torn last line lose anything, whatever line it turns out to be once whole. */
  lemma TornTailLosesNothing(a: seq<Line>, whole: Line, b: seq<Line>)
    ensures var d := DiffOf(Records(a + [Unparsable]), Records(a + [whole] + b));
            d.lostCount == 0 && d.retainedCount == |Records(a)|
  {
    hide Records;
    TornLineAddsNothing(a);
    assert a + [whole] + b == a + ([whole] + b);
    AppendLosesNothing(a, [whole] + b);
  }

  // ---------------------------------------------------------------------
  // The diff in full

  lemma {:induction false} TagsExact(recs: seq<Record>)
    ensures |Tags(recs)| == |recs| && forall i :: 0 <= i < |recs| ==> Tags(recs)[i] == recs[i].tag
    decreases |recs|
  {
    if recs != [] {
      TagsExact(recs[..|recs| - 1]);
    }
  }

  /** The tool calls are the records of that kind, each after those before it. */
  lemma {:induction false} ToolCallsExact(recs: seq<Record>)
    ensures |ToolCalls(recs)| == CountKind(recs, "toolCall")
    ensures forall i :: 0 <= i < |recs| && recs[i].kind == "toolCall" ==>
              && CountKind(recs[..i], "toolCall") < |ToolCalls(recs)|
              && ToolCalls(recs)[CountKind(recs[..i], "toolCall")] == recs[i]
    decreases |recs|
  {
    if recs != [] {
      var n := |recs| - 1;
      ToolCallsExact(recs[..n]);
      assert forall i :: 0 <= i < n ==> recs[..n][..i] == recs[..i] && recs[..n][i] == recs[i];
    }
  }

  /** The places of the records of a kind. */
  function Places(recs: seq<Record>, kind: string): set<nat> {
    set i: nat | i < |recs| && recs[i].kind == kind
  }

  lemma PlacesMore(front: seq<Record>, last: Record, kind: string)
    ensures Places(front + [last], kind) == Places(front, kind) + (if last.kind == kind then {|front|} else {})
    ensures |front| !in Places(front, kind)
  {
    forall i: nat
      ensures i in Places(front + [last], kind)
         <==> i in Places(front, kind) || (i == |front| && last.kind == kind)
    {
    }
  }

  lemma {:induction false} CountKindExact(recs: seq<Record>, kind: string)
    ensures CountKind(recs, kind) == |Places(recs, kind)|
    decreases |recs|
  {
    if recs == [] {
      assert Places(recs, kind) == {};
    } else {
      hide Places;
      var n := |recs| - 1;
      assert recs == recs[..n] + [recs[n]];
      CountKindExact(recs[..n], kind);
      PlacesMore(recs[..n], recs[n], kind);
    }
  }

  /** Every field of the diff, by the records lost and gained: counts, kinds, the labels of the first five lost and the
      first fifty tool calls lost. */
  lemma DiffInFull(before: seq<Record>, after: seq<Record>, kind: string)
    ensures var d := DiffOf(before, after); var p := d.retainedCount;
            && Agree(before, after, p) && !Agree(before, after, p + 1)
            && d.lostCount == |before| - p && d.newCount == |after| - p
            && CountIn(d.lostKinds, kind) == CountKind(before[p..], kind)
            && CountIn(d.newKinds, kind) == CountKind(after[p..], kind)
            && |d.lostExamples| == (if d.lostCount < 5 then d.lostCount else 5)
            && (forall i :: 0 <= i < |d.lostExamples| ==> d.lostExamples[i] == before[p + i].tag)
    ensures var d := DiffOf(before, after); var lost := before[d.retainedCount..];
            var calls := CountKind(lost, "toolCall");
            && |d.lostToolCalls| == (if calls < 50 then calls else 50)
            && forall i :: 0 <= i < |lost| && lost[i].kind == "toolCall" && CountKind(lost[..i], "toolCall") < 50 ==>
                 && CountKind(lost[..i], "toolCall") < |d.lostToolCalls|
                 && d.lostToolCalls[CountKind(lost[..i], "toolCall")] == lost[i]
  {
    hide Retained, Kinds, Tags, ToolCalls, CountKind;
    var p := Retained(before, after);
    RetainedIsMaximal(before, after, p);
    RetainedIsMaximal(before, after, p + 1);
    KindsExact(before[p..], kind);
    KindsExact(after[p..], kind);
    TagsExact(FirstOf(before[p..], 5));
    ToolCallsExact(before[p..]);
  }

  function CountIn(m: map<string, nat>, kind: string): nat {
    if kind in m then m[kind] else 0
  }
}
