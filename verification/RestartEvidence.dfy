/** Is the child working again after a restart, and does more log ever change the answer? */
module RestartEvidence {
  import opened Common
  import opened SessionLog
  import opened TranscriptDiff

  predicate Qualifies(e: Record, refMs: int) {
    e.timestamp.Some? && e.timestamp.value > refMs && (e.kind == "assistant" || e.kind == "toolCall")
  }

  /** The earliest qualifying time. */
  function FirstAt(events: seq<Record>, refMs: int): Option<int>
    decreases |events|
  {
    if events == [] then None
    else
      var best := FirstAt(events[..|events| - 1], refMs);
      var e := events[|events| - 1];
      if Qualifies(e, refMs) && (best.None? || e.timestamp.value < best.value) then e.timestamp else best
  }

  ghost predicate IsMinimum(events: seq<Record>, refMs: int, t: int) {
    && (exists k :: 0 <= k < |events| && Qualifies(events[k], refMs) && events[k].timestamp.value == t)
    && (forall k :: 0 <= k < |events| && Qualifies(events[k], refMs) ==> t <= events[k].timestamp.value)
  }

  /** Working means some event qualifies, and the time reported is the least qualifying one. */
  lemma {:induction false} FirstAtIsMinimum(events: seq<Record>, refMs: int)
    ensures FirstAt(events, refMs).None? <==> (forall k :: 0 <= k < |events| ==> !Qualifies(events[k], refMs))
    ensures FirstAt(events, refMs).Some? ==> IsMinimum(events, refMs, FirstAt(events, refMs).value)
    decreases |events|
  {
    if events != [] {
      var n := |events| - 1;
      FirstAtIsMinimum(events[..n], refMs);
      var best := FirstAt(events[..n], refMs);
      if best.Some? {
        var k :| 0 <= k < n && Qualifies(events[..n][k], refMs) && events[..n][k].timestamp.value == best.value;
        assert events[k] == events[..n][k];
      }
      assert forall k :: 0 <= k < n ==> events[..n][k] == events[k];
    }
  }

  /** The child's own output after the reference time: an assistant text or a tool call, never a user message or a
      tool result, and only with a time later than it. */
  predicate Counts(e: Record, refMs: int) {
    (e.kind == "assistant" || e.kind == "toolCall") && e.timestamp.Some? && refMs < e.timestamp.value
  }

  lemma CountsExactly(events: seq<Record>, refMs: int)
    ensures FirstAt(events, refMs).Some? <==> exists e <- events :: Counts(e, refMs)
    ensures FirstAt(events, refMs).Some? ==>
              && (exists e <- events :: Counts(e, refMs) && e.timestamp == FirstAt(events, refMs))
              && (forall e <- events :: Counts(e, refMs) ==> FirstAt(events, refMs).value <= e.timestamp.value)
  {
    FirstAtIsMinimum(events, refMs);
    assert forall e :: Counts(e, refMs) <==> Qualifies(e, refMs);
    assert forall k :: 0 <= k < |events| ==> events[k] in events;
  }

  method FirstWorkingAfterReadiness(events: seq<Record>, refMs: int)
    returns (working: bool, firstEventAtMs: Option<int>)
    ensures firstEventAtMs == FirstAt(events, refMs) && working == firstEventAtMs.Some?
    ensures working <==> exists e <- events :: Counts(e, refMs)
    ensures working ==> && (exists e <- events :: Counts(e, refMs) && e.timestamp == firstEventAtMs)
                        && (forall e <- events :: Counts(e, refMs) ==> firstEventAtMs.value <= e.timestamp.value)
  {
    CountsExactly(events, refMs);
    firstEventAtMs := None;
    for i := 0 to |events|
      invariant firstEventAtMs == FirstAt(events[..i], refMs)
    {
      assert events[..i + 1][..i] == events[..i];
      var e := events[i];
      if e.timestamp.None? || e.timestamp.value <= refMs {
        continue;
      }
      if e.kind != "assistant" && e.kind != "toolCall" {
        continue;
      }
      if firstEventAtMs.None? || e.timestamp.value < firstEventAtMs.value {
        firstEventAtMs := e.timestamp;
      }
    }
    assert events[..|events|] == events;
    working := firstEventAtMs.Some?;
  }

  lemma {:induction false} FirstAtSplit(x: seq<Record>, y: seq<Record>, refMs: int)
    ensures FirstAt(x + y, refMs).Some? <==> FirstAt(x, refMs).Some? || FirstAt(y, refMs).Some?
    decreases |y|
  {
    if y == [] {
      assert x + y == x;
    } else {
      assert (x + y)[..|x + y| - 1] == x + y[..|y| - 1];
      FirstAtSplit(x, y[..|y| - 1], refMs);
    }
  }

  /** Exactly when a grown log still shows work: a closed record qualifies, or one from the run that was
      still open, or later, does. */
  lemma WorkingAfterGrowth(a: seq<Line>, b: seq<Line>, refMs: int)
    ensures Closed(a) <= Records(a + b)
    ensures FirstAt(Records(a + b), refMs).Some?
            <==> FirstAt(Closed(a), refMs).Some? || FirstAt(Records(a + b)[|Closed(a)|..], refMs).Some?
  {
    hide Records, Closed;
    GrowthKeepsRecords(a, b);
    FirstAtSplit(Closed(a), Records(a + b)[|Closed(a)|..], refMs);
    assert Closed(a) + Records(a + b)[|Closed(a)|..] == Records(a + b);
  }

  // ---------------------------------------------------------------------
  // Numeric, nondecreasing timestamps

  ghost predicate Timed(toks: seq<Token>) {
    && (forall i :: 0 <= i < |toks| ==> toks[i].ts.Some?)
    && (forall i, j :: 0 <= i <= j < |toks| ==> toks[i].ts.value <= toks[j].ts.value)
  }

  predicate AtLeast(ts: Option<int>, low: int) {
    ts.Some? && ts.value >= low
  }

  /** From tokens no earlier than `low`, every record made from here on is no earlier than `low`. */
  lemma {:induction false} TakeNotBefore(a: Acc, toks: seq<Token>, low: int)
    requires a.pending ==> AtLeast(a.pendingTs, low)
    requires forall i :: 0 <= i < |toks| ==> AtLeast(toks[i].ts, low)
    ensures var r := TakeAll(a, toks);
            && (r.pending ==> AtLeast(r.pendingTs, low))
            && |r.out| >= |a.out|
            && (forall k :: |a.out| <= k < |r.out| ==> AtLeast(r.out[k].timestamp, low))
    decreases |toks|
  {
    hide Digits, UserRecord, CallRecord, AtLeast;
    if toks != [] {
      TakeNotBefore(a, toks[..|toks| - 1], low);
    }
  }

  lemma {:induction false} OpenRunHasLastTime(toks: seq<Token>)
    ensures TakeAll(START, toks).pending ==> toks != [] && TakeAll(START, toks).pendingTs == toks[|toks| - 1].ts
  {}

  /** The records made after the closed ones are no earlier than the last line of the shorter log. */
  lemma LaterRecordsAreLater(a: seq<Line>, b: seq<Line>)
    requires Timed(Tokens(a + b)) && Tokens(a) != []
    ensures var low := Tokens(a)[|Tokens(a)| - 1].ts;
            low.Some?
            && forall k :: |Closed(a)| <= k < |Records(a + b)| ==> AtLeast(Records(a + b)[k].timestamp, low.value)
  {
    hide Digits, UserRecord, CallRecord, TakeAll, Tokens;
    TokensSplit(a, b);
    var x, y := Tokens(a), Tokens(b);
    assert x[|x| - 1] == (x + y)[|x| - 1];
    var low := x[|x| - 1].ts.value;
    forall i | 0 <= i < |y| ensures AtLeast(y[i].ts, low) {
      assert y[i] == (x + y)[|x| + i];
    }
    TakeSplit(START, x, y);
    OpenRunHasLastTime(x);
    TakeNotBefore(TakeAll(START, x), y, low);
  }

  predicate AtMost(ts: Option<int>, high: Option<int>) {
    ts.Some? && high.Some? && ts.value <= high.value
  }

  /** ... and the closed ones no later. */
  lemma ClosedRecordsAreEarlier(a: seq<Line>)
    requires Timed(Tokens(a))
    ensures Closed(a) != [] ==> Tokens(a) != []
    ensures forall k :: 0 <= k < |Closed(a)| ==> AtMost(Closed(a)[k].timestamp, Tokens(a)[|Tokens(a)| - 1].ts)
  {
    hide Digits, Rendered, TakeAll, Tokens, Records, Closed;
    var toks := Tokens(a);
    var h := Makers(toks, |toks|);
    ParserStructure(a);
    GrowthKeepsRecords(a, []);
    assert a + [] == a;
    forall k | 0 <= k < |Closed(a)|
      ensures toks != [] && AtMost(Closed(a)[k].timestamp, toks[|toks| - 1].ts)
    {
      assert Closed(a)[k] == Records(a)[k] == Rendered(toks[h[k]], k);
      assert 0 <= h[k] <= |toks| - 1;
    }
  }

  lemma {:induction false} LaterNeverFirst(x: seq<Record>, y: seq<Record>, refMs: int, low: int)
    requires FirstAt(x, refMs).Some? && FirstAt(x, refMs).value <= low
    requires forall k :: 0 <= k < |y| ==> AtLeast(y[k].timestamp, low)
    ensures FirstAt(x + y, refMs) == FirstAt(x, refMs)
    decreases |y|
  {
    if y == [] {
      assert x + y == x;
    } else {
      assert (x + y)[..|x + y| - 1] == x + y[..|y| - 1];
      LaterNeverFirst(x, y[..|y| - 1], refMs, low);
    }
  }

  lemma TimedPart(a: seq<Line>, b: seq<Line>)
    requires Timed(Tokens(a + b))
    ensures Timed(Tokens(a))
  {
    hide Tokens;
    TokensSplit(a, b);
    assert forall i :: 0 <= i < |Tokens(a)| ==> Tokens(a)[i] == Tokens(a + b)[i];
  }

  /** Once a closed record qualifies, the reported time is fixed. */
  lemma FirstTimeIsFixed(a: seq<Line>, b: seq<Line>, refMs: int)
    requires Timed(Tokens(a + b)) && FirstAt(Closed(a), refMs).Some?
    ensures FirstAt(Records(a + b), refMs) == FirstAt(Closed(a), refMs)
  {
    hide Records, Closed, Tokens, AtLeast;
    GrowthKeepsRecords(a, b);
    var x, rest := Closed(a), Records(a + b)[|Closed(a)|..];
    TimedPart(a, b);
    ClosedRecordsAreEarlier(a);
    FirstAtIsMinimum(x, refMs);
    var low := Tokens(a)[|Tokens(a)| - 1].ts.value;
    LaterRecordsAreLater(a, b);
    assert x + rest == Records(a + b);
    LaterNeverFirst(x, rest, refMs, low);
  }

  /** Working is stable: with timed messages, growing the log never turns working into not working. */
  lemma WorkingIsStable(a: seq<Line>, b: seq<Line>, refMs: int)
    requires Timed(Tokens(a + b)) && FirstAt(Records(a), refMs).Some?
    ensures FirstAt(Records(a + b), refMs).Some?
    ensures FirstAt(Closed(a), refMs).Some? ==> FirstAt(Records(a + b), refMs) == FirstAt(Records(a), refMs)
  {
    hide Records, Closed, Tokens, Timed, FirstAt;
    TimedPart(a, b);
    if FirstAt(Closed(a), refMs).Some? {
      FirstTimeIsFixed(a, b, refMs);
      assert a + [] == a;
      FirstTimeIsFixed(a, [], refMs);
    } else {
      OpenRunStaysWorking(a, b, refMs);
    }
  }

  /** The only qualifying record is the open run: its record in the grown log is no earlier. */
  lemma OpenRunStaysWorking(a: seq<Line>, b: seq<Line>, refMs: int)
    requires Timed(Tokens(a + b)) && FirstAt(Records(a), refMs).Some? && FirstAt(Closed(a), refMs).None?
    ensures FirstAt(Records(a + b), refMs).Some?
  {
    hide Records, Closed, Tokens, Timed;
    GrowthKeepsRecords(a, b);
    GrowthKeepsRecords(a, []);
    assert a + [] == a;
    var n := |Closed(a)|;
    FirstAtIsMinimum(Closed(a), refMs);
    FirstAtIsMinimum(Records(a), refMs);
    var k :| 0 <= k < |Records(a)| && Qualifies(Records(a)[k], refMs);
    assert forall j :: 0 <= j < n ==> Closed(a)[j] == Records(a)[j];
    assert k == n;
    OpenRecordTime(a);
    LaterRecordsAreLater(a, b);
    FirstAtIsMinimum(Records(a + b), refMs);
    assert Qualifies(Records(a + b)[n], refMs);
  }

  lemma OpenRecordTime(a: seq<Line>)
    requires |Records(a)| > |Closed(a)|
    ensures Tokens(a) != [] && Records(a)[|Closed(a)|].kind == "assistant"
    ensures Records(a)[|Closed(a)|].timestamp == Tokens(a)[|Tokens(a)| - 1].ts
  {
    hide Digits;
    OpenRunHasLastTime(Tokens(a));
  }

  lemma ProseTokens(ts: Option<int>)
    ensures Tokens([Assistant([Prose], ts)]) == [Text(ts)]
  {
    var line := Assistant([Prose], ts);
    assert [line][..0] == [] && [Prose][..0] == [];
    assert LineTokens(line) == [Text(ts)];
  }

  lemma TwoTexts(s: Option<int>, t: Option<int>)
    ensures TakeAll(START, [Text(s)]) == Acc([], true, s)
    ensures TakeAll(START, [Text(s)] + [Text(t)]) == Acc([], true, t)
  {
    TakeOne(START, [], Text(s));
    assert [] + [Text(s)] == [Text(s)];
    TakeOne(START, [Text(s)], Text(t));
  }

  /** Text after any log extends its open run, or starts one: one record follows the closed ones. */
  lemma TextAfter(a: seq<Line>, ts: Option<int>)
    ensures Records(a + [Assistant([Prose], ts)]) == Closed(a) + [AssistantRecord(|Closed(a)|, ts)]
    ensures Tokens(a + [Assistant([Prose], ts)]) == Tokens(a) + [Text(ts)]
  {
    hide Tokens, TakeAll, AssistantRecord;
    ProseTokens(ts);
    TokensSplit(a, [Assistant([Prose], ts)]);
    TakeOne(START, Tokens(a), Text(ts));
  }

  lemma FirstAtMore(x: seq<Record>, e: Record, refMs: int)
    ensures FirstAt(x, refMs).None? ==>
              FirstAt(x + [e], refMs) == if Qualifies(e, refMs) then e.timestamp else None
  {
    assert (x + [e])[..|x|] == x;
  }

  /** Without numeric times it is not: text that continues the open run with no timestamp takes its time away. */
  lemma UntimedTextStopsTheClock()
    ensures var a := [Assistant([Prose], Some(10))]; var b := [Assistant([Prose], None)];
            FirstAt(Records(a), 5) == Some(10) && FirstAt(Records(a + b), 5) == None
  {
    hide Tokens, TakeAll, Records, Digits, FirstAt;
    var a, b := [Assistant([Prose], Some(10))], [Assistant([Prose], None)];
    ProseTokens(Some(10));
    TwoTexts(Some(10), None);
    NothingYet();
    TextAfter([], Some(10));
    TextAfter(a, None);
    assert [] + a == a && Closed(a) == [];
    FirstAtMore([], AssistantRecord(0, Some(10)), 5);
    FirstAtMore([], AssistantRecord(0, None), 5);
  }

  lemma NothingYet()
    ensures Closed([]) == [] && forall refMs :: FirstAt([], refMs).None?
  {
  }

  /** Exactly when a log shows work whatever is appended to it, with times or without: a closed record qualifies.
      Otherwise text with no time, continuing the open run, leaves no work to be seen. */
  lemma WorkingForGoodExactly(a: seq<Line>, refMs: int)
    ensures (forall b :: FirstAt(Records(a + b), refMs).Some?) <==> FirstAt(Closed(a), refMs).Some?
  {
    hide Records, Closed, FirstAt;
    if FirstAt(Closed(a), refMs).Some? {
      forall b ensures FirstAt(Records(a + b), refMs).Some? {
        WorkingAfterGrowth(a, b, refMs);
      }
    } else {
      var b := [Assistant([Prose], None)];
      TextAfter(a, None);
      FirstAtMore(Closed(a), AssistantRecord(|Closed(a)|, None), refMs);
      assert FirstAt(Records(a + b), refMs).None?;
    }
  }

  lemma TimedMore(toks: seq<Token>, ts: int)
    requires Timed(toks) && (toks != [] ==> toks[|toks| - 1].ts.value <= ts)
    ensures Timed(toks + [Text(Some(ts))])
  {
    var t := toks + [Text(Some(ts))];
    assert forall i :: 0 <= i < |toks| ==> t[i] == toks[i] && t[i].ts.value <= toks[|toks| - 1].ts.value;
  }

  /** The time reported for a log not all closed is none, or that of its last line. */
  lemma OpenFirstTime(a: seq<Line>, refMs: int)
    requires FirstAt(Closed(a), refMs).None? && FirstAt(Records(a), refMs).Some?
    ensures Tokens(a) != [] && FirstAt(Records(a), refMs) == Tokens(a)[|Tokens(a)| - 1].ts
  {
    hide Records, Closed, Tokens, Digits;
    GrowthKeepsRecords(a, []);
    assert a + [] == a;
    assert Closed(a) <= Records(a) && Closed(a) != Records(a);
    OpenRecordTime(a);
    assert Records(a) == Closed(a) + [Records(a)[|Closed(a)|]];
    FirstAtMore(Closed(a), Records(a)[|Closed(a)|], refMs);
  }

  function LastTime(a: seq<Line>): int
    requires Tokens(a) != [] && Timed(Tokens(a))
  {
    Tokens(a)[|Tokens(a)| - 1].ts.value
  }

  /** Among timed logs, the reported time stays the same whatever is appended exactly when a closed record
      qualifies. */
  lemma FirstTimeFixedExactly(a: seq<Line>, refMs: int)
    requires Timed(Tokens(a))
    ensures (forall b | Timed(Tokens(a + b)) :: FirstAt(Records(a + b), refMs) == FirstAt(Records(a), refMs))
            <==> FirstAt(Closed(a), refMs).Some?
  {
    hide Records, Closed, Tokens, Timed, FirstAt;
    assert a + [] == a;
    if FirstAt(Closed(a), refMs).Some? {
      FirstTimeIsFixed(a, [], refMs);
      forall b | Timed(Tokens(a + b)) ensures FirstAt(Records(a + b), refMs) == FirstAt(Records(a), refMs) {
        FirstTimeIsFixed(a, b, refMs);
      }
    } else {
      var last := if Tokens(a) == [] then refMs else LastTime(a);
      var ts := 1 + if last > refMs then last else refMs;
      TextAfter(a, Some(ts));
      TimedMore(Tokens(a), ts);
      FirstAtMore(Closed(a), AssistantRecord(|Closed(a)|, Some(ts)), refMs);
      if FirstAt(Records(a), refMs).Some? {
        OpenFirstTime(a, refMs);
      }
      var b := [Assistant([Prose], Some(ts))];
      assert Timed(Tokens(a + b)) && FirstAt(Records(a + b), refMs) != FirstAt(Records(a), refMs);
    }
  }
}
