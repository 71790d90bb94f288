/**
 The raw session log parser. A line is what decoding it yields; a token is what
 one item of it contributes: a record of its own, or a share of assistant text.
 */
module SessionLog {
  import opened Common

  datatype Item =
    | ToolCall(name: Option<string>, id: Option<string>)
    | Prose   // a text or thinking item
    | Other

  datatype Line =
    | Unparsable
    | NullLine     // the four characters null: decodes, and has no `type` to read
    | NotMessage
    | User(ts: Option<int>)
    | ToolResult(name: Option<string>, id: Option<string>, ts: Option<int>)
    | Assistant(items: seq<Item>, ts: Option<int>)
    | OtherRole

  datatype Record = Record(
    index: nat,
    kind: string,
    toolName: Option<string>,
    callId: Option<string>,
    tag: string,        // the `label` field of the source
    timestamp: Option<int>)

  function Digits(n: nat): string {
    (if n < 10 then "" else Digits(n / 10)) + [(n % 10 + '0' as int) as char]
  }

  function OrElse(o: Option<string>, default: string): string {
    if o.Some? then o.value else default
  }

  function CallLabel(kind: string, name: Option<string>, id: Option<string>): string {
    kind + ":" + OrElse(name, "unknown") + ":" + OrElse(id, "noid")
  }

  // ---------------------------------------------------------------------
  // Reference: tokens, and which of them make a record

  datatype Token =
    | UserTurn(ts: Option<int>)
    | Call(kind: string, name: Option<string>, id: Option<string>, ts: Option<int>)
    | Text(ts: Option<int>)

  function ItemToken(item: Item, ts: Option<int>): seq<Token> {
    match item
    case ToolCall(name, id) => [Call("toolCall", name, id, ts)]
    case Prose => [Text(ts)]
    case Other => []
  }

  function ItemTokens(items: seq<Item>, ts: Option<int>): seq<Token>
    decreases |items|
  {
    if items == [] then []
    else ItemTokens(items[..|items| - 1], ts) + ItemToken(items[|items| - 1], ts)
  }

  function LineTokens(line: Line): seq<Token> {
    match line
    case User(ts) => [UserTurn(ts)]
    case ToolResult(name, id, ts) => [Call("toolResult", name, id, ts)]
    case Assistant(items, ts) => ItemTokens(items, ts)
    case _ => []
  }

  function Tokens(lines: seq<Line>): seq<Token>
    decreases |lines|
  {
    if lines == [] then []
    else Tokens(lines[..|lines| - 1]) + LineTokens(lines[|lines| - 1])
  }

  /** A token makes a record if it is not text, or the last of its run of text. */
  predicate Makes(toks: seq<Token>, i: nat)
    requires i < |toks|
  {
    !toks[i].Text? || i + 1 == |toks| || !toks[i + 1].Text?
  }

  predicate Below(h: seq<nat>, n: nat) {
    forall k :: 0 <= k < |h| ==> h[k] < n
  }

  /** The positions below `n` that make a record, in order. */
  function Makers(toks: seq<Token>, n: nat): (h: seq<nat>)
    requires n <= |toks|
    ensures Below(h, n)
  {
    if n == 0 then [] else Makers(toks, n - 1) + (if Makes(toks, n - 1) then [n - 1] else [])
  }

  function AssistantRecord(k: nat, ts: Option<int>): (r: Record)
    ensures r.kind == "assistant" && r.timestamp == ts && r.index == k
  {
    Record(k, "assistant", None, None, "assistant#" + Digits(k), ts)
  }

  function UserRecord(k: nat, ts: Option<int>): (r: Record)
    ensures r.kind == "user" && r.timestamp == ts && r.index == k
  {
    Record(k, "user", None, None, "user#" + Digits(k), ts)
  }

  function CallRecord(k: nat, kind: string, name: Option<string>, id: Option<string>, ts: Option<int>): (r: Record)
    ensures r.kind == kind && r.timestamp == ts && r.index == k
  {
    Record(k, kind, name, id, CallLabel(kind, name, id), ts)
  }

  /** Record number `k`, made by `tok`. */
  function Rendered(tok: Token, k: nat): (r: Record)
    ensures r.index == k && r.timestamp == tok.ts
  {
    match tok
    case Text(ts) => AssistantRecord(k, ts)
    case UserTurn(ts) => UserRecord(k, ts)
    case Call(kind, name, id, ts) => CallRecord(k, kind, name, id, ts)
  }

  function RenderedAll(toks: seq<Token>, h: seq<nat>): (r: seq<Record>)
    requires Below(h, |toks|)
    ensures |r| == |h|
    ensures forall k :: 0 <= k < |h| ==> r[k] == Rendered(toks[h[k]], k)
  {
    if h == [] then [] else RenderedAll(toks, h[..|h| - 1]) + [Rendered(toks[h[|h| - 1]], |h| - 1)]
  }

  // ---------------------------------------------------------------------
  // The accumulator the parser carries from item to item

  datatype Acc = Acc(out: seq<Record>, pending: bool, pendingTs: Option<int>)

  const START := Acc([], false, None)

  function Flush(a: Acc): Acc {
    if a.pending
    then Acc(a.out + [AssistantRecord(|a.out|, a.pendingTs)], false, None)
    else a
  }

  function Take(a: Acc, tok: Token): Acc {
    match tok
    case Text(ts) => Acc(a.out, true, ts)
    case _ => Acc(Flush(a).out + [Rendered(tok, |Flush(a).out|)], false, Flush(a).pendingTs)
  }

  function TakeAll(a: Acc, toks: seq<Token>): Acc
    decreases |toks|
  {
    if toks == [] then a
    else Take(TakeAll(a, toks[..|toks| - 1]), toks[|toks| - 1])
  }

  /** The records of a log. */
  function Records(lines: seq<Line>): seq<Record> {
    Flush(TakeAll(START, Tokens(lines))).out
  }

  lemma TakeOne(a: Acc, toks: seq<Token>, tok: Token)
    ensures TakeAll(a, toks + [tok]) == Take(TakeAll(a, toks), tok)
  {
    assert (toks + [tok])[..|toks|] == toks;
  }

  lemma {:induction false} TakeSplit(a: Acc, x: seq<Token>, y: seq<Token>)
    ensures TakeAll(a, x + y) == TakeAll(TakeAll(a, x), y)
    decreases |y|
  {
    if y == [] {
      assert x + y == x;
    } else {
      assert (x + y)[..|x + y| - 1] == x + y[..|y| - 1];
      TakeSplit(a, x, y[..|y| - 1]);
    }
  }

  lemma {:induction false} TokensSplit(a: seq<Line>, b: seq<Line>)
    ensures Tokens(a + b) == Tokens(a) + Tokens(b)
    decreases |b|
  {
    hide LineTokens;
    if b == [] {
      assert a + b == a;
    } else {
      assert (a + b)[..|a + b| - 1] == a + b[..|b| - 1];
      TokensSplit(a, b[..|b| - 1]);
    }
  }

  lemma TokensStep(lines: seq<Line>, n: nat)
    requires n < |lines|
    ensures Tokens(lines[..n + 1]) == Tokens(lines[..n]) + LineTokens(lines[n])
  {
    hide LineTokens;
    assert lines[..n + 1][..n] == lines[..n];
  }

  lemma ItemTokensStep(items: seq<Item>, n: nat, ts: Option<int>)
    requires n < |items|
    ensures ItemTokens(items[..n + 1], ts) == ItemTokens(items[..n], ts) + ItemToken(items[n], ts)
  {
    assert items[..n + 1][..n] == items[..n];
  }

  // ---------------------------------------------------------------------
  // The parser

  datatype ParseError = TypeErrorOnNull

  lemma TakeNothing(a: Acc, items: seq<Item>, lines: seq<Line>, ts: Option<int>)
    ensures TakeAll(a, ItemTokens(items[..0], ts)) == a && TakeAll(a, Tokens(lines[..0])) == a
  {}

  lemma TakeItem(a: Acc, items: seq<Item>, n: nat, ts: Option<int>)
    requires n < |items|
    ensures var before := TakeAll(a, ItemTokens(items[..n], ts));
            TakeAll(a, ItemTokens(items[..n + 1], ts))
            == match items[n]
               case ToolCall(name, id) => Take(before, Call("toolCall", name, id, ts))
               case Prose => Take(before, Text(ts))
               case Other => before
  {
    hide Take, TakeAll, ItemTokens;
    ItemTokensStep(items, n, ts);
    var toks := ItemTokens(items[..n], ts);
    match items[n]
    case ToolCall(name, id) => TakeOne(a, toks, Call("toolCall", name, id, ts));
    case Prose => TakeOne(a, toks, Text(ts));
    case Other => assert toks + [] == toks;
  }

  lemma TakeLine(a: Acc, lines: seq<Line>, n: nat)
    requires n < |lines|
    ensures var before := TakeAll(a, Tokens(lines[..n]));
            TakeAll(a, Tokens(lines[..n + 1]))
            == match lines[n]
               case User(ts) => Take(before, UserTurn(ts))
               case ToolResult(name, id, ts) => Take(before, Call("toolResult", name, id, ts))
               case Assistant(items, ts) => TakeAll(before, ItemTokens(items, ts))
               case _ => before
  {
    hide Take, TakeAll, Tokens, ItemTokens;
    TokensStep(lines, n);
    var toks := Tokens(lines[..n]);
    match lines[n]
    case User(ts) => TakeOne(a, toks, UserTurn(ts));
    case ToolResult(name, id, ts) => TakeOne(a, toks, Call("toolResult", name, id, ts));
    case Assistant(items, ts) => TakeSplit(a, toks, ItemTokens(items, ts));
    case _ => assert toks + [] == toks;
  }

  /** The loop over the content items of one assistant message. */
  method ParseItems(items: seq<Item>, ts: Option<int>, out0: seq<Record>, pending0: bool, pendingTs0: Option<int>)
    returns (out: seq<Record>, pending: bool, pendingTs: Option<int>)
    ensures Acc(out, pending, pendingTs) == TakeAll(Acc(out0, pending0, pendingTs0), ItemTokens(items, ts))
  {
    hide TakeAll, ItemTokens;
    out, pending, pendingTs := out0, pending0, pendingTs0;
    ghost var before := Acc(out0, pending0, pendingTs0);
    TakeNothing(before, items, [], ts);
    for k := 0 to |items|
      invariant Acc(out, pending, pendingTs) == TakeAll(before, ItemTokens(items[..k], ts))
    {
      TakeItem(before, items, k, ts);
      match items[k] {
        case ToolCall(name, id) =>
          if pending {
            out := out + [AssistantRecord(|out|, pendingTs)];
            pending, pendingTs := false, None;
          }
          out := out + [CallRecord(|out|, "toolCall", name, id, ts)];
        case Prose =>
          pending, pendingTs := true, ts;
        case Other =>
      }
    }
    assert items[..|items|] == items;
  }

  method ParseRawSessionJsonl(lines: seq<Line>) returns (r: Result<seq<Record>, ParseError>)
    ensures r == if NullLine in lines then Err(TypeErrorOnNull) else Ok(Records(lines))
  {
    hide TakeAll, ItemTokens, Tokens;
    var out: seq<Record> := [];
    var pending, pendingTs := false, None;
    TakeNothing(START, [], lines, None);
    for n := 0 to |lines|
      invariant NullLine !in lines[..n]
      invariant Acc(out, pending, pendingTs) == TakeAll(START, Tokens(lines[..n]))
    {
      TakeLine(START, lines, n);
      match lines[n] {
        case Unparsable => continue;
        case NullLine => return Err(TypeErrorOnNull);
        case NotMessage => continue;
        case OtherRole => continue;
        case ToolResult(name, id, ts) =>
          if pending {
            out := out + [AssistantRecord(|out|, pendingTs)];
            pending, pendingTs := false, None;
          }
          out := out + [CallRecord(|out|, "toolResult", name, id, ts)];
        case User(ts) =>
          if pending {
            out := out + [AssistantRecord(|out|, pendingTs)];
            pending, pendingTs := false, None;
          }
          out := out + [UserRecord(|out|, ts)];
        case Assistant(items, ts) =>
          out, pending, pendingTs := ParseItems(items, ts, out, pending, pendingTs);
      }
    }
    assert lines[..|lines|] == lines;
    if pending {
      out := out + [AssistantRecord(|out|, pendingTs)];
    }
    return Ok(out);
  }

  // ---------------------------------------------------------------------
  // Which records come out

  lemma {:induction false} MakersExact(toks: seq<Token>, n: nat, i: nat)
    requires n <= |toks| && i < |toks|
    ensures i in Makers(toks, n) <==> i < n && Makes(toks, i)
  {
    if n > 0 {
      MakersExact(toks, n - 1, i);
    }
  }

  lemma {:induction false} MakersAscend(toks: seq<Token>, n: nat)
    requires n <= |toks|
    ensures forall j, k :: 0 <= j < k < |Makers(toks, n)| ==> Makers(toks, n)[j] < Makers(toks, n)[k]
  {
    if n > 0 {
      MakersAscend(toks, n - 1);
    }
  }

  lemma {:induction false} MakersKeep(toks: seq<Token>, tok: Token, n: nat)
    requires n < |toks|
    ensures Makers(toks + [tok], n) == Makers(toks, n)
  {
    if n > 0 {
      MakersKeep(toks, tok, n - 1);
      assert (toks + [tok])[n - 1] == toks[n - 1] && (toks + [tok])[n] == toks[n];
    }
  }

  lemma {:induction false} RenderedKeep(toks: seq<Token>, tok: Token, h: seq<nat>)
    requires Below(h, |toks|)
    ensures Below(h, |toks + [tok]|) && RenderedAll(toks + [tok], h) == RenderedAll(toks, h)
  {
    if h != [] {
      RenderedKeep(toks, tok, h[..|h| - 1]);
    }
  }

  lemma RenderedMore(toks: seq<Token>, h: seq<nat>, i: nat)
    requires Below(h, |toks|) && i < |toks|
    ensures Below(h + [i], |toks|)
    ensures RenderedAll(toks, h + [i]) == RenderedAll(toks, h) + [Rendered(toks[i], |h|)]
  {
    assert (h + [i])[..|h|] == h;
  }

  /** What the accumulator holds: the records of the makers, less the run of text still open. */
  ghost predicate Holds(toks: seq<Token>, a: Acc) {
    if toks == [] then a == START
    else
      var n := |toks| - 1;
      if toks[n].Text? then a == Acc(RenderedAll(toks, Makers(toks, n)), true, toks[n].ts)
      else a == Acc(RenderedAll(toks, Makers(toks, n + 1)), false, None)
  }

  lemma FlushCloses(toks: seq<Token>, a: Acc)
    requires Holds(toks, a)
    ensures Flush(a) == Acc(RenderedAll(toks, Makers(toks, |toks|)), false, None)
  {
    if toks != [] {
      var n := |toks| - 1;
      RenderedMore(toks, Makers(toks, n), n);
    }
  }

  /** Closing a run of text early renders what the makers of the longer log render there. */
  lemma FlushForSolid(toks: seq<Token>, a: Acc, tok: Token)
    requires Holds(toks, a) && !tok.Text?
    ensures Makers(toks + [tok], |toks|) == Makers(toks, |toks|)
    ensures Flush(a) == Acc(RenderedAll(toks, Makers(toks, |toks|)), false, None)
  {
    hide Flush, Rendered, RenderedAll;
    FlushCloses(toks, a);
    if toks != [] {
      var n := |toks| - 1;
      MakersKeep(toks, tok, n);
      assert (toks + [tok])[n] == toks[n] && (toks + [tok])[n + 1] == tok;
    }
  }

  lemma HoldsSolid(toks: seq<Token>, a: Acc, tok: Token)
    requires Holds(toks, a) && !tok.Text?
    ensures Holds(toks + [tok], Take(a, tok))
  {
    hide Flush, Rendered, RenderedAll;
    var all, n := toks + [tok], |toks|;
    FlushForSolid(toks, a, tok);
    assert Makers(all, n + 1) == Makers(all, n) + [n];
    RenderedKeep(toks, tok, Makers(toks, n));
    RenderedMore(all, Makers(all, n), n);
  }

  lemma HoldsText(toks: seq<Token>, a: Acc, tok: Token)
    requires Holds(toks, a) && tok.Text? && toks != []
    ensures Holds(toks + [tok], Take(a, tok))
  {
    hide AssistantRecord, UserRecord, CallRecord, Rendered, RenderedAll;
    var all, n := toks + [tok], |toks|;
    MakersKeep(toks, tok, n - 1);
    assert all[n - 1] == toks[n - 1] && all[n] == tok;
    RenderedKeep(toks, tok, Makers(toks, n - 1));
    if !toks[n - 1].Text? {
      assert Makers(all, n) == Makers(toks, n);
      RenderedKeep(toks, tok, Makers(toks, n));
    } else {
      assert Makers(all, n) == Makers(toks, n - 1);
    }
  }

  lemma HoldsStep(toks: seq<Token>, a: Acc, tok: Token)
    requires Holds(toks, a)
    ensures Holds(toks + [tok], Take(a, tok))
  {
    if !tok.Text? {
      HoldsSolid(toks, a, tok);
    } else if toks != [] {
      HoldsText(toks, a, tok);
    }
  }

  lemma HoldsStart()
    ensures Holds([], TakeAll(START, []))
  {}

  lemma {:induction false} HoldsAll(toks: seq<Token>)
    ensures Holds(toks, TakeAll(START, toks))
    decreases |toks|
  {
    hide Take, Holds, TakeAll;
    if toks == [] {
      HoldsStart();
    } else {
      var n := |toks| - 1;
      HoldsAll(toks[..n]);
      TakeOne(START, toks[..n], toks[n]);
      HoldsStep(toks[..n], TakeAll(START, toks[..n]), toks[n]);
      assert toks[..n] + [toks[n]] == toks;
    }
  }

  /** Record k has index k and is rendered from the k-th maker: one record per user message, tool result and
      tool call, in file order, and one per maximal run of text, with the run's last timestamp. */
  lemma ParserStructure(lines: seq<Line>)
    ensures var toks := Tokens(lines); var h := Makers(toks, |toks|);
            && (forall i :: 0 <= i < |toks| ==> (i in h <==> Makes(toks, i)))
            && (forall j, k :: 0 <= j < k < |h| ==> h[j] < h[k])
            && |Records(lines)| == |h|
            && (forall k :: 0 <= k < |h| ==> Records(lines)[k] == Rendered(toks[h[k]], k))
  {
    hide TakeAll, Flush, Rendered, Tokens, Holds;
    var toks := Tokens(lines);
    HoldsAll(toks);
    FlushCloses(toks, TakeAll(START, toks));
    MakersAscend(toks, |toks|);
    forall i | 0 <= i < |toks| ensures i in Makers(toks, |toks|) <==> Makes(toks, i) {
      MakersExact(toks, |toks|, i);
    }
  }
}
