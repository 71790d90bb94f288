/**
 What the records of a log say of the calls that made them: kind, tool, call id and
 label, read off the tokens alone, and what the diff therefore tells apart.
 */
module SessionLabels {
  import opened Common
  import opened SessionLog
  import opened TranscriptDiff

  // ---------------------------------------------------------------------
  // Decimal numerals

  predicate IsDigit(c: char) {
    '0' <= c <= '9'
  }

  function ValueOf(s: string): nat
    requires forall c <- s :: IsDigit(c)
  {
    if s == "" then 0
    else
      assert s[|s| - 1] in s && IsDigit(s[|s| - 1]);
      10 * ValueOf(s[..|s| - 1]) + (s[|s| - 1] as int - '0' as int)
  }

  lemma LastDigit(s: string)
    requires s != "" && forall c <- s :: IsDigit(c)
    ensures IsDigit(s[|s| - 1]) && (forall c <- s[..|s| - 1] :: IsDigit(c)) && s == s[..|s| - 1] + [s[|s| - 1]]
  {
    assert s[|s| - 1] in s;
  }

  /** `s` writes `k` in decimal, with no leading zero. */
  predicate IsNumeral(s: string, k: nat) {
    s != "" && (forall c <- s :: IsDigit(c)) && ValueOf(s) == k && (s[0] == '0' ==> s == "0")
  }

  lemma {:induction false} DigitsAreDecimal(k: nat)
    ensures IsNumeral(Digits(k), k)
    decreases k
  {
    var last := (k % 10 + '0' as int) as char;
    if k < 10 {
      assert Digits(k) == [last] && [last][..0] == "";
    } else {
      DigitsAreDecimal(k / 10);
      assert Digits(k)[..|Digits(k)| - 1] == Digits(k / 10);
      NumeralIsPositive(Digits(k / 10), k / 10);
    }
  }

  lemma NumeralIsPositive(s: string, k: nat)
    requires IsNumeral(s, k) && k > 0
    ensures s[0] != '0'
  {
    assert "0"[..0] == "" && ValueOf("0") == 0;
  }

  /** A number has one numeral. */
  lemma {:induction false} NumeralsDiffer(s: string, k: nat, t: string, l: nat)
    requires IsNumeral(s, k) && IsNumeral(t, l)
    ensures s == t <==> k == l
    decreases |s|
  {
    if k == l && s != t {
      var s0, t0 := s[..|s| - 1], t[..|t| - 1];
      LastDigit(s);
      LastDigit(t);
      assert ValueOf(s0) == ValueOf(t0) && s[|s| - 1] == t[|t| - 1];
      EmptyOrNot(s, s0);
      EmptyOrNot(t, t0);
      if s0 != "" && t0 != "" {
        NumeralsDiffer(s0, ValueOf(s0), t0, ValueOf(t0));
      }
    }
  }

  /** All but the last digit of a numeral: nothing, or the numeral of a number above 0. */
  lemma EmptyOrNot(s: string, s0: string)
    requires s != "" && (forall c <- s :: IsDigit(c)) && IsNumeral(s, ValueOf(s)) && s0 == s[..|s| - 1]
    ensures s0 != "" ==> IsNumeral(s0, ValueOf(s0)) && ValueOf(s0) > 0
  {
    LastDigit(s);
    if s0 != "" {
      assert s0[0] == s[0] != '0';
      LeadingDigitCounts(s0);
    }
  }

  lemma {:induction false} LeadingDigitCounts(s: string)
    requires s != "" && (forall c <- s :: IsDigit(c)) && s[0] != '0'
    ensures ValueOf(s) > 0
    decreases |s|
  {
    LastDigit(s);
    if |s| > 1 {
      LeadingDigitCounts(s[..|s| - 1]);
    } else {
      assert s[..0] == "";
    }
  }

  // ---------------------------------------------------------------------
  // Labels, in literal text

  function Shown(o: Option<string>, missing: string): string {
    match o
    case Some(value) => value
    case None => missing
  }

  /** The label is `word` and then the record's number in decimal. */
  ghost predicate Numbered(tag: string, word: string, k: nat) {
    exists n :: tag == word + "#" + n && IsNumeral(n, k)
  }

  /** What record number `k`, made by `tok`, holds. */
  ghost predicate Describes(r: Record, tok: Token, k: nat) {
    && r.index == k && r.timestamp == tok.ts
    && match tok
       case Text(_) =>
         && r.kind == "assistant" && r.toolName == None && r.callId == None
         && Numbered(r.tag, "assistant", k)
       case UserTurn(_) =>
         && r.kind == "user" && r.toolName == None && r.callId == None
         && Numbered(r.tag, "user", k)
       case Call(kind, name, id, _) =>
         && r.kind == kind && r.toolName == name && r.callId == id
         && r.tag == kind + ":" + Shown(name, "unknown") + ":" + Shown(id, "noid")
  }

  lemma RenderedDescribes(tok: Token, k: nat)
    ensures Describes(Rendered(tok, k), tok, k)
  {
    hide Digits;
    DigitsAreDecimal(k);
    match tok
    case Text(_) => assert Rendered(tok, k).tag == "assistant" + "#" + Digits(k);
    case UserTurn(_) => assert Rendered(tok, k).tag == "user" + "#" + Digits(k);
    case Call(_, _, _, _) =>
  }

  lemma TokensMore(lines: seq<Line>, line: Line)
    ensures Tokens(lines + [line]) == Tokens(lines) + LineTokens(line)
  {
    assert (lines + [line])[..|lines|] == lines;
  }

  lemma ItemTokensMore(items: seq<Item>, item: Item, ts: Option<int>)
    ensures ItemTokens(items + [item], ts) == ItemTokens(items, ts) + ItemToken(item, ts)
  {
    assert (items + [item])[..|items|] == items;
  }

  /** What a line adds to the tokens: a user message its turn, a tool result its call, and the lines skipped nothing. */
  lemma TokensPerLine(lines: seq<Line>, name: Option<string>, id: Option<string>, ts: Option<int>)
    ensures Tokens([]) == []
    ensures Tokens(lines + [User(ts)]) == Tokens(lines) + [UserTurn(ts)]
    ensures Tokens(lines + [ToolResult(name, id, ts)]) == Tokens(lines) + [Call("toolResult", name, id, ts)]
    ensures forall line :: line in {Unparsable, NullLine, NotMessage, OtherRole} ==>
              Tokens(lines + [line]) == Tokens(lines)
  {
    hide Tokens;
    NoTokens();
    TokensMore(lines, User(ts));
    TokensMore(lines, ToolResult(name, id, ts));
    forall line | line in {Unparsable, NullLine, NotMessage, OtherRole}
      ensures Tokens(lines + [line]) == Tokens(lines)
    {
      TokensMore(lines, line);
    }
  }

  lemma NoTokens()
    ensures Tokens([]) == []
  {
  }

  /** ... and an assistant message one for each call, text or thinking item, with the time of the message. */
  lemma TokensPerItem(lines: seq<Line>, items: seq<Item>, name: Option<string>, id: Option<string>, ts: Option<int>)
    ensures Tokens(lines + [Assistant([], ts)]) == Tokens(lines)
    ensures var toks := Tokens(lines + [Assistant(items, ts)]);
            && Tokens(lines + [Assistant(items + [ToolCall(name, id)], ts)]) == toks + [Call("toolCall", name, id, ts)]
            && Tokens(lines + [Assistant(items + [Prose], ts)]) == toks + [Text(ts)]
            && Tokens(lines + [Assistant(items + [Other], ts)]) == toks
  {
    hide Tokens;
    TokensMore(lines, Assistant([], ts));
    OneItemMore(lines, items, ToolCall(name, id), ts);
    OneItemMore(lines, items, Prose, ts);
    OneItemMore(lines, items, Other, ts);
  }

  lemma OneItemMore(lines: seq<Line>, items: seq<Item>, item: Item, ts: Option<int>)
    ensures Tokens(lines + [Assistant(items + [item], ts)])
         == Tokens(lines + [Assistant(items, ts)]) + ItemToken(item, ts)
  {
    hide Tokens, ItemTokens;
    TokensMore(lines, Assistant(items, ts));
    TokensMore(lines, Assistant(items + [item], ts));
    ItemTokensMore(items, item, ts);
  }

  /** Every record of a log, in literal text: its number, kind, tool, call id, label and time are those of the token
      that made it. */
  lemma RecordsAreLabelled(lines: seq<Line>, k: nat)
    requires k < |Records(lines)|
    ensures var toks := Tokens(lines); var h := Makers(toks, |toks|);
            k < |h| && h[k] < |toks| && Describes(Records(lines)[k], toks[h[k]], k)
  {
    hide Records, Tokens, Makers, Rendered, Describes;
    ParserStructure(lines);
    var toks := Tokens(lines);
    RenderedDescribes(toks[Makers(toks, |toks|)[k]], k);
  }

  lemma {:induction false} ItemCallsAreCalls(items: seq<Item>, ts: Option<int>)
    ensures forall tok <- ItemTokens(items, ts) :: tok.Call? ==> tok.kind == "toolCall"
    decreases |items|
  {
    if items != [] {
      ItemCallsAreCalls(items[..|items| - 1], ts);
    }
  }

  lemma {:induction false} CallsAreCallsOrResults(lines: seq<Line>)
    ensures forall tok <- Tokens(lines) :: tok.Call? ==> tok.kind == "toolCall" || tok.kind == "toolResult"
    decreases |lines|
  {
    if lines != [] {
      CallsAreCallsOrResults(lines[..|lines| - 1]);
      if lines[|lines| - 1].Assistant? {
        ItemCallsAreCalls(lines[|lines| - 1].items, lines[|lines| - 1].ts);
      }
    }
  }

  predicate FromParser(tok: Token) {
    tok.Call? ==> tok.kind == "toolCall" || tok.kind == "toolResult"
  }

  /** The two tokens are labelled alike as records of numbers `k` and `l`. */
  predicate SameLabel(a: Token, k: nat, b: Token, l: nat) {
    match (a, b)
    case (Text(_), Text(_)) => k == l
    case (UserTurn(_), UserTurn(_)) => k == l
    case (Call(kind, name, id, _), Call(kind', name', id', _)) =>
      kind == kind'
      && Shown(name, "unknown") + ":" + Shown(id, "noid") == Shown(name', "unknown") + ":" + Shown(id', "noid")
    case _ => false
  }

  lemma NumberedDiffer(x: string, y: string, word: string, k: nat, l: nat)
    requires Numbered(x, word, k) && Numbered(y, word, l)
    ensures x == y <==> k == l
  {
    hide IsNumeral;
    var n :| x == word + "#" + n && IsNumeral(n, k);
    var m :| y == word + "#" + m && IsNumeral(m, l);
    NumeralsDiffer(n, k, m, l);
    assert x[|word| + 1..] == n && y[|word| + 1..] == m;
  }

  lemma CallLabelsDiffer(kind: string, rest: string, kind': string, rest': string)
    requires kind == "toolCall" || kind == "toolResult"
    requires kind' == "toolCall" || kind' == "toolResult"
    ensures kind + ":" + rest == kind' + ":" + rest' <==> kind == kind' && rest == rest'
  {
    var x, y := kind + ":" + rest, kind' + ":" + rest';
    assert x[..|kind|] == kind && x[|kind|] == ':' && x[|kind| + 1..] == rest;
    assert y[..|kind'|] == kind' && y[|kind'|] == ':' && y[|kind'| + 1..] == rest';
    assert x[4] == kind[4] && y[4] == kind'[4];
  }

  /** Labels of different sorts begin with different letters. */
  lemma FirstLetter(r: Record, tok: Token, k: nat)
    requires Describes(r, tok, k) && FromParser(tok)
    ensures r.tag != ""
    ensures r.tag[0] == match tok case Text(_) => 'a' case UserTurn(_) => 'u' case Call(_, _, _, _) => 't'
  {
    hide IsNumeral;
  }

  /** Two records have one label exactly when they are two texts or two user turns with one number, or two calls of one
      kind whose names and ids read alike. */
  lemma LabelsAgreeExactly(r: Record, a: Token, k: nat, q: Record, b: Token, l: nat)
    requires Describes(r, a, k) && Describes(q, b, l) && FromParser(a) && FromParser(b)
    ensures r.tag == q.tag <==> SameLabel(a, k, b, l)
  {
    hide Numbered, FromParser;
    FirstLetter(r, a, k);
    FirstLetter(q, b, l);
    match (a, b)
    case (Text(_), Text(_)) => NumberedDiffer(r.tag, q.tag, "assistant", k, l);
    case (UserTurn(_), UserTurn(_)) => NumberedDiffer(r.tag, q.tag, "user", k, l);
    case (Call(kind, name, id, _), Call(kind', name', id', _)) =>
      var rest, rest' := Shown(name, "unknown") + ":" + Shown(id, "noid"),
                        Shown(name', "unknown") + ":" + Shown(id', "noid");
      assert r.tag == kind + ":" + rest && q.tag == kind' + ":" + rest';
      ParserKinds(a);
      ParserKinds(b);
      CallLabelsDiffer(kind, rest, kind', rest');
    case _ =>
  }

  lemma ParserKinds(tok: Token)
    requires FromParser(tok) && tok.Call?
    ensures tok.kind == "toolCall" || tok.kind == "toolResult"
  {
  }

  /** Where names hold no colon, reading alike means the same name and the same id. */
  lemma NamesWithoutColons(name: string, id: string, name': string, id': string)
    requires ':' !in name && ':' !in name'
    ensures name + ":" + id == name' + ":" + id' <==> name == name' && id == id'
  {
    NotShorter(name, id, name', id');
    NotShorter(name', id', name, id);
    var x, y := name + ":" + id, name' + ":" + id';
    assert x[..|name|] == name && x[|name| + 1..] == id;
    assert y[..|name'|] == name' && y[|name'| + 1..] == id';
  }

  lemma NotShorter(name: string, id: string, name': string, id': string)
    requires ':' !in name'
    ensures name + ":" + id == name' + ":" + id' ==> |name| >= |name'|
  {
    if |name| < |name'| {
      assert (name + ":" + id)[|name|] == ':' && (name' + ":" + id')[|name|] == name'[|name|];
      assert name'[|name|] in name';
    }
  }

  // ---------------------------------------------------------------------
  // What the diff compares

  /** The diff retains the records up to the first whose tokens are not labelled alike. */
  lemma DiffComparesTokens(a: seq<Line>, b: seq<Line>, k: nat)
    requires k < |Records(a)| && k < |Records(b)|
    ensures var x := Tokens(a); var y := Tokens(b);
            var i := Makers(x, |x|); var j := Makers(y, |y|);
            k < |i| && i[k] < |x| && k < |j| && j[k] < |y|
            && (Records(a)[k].tag == Records(b)[k].tag <==> SameLabel(x[i[k]], k, y[j[k]], k))
  {
    hide Records, Tokens, Makers, Describes, SameLabel;
    RecordsAreLabelled(a, k);
    RecordsAreLabelled(b, k);
    CallsAreCallsOrResults(a);
    CallsAreCallsOrResults(b);
    var x, y := Tokens(a), Tokens(b);
    var i, j := Makers(x, |x|)[k], Makers(y, |y|)[k];
    assert x[i] in x && y[j] in y;
    LabelsAgreeExactly(Records(a)[k], x[i], k, Records(b)[k], y[j], k);
  }

  /** A log of one tool call. */
  function OneCall(name: Option<string>, id: Option<string>, ts: Option<int>): seq<Line> {
    [Assistant([ToolCall(name, id)], ts)]
  }

  lemma OneCallTokens(name: Option<string>, id: Option<string>, ts: Option<int>)
    ensures Tokens(OneCall(name, id, ts)) == [Call("toolCall", name, id, ts)]
    ensures |Records(OneCall(name, id, ts))| == 1
    ensures Describes(Records(OneCall(name, id, ts))[0], Call("toolCall", name, id, ts), 0)
  {
    hide Records, Describes, Digits;
    var items := [ToolCall(name, id)];
    var line := Assistant(items, ts);
    var toks := [Call("toolCall", name, id, ts)];
    assert items[..0] == [] && ItemTokens(items[..0], ts) == [];
    assert ItemTokens(items, ts) == ItemTokens(items[..0], ts) + ItemToken(items[0], ts) == toks;
    assert [line][..0] == [] && Tokens([line][..0]) == [];
    assert Tokens([line]) == Tokens([line][..0]) + LineTokens(line) == toks;
    ParserStructure(OneCall(name, id, ts));
    assert Makers(toks, 1) == [0];
    RecordsAreLabelled(OneCall(name, id, ts), 0);
  }

  /** Two logs of one call each are diffed as one record retained when the calls read alike, and as one lost and one
      new when they differ in name or id. */
  lemma DifferentCallsAreLost(name: Option<string>, id: Option<string>, ts: Option<int>,
                              name': Option<string>, id': Option<string>, ts': Option<int>)
    requires ':' !in Shown(name, "unknown") && ':' !in Shown(name', "unknown")
    ensures var d := DiffOf(Records(OneCall(name, id, ts)), Records(OneCall(name', id', ts')));
            if Shown(name, "unknown") == Shown(name', "unknown") && Shown(id, "noid") == Shown(id', "noid")
            then d.retainedCount == 1 && d.lostCount == 0 && d.newCount == 0
            else d.retainedCount == 0 && d.lostCount == 1 && d.newCount == 1
  {
    hide Records, Describes, Kinds, Tags, ToolCalls, FirstOf, OneCall, Tokens, Retained;
    OneCallTokens(name, id, ts);
    OneCallTokens(name', id', ts');
    var a, b := Records(OneCall(name, id, ts)), Records(OneCall(name', id', ts'));
    LabelsAgreeExactly(a[0], Call("toolCall", name, id, ts), 0, b[0], Call("toolCall", name', id', ts'), 0);
    NamesWithoutColons(Shown(name, "unknown"), Shown(id, "noid"), Shown(name', "unknown"), Shown(id', "noid"));
    RetainedIsMaximal(a, b, 1);
  }

  /** With colons in names two different calls can read alike, and the loss of one goes unnoticed. */
  lemma ColonsConfuseCalls(ts: Option<int>)
    ensures DiffOf(Records(OneCall(Some("a:b"), Some("c"), ts)),
                   Records(OneCall(Some("a"), Some("b:c"), ts))).lostCount == 0
  {
    hide Records, Describes, Kinds, Tags, ToolCalls, FirstOf, OneCall, Tokens, Retained;
    OneCallTokens(Some("a:b"), Some("c"), ts);
    OneCallTokens(Some("a"), Some("b:c"), ts);
    var a, b := Records(OneCall(Some("a:b"), Some("c"), ts)), Records(OneCall(Some("a"), Some("b:c"), ts));
    LabelsAgreeExactly(a[0], Call("toolCall", Some("a:b"), Some("c"), ts), 0,
                        b[0], Call("toolCall", Some("a"), Some("b:c"), ts), 0);
    assert "a:b" + ":" + "c" == "a" + ":" + "b:c";
    RetainedIsMaximal(a, b, 1);
  }

  // ---------------------------------------------------------------------
  // How many records of each kind

  function CallsAmong(items: seq<Item>): nat
    decreases |items|
  {
    if items == [] then 0
    else CallsAmong(items[..|items| - 1]) + (if items[|items| - 1].ToolCall? then 1 else 0)
  }

  /** How many records of a kind a line contributes; assistant texts are counted by runs, not lines. */
  function FromLine(line: Line, kind: string): nat {
    match line
    case User(_) => if kind == "user" then 1 else 0
    case ToolResult(_, _, _) => if kind == "toolResult" then 1 else 0
    case Assistant(items, _) => if kind == "toolCall" then CallsAmong(items) else 0
    case Unparsable => 0
    case NullLine => 0
    case NotMessage => 0
    case OtherRole => 0
  }

  function FromLines(lines: seq<Line>, kind: string): nat
    decreases |lines|
  {
    if lines == [] then 0 else FromLines(lines[..|lines| - 1], kind) + FromLine(lines[|lines| - 1], kind)
  }

  /** Tokens whose records are of this kind, text aside. */
  function Solid(toks: seq<Token>, kind: string): nat
    decreases |toks|
  {
    if toks == [] then 0
    else
      Solid(toks[..|toks| - 1], kind)
      + (match toks[|toks| - 1]
         case UserTurn(_) => if kind == "user" then 1 else 0
         case Call(k, _, _, _) => if kind == k then 1 else 0
         case Text(_) => 0)
  }

  lemma {:induction false} SolidSplit(x: seq<Token>, y: seq<Token>, kind: string)
    ensures Solid(x + y, kind) == Solid(x, kind) + Solid(y, kind)
    decreases |y|
  {
    if y == [] {
      assert x + y == x;
    } else {
      assert (x + y)[..|x + y| - 1] == x + y[..|y| - 1];
      SolidSplit(x, y[..|y| - 1], kind);
    }
  }

  lemma OneSolid(tok: Token, kind: string)
    ensures Solid([tok], kind) == match tok
                                  case UserTurn(_) => if kind == "user" then 1 else 0
                                  case Call(k, _, _, _) => if kind == k then 1 else 0
                                  case Text(_) => 0
  {
    assert [tok][..0] == [];
  }

  lemma {:induction false} ItemsSolid(items: seq<Item>, ts: Option<int>, kind: string)
    requires kind != "user"
    ensures Solid(ItemTokens(items, ts), kind) == if kind == "toolCall" then CallsAmong(items) else 0
    decreases |items|
  {
    hide Solid;
    if items == [] {
      NoSolid(kind);
    } else {
      var n := |items| - 1;
      ItemsSolid(items[..n], ts, kind);
      SolidSplit(ItemTokens(items[..n], ts), ItemToken(items[n], ts), kind);
      NoSolid(kind);
      match items[n]
      case ToolCall(name, id) => OneSolid(Call("toolCall", name, id, ts), kind);
      case Prose => OneSolid(Text(ts), kind);
      case Other =>
    }
  }

  lemma {:induction false} ItemsNoUser(items: seq<Item>, ts: Option<int>)
    ensures Solid(ItemTokens(items, ts), "user") == 0
    decreases |items|
  {
    hide Solid;
    NoSolid("user");
    if items != [] {
      var n := |items| - 1;
      ItemsNoUser(items[..n], ts);
      SolidSplit(ItemTokens(items[..n], ts), ItemToken(items[n], ts), "user");
      match items[n]
      case ToolCall(name, id) => OneSolid(Call("toolCall", name, id, ts), "user");
      case Prose => OneSolid(Text(ts), "user");
      case Other =>
    }
  }

  lemma NoSolid(kind: string)
    ensures Solid([], kind) == 0
  {
  }

  lemma {:induction false} LinesSolid(lines: seq<Line>, kind: string)
    ensures Solid(Tokens(lines), kind) == FromLines(lines, kind)
    decreases |lines|
  {
    hide Solid, ItemTokens;
    NoSolid(kind);
    if lines != [] {
      var n := |lines| - 1;
      var line := lines[n];
      LinesSolid(lines[..n], kind);
      SolidSplit(Tokens(lines[..n]), LineTokens(line), kind);
      match line
      case User(ts) => OneSolid(UserTurn(ts), kind);
      case ToolResult(name, id, ts) => OneSolid(Call("toolResult", name, id, ts), kind);
      case Assistant(items, ts) =>
        if kind == "user" {
          ItemsNoUser(items, ts);
        } else {
          ItemsSolid(items, ts, kind);
        }
      case _ =>
    }
  }

  lemma CountMore(recs: seq<Record>, r: Record, kind: string)
    ensures CountKind(recs + [r], kind) == CountKind(recs, kind) + (if r.kind == kind then 1 else 0)
  {
    assert (recs + [r])[..|recs|] == recs;
  }

  lemma {:induction false} TakenOfKind(toks: seq<Token>, kind: string)
    requires kind != "assistant"
    ensures CountKind(TakeAll(START, toks).out, kind) == Solid(toks, kind)
    decreases |toks|
  {
    hide CountKind, Digits;
    if toks == [] {
      NothingCounted(kind);
    } else {
      var front, tok := toks[..|toks| - 1], toks[|toks| - 1];
      TakenOfKind(front, kind);
      var a := TakeAll(START, front);
      CountMore(a.out, AssistantRecord(|a.out|, a.pendingTs), kind);
      if !tok.Text? {
        CountMore(Flush(a).out, Rendered(tok, |Flush(a).out|), kind);
      }
    }
  }

  lemma NothingCounted(kind: string)
    ensures CountKind([], kind) == 0
  {
  }

  /** One record for each user message, each tool result and each tool call of the log, and of no other kind but
      assistant. */
  lemma RecordsPerKind(lines: seq<Line>, kind: string)
    requires kind != "assistant"
    ensures CountKind(Records(lines), kind) == FromLines(lines, kind)
  {
    hide CountKind, Digits, TakeAll, Tokens, Solid;
    LinesSolid(lines, kind);
    TakenOfKind(Tokens(lines), kind);
    var a := TakeAll(START, Tokens(lines));
    CountMore(a.out, AssistantRecord(|a.out|, a.pendingTs), kind);
  }

  /** A text or thinking item is marked t, anything with a record of its own s. */
  function ItemMarks(items: seq<Item>): string
    decreases |items|
  {
    if items == [] then ""
    else
      ItemMarks(items[..|items| - 1])
      + (match items[|items| - 1] case ToolCall(_, _) => "s" case Prose => "t" case Other => "")
  }

  function Marks(lines: seq<Line>): string
    decreases |lines|
  {
    if lines == [] then ""
    else
      Marks(lines[..|lines| - 1])
      + (match lines[|lines| - 1]
         case User(_) => "s"
         case ToolResult(_, _, _) => "s"
         case Assistant(items, _) => ItemMarks(items)
         case Unparsable => ""
         case NullLine => ""
         case NotMessage => ""
         case OtherRole => "")
  }

  /** Maximal runs of t. */
  function Runs(marks: string): nat {
    if marks == "" then 0
    else (if marks[0] == 't' && (|marks| == 1 || marks[1] != 't') then 1 else 0) + Runs(marks[1..])
  }

  function TokenMarks(toks: seq<Token>): string
    decreases |toks|
  {
    if toks == [] then "" else TokenMarks(toks[..|toks| - 1]) + (if toks[|toks| - 1].Text? then "t" else "s")
  }

  lemma {:induction false} TokenMarksSplit(x: seq<Token>, y: seq<Token>)
    ensures TokenMarks(x + y) == TokenMarks(x) + TokenMarks(y)
    decreases |y|
  {
    if y == [] {
      assert x + y == x;
    } else {
      assert (x + y)[..|x + y| - 1] == x + y[..|y| - 1];
      TokenMarksSplit(x, y[..|y| - 1]);
    }
  }

  lemma OneMark(tok: Token)
    ensures TokenMarks([tok]) == if tok.Text? then "t" else "s"
  {
    assert [tok][..0] == [];
  }

  lemma {:induction false} ItemsMarked(items: seq<Item>, ts: Option<int>)
    ensures TokenMarks(ItemTokens(items, ts)) == ItemMarks(items)
    decreases |items|
  {
    hide TokenMarks;
    NoMarks();
    if items != [] {
      var n := |items| - 1;
      ItemsMarked(items[..n], ts);
      TokenMarksSplit(ItemTokens(items[..n], ts), ItemToken(items[n], ts));
      match items[n]
      case ToolCall(name, id) => OneMark(Call("toolCall", name, id, ts));
      case Prose => OneMark(Text(ts));
      case Other =>
    }
  }

  lemma NoMarks()
    ensures TokenMarks([]) == ""
  {
  }

  lemma {:induction false} LinesMarked(lines: seq<Line>)
    ensures TokenMarks(Tokens(lines)) == Marks(lines)
    decreases |lines|
  {
    hide TokenMarks, ItemTokens;
    NoMarks();
    if lines != [] {
      var n := |lines| - 1;
      var line := lines[n];
      LinesMarked(lines[..n]);
      TokenMarksSplit(Tokens(lines[..n]), LineTokens(line));
      match line
      case User(ts) => OneMark(UserTurn(ts));
      case ToolResult(name, id, ts) => OneMark(Call("toolResult", name, id, ts));
      case Assistant(items, ts) => ItemsMarked(items, ts);
      case _ =>
    }
  }

  lemma {:induction false} RunsMore(marks: string, c: char)
    ensures Runs(marks + [c])
            == Runs(marks) + (if c == 't' && !(marks != "" && marks[|marks| - 1] == 't') then 1 else 0)
    decreases |marks|
  {
    if marks == "" {
      assert marks + [c] == [c] && [c][1..] == "";
    } else {
      RunsMore(marks[1..], c);
      assert (marks + [c])[1..] == marks[1..] + [c];
    }
  }

  /** The runs closed so far and the one still open are the runs of text among the tokens. */
  lemma {:induction false} TakenRuns(toks: seq<Token>)
    requires forall tok <- toks :: FromParser(tok)
    ensures var a := TakeAll(START, toks); var marks := TokenMarks(toks);
            && CountKind(a.out, "assistant") + (if a.pending then 1 else 0) == Runs(marks)
            && (a.pending <==> marks != "" && marks[|marks| - 1] == 't')
    decreases |toks|
  {
    hide CountKind, Digits, Runs;
    if toks == [] {
      NothingCounted("assistant");
      NoRuns();
    } else {
      var front, tok := toks[..|toks| - 1], toks[|toks| - 1];
      TakenRuns(front);
      var a := TakeAll(START, front);
      RunsMore(TokenMarks(front), if tok.Text? then 't' else 's');
      CountMore(a.out, AssistantRecord(|a.out|, a.pendingTs), "assistant");
      if !tok.Text? {
        SolidKind(tok, |Flush(a).out|);
        CountMore(Flush(a).out, Rendered(tok, |Flush(a).out|), "assistant");
      }
    }
  }

  lemma NoRuns()
    ensures Runs("") == 0
  {
  }

  lemma SolidKind(tok: Token, k: nat)
    requires FromParser(tok) && !tok.Text?
    ensures Rendered(tok, k).kind != "assistant"
  {
    hide Digits;
  }

  /** One assistant record for each maximal run of text and thinking items, however many messages it spans. */
  lemma AssistantRecordPerRun(lines: seq<Line>)
    ensures CountKind(Records(lines), "assistant") == Runs(Marks(lines))
  {
    hide CountKind, Digits, TakeAll, Tokens, Runs, TokenMarks;
    CallsAreCallsOrResults(lines);
    TakenRuns(Tokens(lines));
    LinesMarked(lines);
    var a := TakeAll(START, Tokens(lines));
    CountMore(a.out, AssistantRecord(|a.out|, a.pendingTs), "assistant");
  }
}
