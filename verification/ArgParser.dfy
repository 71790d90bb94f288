/** The audio lab's argument parser, and the printer it undoes. */
module ArgParser {
  datatype Value = True | Text(text: string)

  datatype ParsedArgs = ParsedArgs(command: string, flags: map<string, Value>, positional: seq<string>)

  const BOOLEAN_FLAGS: set<string> := {"force", "keep", "help", "json", "quiet"}

  predicate IsFlag(token: string) {
    |token| >= 2 && token[..2] == "--"
  }

  /** s up to its first '='. */
  function Upto(s: string): (r: string)
    ensures r <= s && '=' !in r
    ensures '=' !in s ==> r == s
  {
    if s == "" || s[0] == '=' then "" else [s[0]] + Upto(s[1..])
  }

  /** s after its first '='. */
  function After(s: string): string {
    if '=' in s then s[|Upto(s)| + 1..] else ""
  }

  // ---------------------------------------------------------------------
  // What a command line says

  datatype Item =
    | Positional(text: string)
    | Bare(name: string)
    | Spaced(name: string, value: string)
    | Equals(name: string, value: string)

  /** The first token is a flag, and the second its value. */
  predicate TakesNext(tokens: seq<string>) {
    && |tokens| > 1 && IsFlag(tokens[0]) && !IsFlag(tokens[1])
    && '=' !in tokens[0][2..] && tokens[0][2..] !in BOOLEAN_FLAGS
  }

  function FirstItem(tokens: seq<string>): Item
    requires tokens != []
  {
    var t := tokens[0];
    if !IsFlag(t) then Positional(t)
    else if '=' in t[2..] then Equals(Upto(t[2..]), Upto(After(t[2..])))
    else if TakesNext(tokens) then Spaced(t[2..], tokens[1])
    else Bare(t[2..])
  }

  /** The tokens read from the left. */
  function Read(tokens: seq<string>): seq<Item>
    decreases |tokens|
  {
    if tokens == [] then []
    else [FirstItem(tokens)] + Read(tokens[if TakesNext(tokens) then 2 else 1..])
  }

  function ValueOf(item: Item): Value
    requires !item.Positional?
  {
    if item.Bare? then True else Text(item.value)
  }

  /** Later flags replace earlier ones. */
  function FlagsOf(items: seq<Item>): map<string, Value>
    decreases |items|
  {
    if items == [] then map[]
    else
      var before := FlagsOf(items[..|items| - 1]);
      var item := items[|items| - 1];
      if item.Positional? then before else before[item.name := ValueOf(item)]
  }

  function PositionalsOf(items: seq<Item>): seq<string>
    decreases |items|
  {
    if items == [] then []
    else
      var item := items[|items| - 1];
      PositionalsOf(items[..|items| - 1]) + (if item.Positional? then [item.text] else [])
  }

  function Parsed(argv: seq<string>): ParsedArgs {
    var items := if argv == [] then [] else Read(argv[1..]);
    ParsedArgs(if argv == [] then "" else argv[0], FlagsOf(items), PositionalsOf(items))
  }

  lemma OneMore(items: seq<Item>, item: Item)
    ensures FlagsOf(items + [item])
            == if item.Positional? then FlagsOf(items) else FlagsOf(items)[item.name := ValueOf(item)]
    ensures PositionalsOf(items + [item]) == PositionalsOf(items) + (if item.Positional? then [item.text] else [])
  {
    assert (items + [item])[..|items|] == items;
  }

  // ---------------------------------------------------------------------
  // The program

  method ParseArgs(argv: seq<string>) returns (args: ParsedArgs)
    ensures args == Parsed(argv)
  {
    hide FlagsOf, PositionalsOf, Upto, Read;
    var command, rest := "", [];
    if argv != [] {
      command, rest := argv[0], argv[1..];
    }
    var flags: map<string, Value>, positional: seq<string> := map[], [];
    ghost var items: seq<Item> := [];
    NothingRead();
    var i := 0;
    while i < |rest|
      invariant 0 <= i <= |rest|
      invariant items + Read(rest[i..]) == Read(rest)
      invariant flags == FlagsOf(items) && positional == PositionalsOf(items)
    {
      var token := rest[i];
      ReadNext(rest, i);
      OneMore(items, FirstItem(rest[i..]));
      items := items + [FirstItem(rest[i..])];
      if !IsFlag(token) {
        positional := positional + [token];
        i := i + 1;
        continue;
      }
      var name := token[2..];
      if '=' in name {
        flags := flags[Upto(name) := Text(Upto(After(name)))];
        i := i + 1;
        continue;
      }
      if name in BOOLEAN_FLAGS {
        flags := flags[name := True];
        i := i + 1;
        continue;
      }
      if i + 1 < |rest| && !IsFlag(rest[i + 1]) {
        flags := flags[name := Text(rest[i + 1])];
        i := i + 2;
      } else {
        flags := flags[name := True];
        i := i + 1;
      }
    }
    assert items == Read(rest);
    args := ParsedArgs(command, flags, positional);
  }

  lemma ReadNext(rest: seq<string>, i: nat)
    requires i < |rest|
    ensures Read(rest[i..]) == [FirstItem(rest[i..])] + Read(rest[if TakesNext(rest[i..]) then i + 2 else i + 1..])
  {
    assert rest[i..][1..] == rest[i + 1..];
    if i + 1 < |rest| {
      assert rest[i..][2..] == rest[i + 2..];
    }
  }

  lemma NothingRead()
    ensures FlagsOf([]) == map[] && PositionalsOf([]) == [] && Read([]) == []
  {
  }

  // ---------------------------------------------------------------------
  // The printer

  function Print(item: Item): seq<string> {
    match item
    case Positional(text) => [text]
    case Bare(name) => ["--" + name]
    case Spaced(name, value) => ["--" + name, value]
    case Equals(name, value) => ["--" + name + "=" + value]
  }

  function PrintAll(items: seq<Item>): seq<string> {
    if items == [] then [] else Print(items[0]) + PrintAll(items[1..])
  }

  /** The flags documented to stand bare. */
  predicate NeverTakesValue(name: string) {
    name == "force" || name == "keep" || name == "help" || name == "json" || name == "quiet"
  }

  /** What a printed item may be: names without '=', positionals and spaced values that do not look like flags,
      and no value spaced after a boolean flag. */
  predicate Printable(item: Item) {
    match item
    case Positional(text) => !("--" <= text)
    case Bare(name) => '=' !in name
    case Spaced(name, value) => '=' !in name && !NeverTakesValue(name) && !("--" <= value)
    case Equals(name, _) => '=' !in name
  }

  /** A flag that could take a value stands bare right before a positional. */
  predicate SwallowsAt(items: seq<Item>, i: int) {
    0 <= i < |items| - 1 && items[i].Bare? && !NeverTakesValue(items[i].name) && items[i + 1].Positional?
  }

  ghost predicate Swallows(items: seq<Item>) {
    exists i :: SwallowsAt(items, i)
  }

  predicate InnerEquals(item: Item) {
    item.Equals? && '=' in item.value
  }

  /** What reading makes of a printed item: a value is cut at its first '='. */
  function Cut(item: Item): Item {
    if item.Equals? then Equals(item.name, Upto(item.value)) else item
  }

  function CutAll(items: seq<Item>): (r: seq<Item>)
    ensures |r| == |items| && forall i :: 0 <= i < |items| ==> r[i] == Cut(items[i])
  {
    seq(|items|, i requires 0 <= i < |items| => Cut(items[i]))
  }

  ghost predicate DistinctNames(items: seq<Item>) {
    forall i, j :: 0 <= i < j < |items| && !items[i].Positional? && !items[j].Positional?
                   ==> items[i].name != items[j].name
  }

  lemma {:induction false} UptoEquals(key: string, value: string)
    requires '=' !in key
    ensures Upto(key + "=" + value) == key
    decreases |key|
  {
    var s := key + "=" + value;
    if key != "" {
      UptoEquals(key[1..], value);
      assert s[1..] == key[1..] + "=" + value;
    }
  }

  lemma SplitAtEquals(key: string, value: string)
    requires '=' !in key
    ensures Upto(key + "=" + value) == key && After(key + "=" + value) == value
  {
    var s := key + "=" + value;
    UptoEquals(key, value);
    assert s[|key|] == '=' && s[|key| + 1..] == value;
  }

  lemma FirstPrinted(item: Item, rest: seq<string>)
    requires Printable(item)
    requires item.Bare? && !NeverTakesValue(item.name) ==> rest == [] || IsFlag(rest[0])
    ensures var tokens := Print(item) + rest;
            FirstItem(tokens) == Cut(item) && (TakesNext(tokens) <==> item.Spaced?)
  {
    hide Upto, After;
    var tokens := Print(item) + rest;
    match item
    case Positional(_) =>
    case Bare(name) => assert tokens[0][2..] == name;
    case Spaced(name, value) => assert tokens[0][2..] == name && tokens[1] == value;
    case Equals(name, value) =>
      var s := name + "=" + value;
      assert tokens[0][2..] == s && s[|name|] == '=';
      SplitAtEquals(name, value);
  }

  /** Reading the tokens of one item and then `rest`. */
  lemma ReadOne(item: Item, rest: seq<string>)
    requires Printable(item)
    requires item.Bare? && !NeverTakesValue(item.name) ==> rest == [] || IsFlag(rest[0])
    ensures Read(Print(item) + rest) == [Cut(item)] + Read(rest)
  {
    hide FirstItem, TakesNext, Cut, Printable, IsFlag;
    FirstPrinted(item, rest);
    assert (Print(item) + rest)[|Print(item)|..] == rest;
  }

  lemma {:induction false} ReadsBack(items: seq<Item>)
    requires forall item <- items :: Printable(item)
    requires !Swallows(items)
    ensures Read(PrintAll(items)) == CutAll(items)
    decreases |items|
  {
    hide Read, Upto;
    if items == [] {
      NothingRead();
    } else {
      var rest := items[1..];
      forall i ensures !SwallowsAt(rest, i) {
        assert !SwallowsAt(items, i + 1);
      }
      assert !SwallowsAt(items, 0);
      ReadsBack(rest);
      ReadOne(items[0], PrintAll(rest));
      assert CutAll(items) == [Cut(items[0])] + CutAll(rest);
    }
  }

  function Count(items: seq<Item>): nat {
    if items == [] then 0 else (if items[0].Positional? then 1 else 0) + Count(items[1..])
  }

  lemma {:induction false} CountIsPositionals(items: seq<Item>)
    ensures |PositionalsOf(items)| == Count(items)
    decreases |items|
  {
    if items != [] {
      var front, last := items[..|items| - 1], items[|items| - 1];
      CountIsPositionals(front);
      CountLast(front, last);
      assert front + [last] == items;
    }
  }

  lemma {:induction false} CountLast(items: seq<Item>, last: Item)
    ensures Count(items + [last]) == Count(items) + (if last.Positional? then 1 else 0)
    decreases |items|
  {
    if items == [] {
      assert [] + [last] == [last];
    } else {
      CountLast(items[1..], last);
      assert (items + [last])[1..] == items[1..] + [last];
    }
  }

  /** Each bare flag before a positional costs one positional. */
  lemma {:induction false} SwallowingLosesPositionals(items: seq<Item>)
    requires forall item <- items :: Printable(item)
    ensures Count(Read(PrintAll(items))) <= Count(items)
    ensures Swallows(items) ==> Count(Read(PrintAll(items))) < Count(items)
    decreases |items|
  {
    hide Read, Upto, Printable;
    if items == [] {
      NothingRead();
    } else {
      var rest := items[1..];
      if SwallowsAt(items, 0) {
        SwallowingLosesPositionals(items[2..]);
        SwallowOne(items);
      } else {
        SwallowingLosesPositionals(rest);
        FirstToken(rest);
        ReadOne(items[0], PrintAll(rest));
        if Swallows(items) {
          var i :| SwallowsAt(items, i);
          assert SwallowsAt(rest, i - 1);
        }
        assert ([Cut(items[0])] + Read(PrintAll(rest)))[1..] == Read(PrintAll(rest));
      }
    }
  }

  lemma FirstToken(items: seq<Item>)
    requires forall item <- items :: Printable(item)
    ensures items == [] ==> PrintAll(items) == []
    ensures items != [] ==> PrintAll(items) != [] && (IsFlag(PrintAll(items)[0]) <==> !items[0].Positional?)
  {
    if items != [] {
      var item := items[0];
      assert Printable(item) && PrintAll(items)[0] == Print(item)[0];
      assert !item.Positional? ==> Print(item)[0][..2] == "--";
    }
  }

  lemma SwallowOne(items: seq<Item>)
    requires SwallowsAt(items, 0) && Printable(items[0]) && Printable(items[1])
    ensures Count(Read(PrintAll(items))) == Count(Read(PrintAll(items[2..])))
    ensures Count(items) == 1 + Count(items[2..])
  {
    hide Read, IsFlag, Cut;
    var spaced := Spaced(items[0].name, items[1].text);
    SpacedIsPrintable(items[0].name, items[1].text);
    ReadOne(spaced, PrintAll(items[2..]));
    assert items[1..][0] == items[1] && items[1..][1..] == items[2..];
    assert PrintAll(items) == Print(spaced) + PrintAll(items[2..]);
    assert ([spaced] + Read(PrintAll(items[2..])))[1..] == Read(PrintAll(items[2..]));
  }

  lemma SpacedIsPrintable(name: string, text: string)
    requires Printable(Bare(name)) && !NeverTakesValue(name) && Printable(Positional(text))
    ensures Printable(Spaced(name, text)) && Cut(Spaced(name, text)) == Spaced(name, text)
  {
  }

  predicate FlagAt(items: seq<Item>, i: int, name: string) {
    0 <= i < |items| && !items[i].Positional? && items[i].name == name
  }

  lemma {:induction false} FlagNames(items: seq<Item>, name: string)
    ensures name in FlagsOf(items) <==> exists i :: FlagAt(items, i, name)
    decreases |items|
  {
    if items != [] {
      var n := |items| - 1;
      FlagNames(items[..n], name);
      assert forall i :: 0 <= i < n ==> (FlagAt(items, i, name) <==> FlagAt(items[..n], i, name));
      assert FlagAt(items, n, name) <==> !items[n].Positional? && items[n].name == name;
    }
  }

  lemma {:induction false} FlagsOfDistinct(items: seq<Item>)
    requires DistinctNames(items)
    ensures forall k :: k in FlagsOf(items) <==> exists i :: FlagAt(items, i, k)
    ensures forall i :: 0 <= i < |items| && !items[i].Positional? ==>
              items[i].name in FlagsOf(items) && FlagsOf(items)[items[i].name] == ValueOf(items[i])
    decreases |items|
  {
    forall k ensures k in FlagsOf(items) <==> exists i :: FlagAt(items, i, k) {
      FlagNames(items, k);
    }
    if items != [] {
      var n := |items| - 1;
      FlagsOfDistinct(items[..n]);
      assert forall i :: 0 <= i < n ==> items[..n][i] == items[i];
    }
  }

  lemma {:induction false} CutKeepsPositionals(items: seq<Item>)
    ensures PositionalsOf(CutAll(items)) == PositionalsOf(items)
    decreases |items|
  {
    if items != [] {
      CutKeepsPositionals(items[..|items| - 1]);
      assert CutAll(items)[..|items| - 1] == CutAll(items[..|items| - 1]);
    }
  }

  lemma CutChangesFlags(items: seq<Item>)
    requires DistinctNames(items)
    ensures FlagsOf(CutAll(items)) == FlagsOf(items) <==> forall item <- items :: !InnerEquals(item)
  {
    hide FlagsOf, Upto;
    var cut := CutAll(items);
    FlagsOfDistinct(items);
    FlagsOfDistinct(cut);
    if i :| 0 <= i < |items| && InnerEquals(items[i]) {
      assert cut[i].name == items[i].name && ValueOf(cut[i]) != ValueOf(items[i]);
    } else {
      assert forall i :: 0 <= i < |items| ==> items[i] in items && cut[i] == items[i];
      assert cut == items;
    }
  }

  /** Printing distinct flags and positionals in any order and parsing the line gives back the same flags and
      the same positionals in order exactly when no flag that could take a value stands bare before a positional
      and no value after '=' holds another. */
  lemma RoundTripExactly(command: string, items: seq<Item>)
    requires (forall item <- items :: Printable(item)) && DistinctNames(items)
    ensures Parsed([command] + PrintAll(items)) == ParsedArgs(command, FlagsOf(items), PositionalsOf(items))
            <==> !Swallows(items) && forall item <- items :: !InnerEquals(item)
  {
    hide FlagsOf, PositionalsOf, Read, PrintAll, Swallows, DistinctNames, Printable;
    assert ([command] + PrintAll(items))[1..] == PrintAll(items);
    if Swallows(items) {
      SwallowingLosesPositionals(items);
      CountIsPositionals(items);
      CountIsPositionals(Read(PrintAll(items)));
    } else {
      ReadsBack(items);
      CutKeepsPositionals(items);
      CutChangesFlags(items);
    }
  }

  lemma EmptyLine()
    ensures Parsed([]) == ParsedArgs("", map[], [])
  {
  }

  /** Each positional stands after those before it. */
  lemma {:induction false} PositionalsInOrder(items: seq<Item>)
    ensures |PositionalsOf(items)| == Count(items)
    ensures forall i :: 0 <= i < |items| && items[i].Positional? ==>
              Count(items[..i]) < Count(items) && PositionalsOf(items)[Count(items[..i])] == items[i].text
    decreases |items|
  {
    CountIsPositionals(items);
    if items != [] {
      var n := |items| - 1;
      PositionalsInOrder(items[..n]);
      CountIsPositionals(items[..n]);
      assert forall i :: 0 <= i < n ==> items[..n][..i] == items[..i] && items[..n][i] == items[i];
    }
  }

  /** What the parsed line then holds: each flag under its name, with its value, and no other, and each positional in
      its place. */
  lemma EveryFlagReadBack(command: string, items: seq<Item>)
    requires (forall item <- items :: Printable(item) && !InnerEquals(item)) && DistinctNames(items) && !Swallows(items)
    ensures var args := Parsed([command] + PrintAll(items));
            && args.command == command
            && (forall item <- items ::
                  !item.Positional? ==>
                    && item.name in args.flags
                    && args.flags[item.name] == if item.Bare? then True else Text(item.value))
            && (forall k <- args.flags :: exists item :: item in items && !item.Positional? && item.name == k)
            && |args.positional| == Count(items)
            && forall i :: 0 <= i < |items| && items[i].Positional? ==>
                 Count(items[..i]) < |args.positional| && args.positional[Count(items[..i])] == items[i].text
    ensures Parsed([]) == ParsedArgs("", map[], [])
  {
    EmptyLine();
    hide FlagsOf, PositionalsOf, Read, PrintAll, Swallows, Printable, InnerEquals, Parsed, Count;
    RoundTripExactly(command, items);
    PositionalsInOrder(items);
    FlagsOfDistinct(items);
    CountIsPositionals(items);
  }

  /** A flag that could take a value, bare before a positional, does not survive the round trip. */
  lemma BareFlagSwallowsPositional(command: string)
    ensures var items := [Bare("out"), Positional("x")];
            Parsed([command] + PrintAll(items)) != ParsedArgs(command, FlagsOf(items), PositionalsOf(items))
  {
    hide Parsed, FlagsOf, PositionalsOf, PrintAll;
    var items := [Bare("out"), Positional("x")];
    assert SwallowsAt(items, 0);
    RoundTripExactly(command, items);
  }
}
