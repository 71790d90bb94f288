/** extractTypes: the worklist that closes a set of root type names under the names their fields mention. */
module TypeClosure {
  import opened Common

  /** One parsed source file: each interface's field types as printed, each alias's type as printed. */
  datatype ParsedFile = ParsedFile(interfaces: map<string, seq<string>>, aliases: map<string, string>)

  datatype Extracted = Enum | Interface(fields: seq<string>) | Alias(text: string)

  datatype Error = RootNotFound(name: string)

  // ---------------------------------------------------------------------
  // Names and tokens

  predicate WordChar(c: char) {
    'A' <= c <= 'Z' || 'a' <= c <= 'z' || '0' <= c <= '9' || c == '_'
  }

  /** text.split(/[^A-Za-z0-9_]/), the empty pieces left out; `word` is the piece being read. */
  function Words(text: string, word: string): seq<string> {
    if text == "" then (if word == "" then [] else [word])
    else if WordChar(text[0]) then Words(text[1..], word + [text[0]])
    else (if word == "" then [] else [word]) + Words(text[1..], "")
  }

  /** A digit, a letter or an underscore, by its code. */
  predicate Wordy(c: char) {
    var n := c as int;
    48 <= n <= 57 || 65 <= n <= 90 || n == 95 || 97 <= n <= 122
  }

  /** text[i..j] is a maximal run of word characters. */
  ghost predicate WordAt(text: string, i: int, j: int) {
    && 0 <= i < j <= |text|
    && (forall k :: i <= k < j ==> Wordy(text[k]))
    && (i == 0 || !Wordy(text[i - 1])) && (j == |text| || !Wordy(text[j]))
  }

  ghost predicate IsWord(text: string, t: string) {
    exists i, j :: 0 <= i < j <= |text| && WordAt(text, i, j) && text[i..j] == t
  }

  /** A word of `word + rest` is `word` itself, or lies past the separator. */
  lemma WordSits(word: string, rest: string, i: int, j: int)
    requires forall c <- word :: WordChar(c)
    requires rest == "" || !WordChar(rest[0])
    requires WordAt(word + rest, i, j)
    ensures i > |word| || (i == 0 && j == |word|)
  {
    var all := word + rest;
    assert forall k :: 0 <= k < |word| ==> all[k] == word[k] && WordChar(word[k]);
    assert rest != "" ==> all[|word|] == rest[0];
  }

  /** Words past the separator are those of what follows it. */
  lemma WordShifts(word: string, rest: string, i: int, j: int)
    requires rest != "" && !WordChar(rest[0]) && i > |word|
    ensures var d := |word| + 1;
            && (WordAt(word + rest, i, j) <==> WordAt(rest[1..], i - d, j - d))
            && (i <= j <= |word + rest| ==> (word + rest)[i..j] == rest[1..][i - d..j - d])
  {
    var all, tail, d := word + rest, rest[1..], |word| + 1;
    assert |all| == |tail| + d && all[|word|] == rest[0];
    forall k | 0 <= k < |tail| ensures tail[k] == all[k + d] {}
    if WordAt(tail, i - d, j - d) {
      forall k | i <= k < j ensures WordChar(all[k]) {
        assert all[k] == tail[k - d];
      }
    }
    if WordAt(all, i, j) {
      forall k | i - d <= k < j - d ensures WordChar(tail[k]) {
        assert all[k + d] == tail[k];
      }
    }
  }

  lemma WordOfPrefix(word: string, rest: string, t: string)
    requires forall c <- word :: WordChar(c)
    requires rest == "" || !WordChar(rest[0])
    ensures IsWord(word + rest, t) <==> (word != "" && t == word) || (rest != "" && IsWord(rest[1..], t))
  {
    hide WordAt;
    var all, d := word + rest, |word| + 1;
    assert all[0..|word|] == word;
    if word != "" {
      WholeWord(word, rest);
    }
    if rest != "" && IsWord(rest[1..], t) {
      var i, j :| 0 <= i < j <= |rest[1..]| && WordAt(rest[1..], i, j) && rest[1..][i..j] == t;
      WordShifts(word, rest, i + d, j + d);
      assert WordAt(all, i + d, j + d) && all[i + d..j + d] == t;
    }
    if IsWord(all, t) {
      var i, j :| 0 <= i < j <= |all| && WordAt(all, i, j) && all[i..j] == t;
      WordSits(word, rest, i, j);
      if i > |word| {
        WordShifts(word, rest, i, j);
        assert WordAt(rest[1..], i - d, j - d) && rest[1..][i - d..j - d] == t;
      }
    }
  }

  lemma WholeWord(word: string, rest: string)
    requires word != "" && forall c <- word :: WordChar(c)
    requires rest == "" || !WordChar(rest[0])
    ensures WordAt(word + rest, 0, |word|)
  {
    assert forall k :: 0 <= k < |word| ==> (word + rest)[k] == word[k] && WordChar(word[k]);
  }

  /** The tokens of a text are exactly its maximal runs of word characters. */
  lemma {:induction false} WordsExact(text: string, word: string, t: string)
    requires forall c <- word :: WordChar(c)
    ensures t in Words(text, word) <==> IsWord(word + text, t)
    decreases text
  {
    hide IsWord;
    if text == "" {
      WordOfPrefix(word, "", t);
      assert word + text == word + "";
    } else if WordChar(text[0]) {
      assert word + [text[0]] + text[1..] == word + text;
      WordsExact(text[1..], word + [text[0]], t);
    } else {
      WordOfPrefix(word, text, t);
      WordsExact(text[1..], "", t);
      assert "" + text[1..] == text[1..];
    }
  }

  predicate NamesIn(files: seq<ParsedFile>, name: string) {
    exists f <- files :: name in f.interfaces || name in f.aliases
  }

  /** files.flatMap(file => file.interfaces.get(name) ?? [])[0] */
  function FirstInterface(files: seq<ParsedFile>, name: string): Option<seq<string>> {
    if files == [] then None
    else if name in files[0].interfaces then Some(files[0].interfaces[name])
    else FirstInterface(files[1..], name)
  }

  function FirstAlias(files: seq<ParsedFile>, name: string): Option<string> {
    if files == [] then None
    else if name in files[0].aliases then Some(files[0].aliases[name])
    else FirstAlias(files[1..], name)
  }

  function AllWords(fields: seq<string>): seq<string> {
    if fields == [] then [] else Words(fields[0], "") + AllWords(fields[1..])
  }

  /** The declared names that the fields of `name` mention, if `name` is taken from an interface. */
  function Mentions(files: seq<ParsedFile>, overrides: set<string>, name: string): set<string> {
    if name in overrides || FirstInterface(files, name).None? then {}
    else set t <- AllWords(FirstInterface(files, name).value) | NamesIn(files, t)
  }

  /** What the entry for `name` is, if there is one: an override, else the first interface, else the first alias. */
  function Describe(files: seq<ParsedFile>, overrides: set<string>, name: string): Option<Extracted> {
    if name in overrides then Some(Enum)
    else if FirstInterface(files, name).Some? then Some(Interface(FirstInterface(files, name).value))
    else if FirstAlias(files, name).Some? then Some(Alias(FirstAlias(files, name).value))
    else None
  }

  lemma {:induction false} DeclaredHasEntry(files: seq<ParsedFile>, name: string)
    ensures NamesIn(files, name) <==> FirstInterface(files, name).Some? || FirstAlias(files, name).Some?
  {
    if files != [] {
      DeclaredHasEntry(files[1..], name);
      assert files == [files[0]] + files[1..];
    }
  }

  // ---------------------------------------------------------------------
  // The same, without the program's functions

  ghost predicate Declared(files: seq<ParsedFile>, name: string) {
    exists i :: 0 <= i < |files| && (name in files[i].interfaces || name in files[i].aliases)
  }

  /** File `i` is the first to declare `name` as an interface. */
  predicate InterfaceAt(files: seq<ParsedFile>, i: int, name: string) {
    0 <= i < |files| && name in files[i].interfaces && forall j :: 0 <= j < i ==> name !in files[j].interfaces
  }

  predicate AliasAt(files: seq<ParsedFile>, i: int, name: string) {
    0 <= i < |files| && name in files[i].aliases && forall j :: 0 <= j < i ==> name !in files[j].aliases
  }

  /** `from` is taken from an interface, and `to` is a declared name that stands as a word in the type of one of its
      fields. */
  ghost predicate Links(files: seq<ParsedFile>, overrides: set<string>, from: string, to: string) {
    && from !in overrides && Declared(files, to)
    && exists i :: InterfaceAt(files, i, from) && exists f <- files[i].interfaces[from] :: IsWord(f, to)
  }

  /** The entry of `name`: an override, else its first interface, else, declared as none, its first alias. */
  ghost predicate EntryOf(files: seq<ParsedFile>, overrides: set<string>, name: string, e: Extracted) {
    match e
    case Enum => name in overrides
    case Interface(fields) =>
      name !in overrides && exists i :: InterfaceAt(files, i, name) && fields == files[i].interfaces[name]
    case Alias(text) =>
      && name !in overrides && (forall f <- files :: name !in f.interfaces)
      && exists i :: AliasAt(files, i, name) && text == files[i].aliases[name]
  }

  lemma {:induction false} FirstInterfaceExactly(files: seq<ParsedFile>, name: string)
    ensures FirstInterface(files, name).None? <==> forall f <- files :: name !in f.interfaces
    ensures FirstInterface(files, name).Some? ==>
              exists i :: InterfaceAt(files, i, name) && files[i].interfaces[name] == FirstInterface(files, name).value
  {
    if files != [] {
      FirstInterfaceExactly(files[1..], name);
      assert files == [files[0]] + files[1..];
      if name in files[0].interfaces {
        assert InterfaceAt(files, 0, name);
      } else if FirstInterface(files, name).Some? {
        var i :| InterfaceAt(files[1..], i, name)
                   && files[1..][i].interfaces[name] == FirstInterface(files, name).value;
        assert InterfaceAt(files, i + 1, name);
      }
    }
  }

  lemma {:induction false} FirstAliasExactly(files: seq<ParsedFile>, name: string)
    ensures FirstAlias(files, name).None? <==> forall f <- files :: name !in f.aliases
    ensures FirstAlias(files, name).Some? ==>
              exists i :: AliasAt(files, i, name) && files[i].aliases[name] == FirstAlias(files, name).value
  {
    if files != [] {
      FirstAliasExactly(files[1..], name);
      assert files == [files[0]] + files[1..];
      if name in files[0].aliases {
        assert AliasAt(files, 0, name);
      } else if FirstAlias(files, name).Some? {
        var i :| AliasAt(files[1..], i, name) && files[1..][i].aliases[name] == FirstAlias(files, name).value;
        assert AliasAt(files, i + 1, name);
      }
    }
  }

  lemma DeclaredExactly(files: seq<ParsedFile>, name: string)
    ensures NamesIn(files, name) <==> Declared(files, name)
  {
    if Declared(files, name) {
      var i :| 0 <= i < |files| && (name in files[i].interfaces || name in files[i].aliases);
      assert files[i] in files;
    }
  }

  /** The words of an interface are those of all its fields. */
  lemma {:induction false} AllWordsExact(fields: seq<string>, t: string)
    ensures t in AllWords(fields) <==> exists f <- fields :: IsWord(f, t)
  {
    hide IsWord, Words;
    if fields != [] {
      AllWordsExact(fields[1..], t);
      WordsExact(fields[0], "", t);
      assert "" + fields[0] == fields[0];
      assert fields == [fields[0]] + fields[1..];
    }
  }

  lemma LinksExactly(files: seq<ParsedFile>, overrides: set<string>, from: string, to: string)
    ensures to in Mentions(files, overrides, from) <==> Links(files, overrides, from, to)
  {
    hide IsWord, AllWords, NamesIn, Declared, FirstInterface;
    FirstInterfaceExactly(files, from);
    DeclaredExactly(files, to);
    if FirstInterface(files, from).Some? {
      AllWordsExact(FirstInterface(files, from).value, to);
      forall i, j | InterfaceAt(files, i, from) && InterfaceAt(files, j, from) ensures i == j {
      }
    } else {
      forall i ensures !InterfaceAt(files, i, from) {
        assert 0 <= i < |files| ==> files[i] in files;
      }
    }
  }

  lemma EntryExactly(files: seq<ParsedFile>, overrides: set<string>, name: string, e: Extracted)
    ensures Describe(files, overrides, name) == Some(e) <==> EntryOf(files, overrides, name, e)
  {
    hide FirstInterface, FirstAlias;
    FirstInterfaceExactly(files, name);
    FirstAliasExactly(files, name);
    forall i ensures InterfaceAt(files, i, name) ==> files[i] in files {
    }
    forall i ensures AliasAt(files, i, name) ==> files[i] in files {
    }
  }

  // ---------------------------------------------------------------------
  // Reachability

  /** A chain of names, each mentioned by the one before, from a root. */
  ghost predicate Path(files: seq<ParsedFile>, overrides: set<string>, roots: seq<string>, p: seq<string>) {
    && p != [] && p[0] in roots
    && forall i :: 0 <= i < |p| - 1 ==> Links(files, overrides, p[i], p[i + 1])
  }

  ghost predicate Reachable(files: seq<ParsedFile>, overrides: set<string>, roots: seq<string>, name: string) {
    exists p :: Path(files, overrides, roots, p) && p[|p| - 1] == name
  }

  lemma ReachRoot(files: seq<ParsedFile>, overrides: set<string>, roots: seq<string>, name: string)
    requires name in roots
    ensures Reachable(files, overrides, roots, name)
  {
    assert Path(files, overrides, roots, [name]);
  }

  lemma ReachStep(files: seq<ParsedFile>, overrides: set<string>, roots: seq<string>, from: string, to: string)
    requires Reachable(files, overrides, roots, from) && to in Mentions(files, overrides, from)
    ensures Reachable(files, overrides, roots, to)
  {
    hide Mentions, Links;
    LinksExactly(files, overrides, from, to);
    var p :| Path(files, overrides, roots, p) && p[|p| - 1] == from;
    assert Path(files, overrides, roots, p + [to]);
  }

  /** A set that holds the roots and is closed under mentions holds every reachable name. */
  lemma {:induction false} ClosedHoldsPath(files: seq<ParsedFile>, overrides: set<string>, roots: seq<string>,
                                           closed: set<string>, p: seq<string>)
    requires forall r <- roots :: r in closed
    requires forall n <- closed :: Mentions(files, overrides, n) <= closed
    requires Path(files, overrides, roots, p)
    ensures p[|p| - 1] in closed
    decreases |p|
  {
    hide Mentions, Links;
    if |p| > 1 {
      var q := p[..|p| - 1];
      LinksExactly(files, overrides, p[|p| - 2], p[|p| - 1]);
      assert Path(files, overrides, roots, q);
      ClosedHoldsPath(files, overrides, roots, closed, q);
    }
  }

  // ---------------------------------------------------------------------
  // The worklist invariant

  /** Everything met is reachable, and everything reachable in one step from what was visited has been met. */
  ghost predicate Frontier(files: seq<ParsedFile>, overrides: set<string>, roots: seq<string>,
                           seen: set<string>, queue: seq<string>) {
    && (forall n <- queue :: Reachable(files, overrides, roots, n) && (n in roots || NamesIn(files, n)))
    && (forall n <- seen :: Reachable(files, overrides, roots, n))
    && (forall n <- roots :: n in seen || n in queue)
    && (forall n <- seen, t <- Mentions(files, overrides, n) :: t in seen || t in queue)
  }

  lemma FrontierStart(files: seq<ParsedFile>, overrides: set<string>, roots: seq<string>)
    ensures Frontier(files, overrides, roots, {}, roots)
  {
    hide Reachable, Mentions, NamesIn;
    forall n <- roots ensures Reachable(files, overrides, roots, n) {
      ReachRoot(files, overrides, roots, n);
    }
  }

  lemma FrontierSkip(files: seq<ParsedFile>, overrides: set<string>, roots: seq<string>, seen: set<string>,
                     queue: seq<string>)
    requires queue != [] && queue[0] in seen && Frontier(files, overrides, roots, seen, queue)
    ensures Frontier(files, overrides, roots, seen, queue[1..])
  {
    hide Reachable, Mentions, NamesIn;
    assert queue == [queue[0]] + queue[1..];
  }

  lemma FrontierVisit(files: seq<ParsedFile>, overrides: set<string>, roots: seq<string>, seen: set<string>,
                      queue: seq<string>, extra: seq<string>)
    requires queue != [] && Frontier(files, overrides, roots, seen, queue)
    requires forall t <- extra :: t in Mentions(files, overrides, queue[0])
    requires forall t <- Mentions(files, overrides, queue[0]) :: t in seen + {queue[0]} || t in queue[1..] + extra
    ensures Frontier(files, overrides, roots, seen + {queue[0]}, queue[1..] + extra)
  {
    hide Reachable, NamesIn;
    assert queue == [queue[0]] + queue[1..];
    forall t <- extra ensures Reachable(files, overrides, roots, t) {
      ReachStep(files, overrides, roots, queue[0], t);
    }
  }

  lemma FrontierDone(files: seq<ParsedFile>, overrides: set<string>, roots: seq<string>, seen: set<string>)
    requires Frontier(files, overrides, roots, seen, [])
    ensures forall n :: n in seen <==> Reachable(files, overrides, roots, n)
  {
    hide Mentions, NamesIn;
    forall n | Reachable(files, overrides, roots, n) ensures n in seen {
      var p :| Path(files, overrides, roots, p) && p[|p| - 1] == n;
      ClosedHoldsPath(files, overrides, roots, seen, p);
    }
  }

  // ---------------------------------------------------------------------
  // The program

  /** `m` has an entry for exactly the reachable names, each described by its first declaration. */
  ghost predicate IsClosure(files: seq<ParsedFile>, overrides: set<string>, roots: seq<string>,
                            m: map<string, Extracted>)
  {
    && (forall n :: n in m <==> Reachable(files, overrides, roots, n))
    && (forall n <- m :: EntryOf(files, overrides, n, m[n]))
  }

  ghost function DeclaredNames(files: seq<ParsedFile>): set<string> {
    set f <- files, n <- f.interfaces.Keys + f.aliases.Keys :: n
  }

  /** The loop over the words of one interface's fields. */
  method QueueWords(files: seq<ParsedFile>, words: seq<string>, seen: set<string>) returns (extra: seq<string>)
    ensures forall t <- extra :: t in words && t !in seen && NamesIn(files, t)
    ensures forall t <- words :: NamesIn(files, t) ==> t in seen || t in extra
  {
    hide NamesIn;
    extra := [];
    for i := 0 to |words|
      invariant forall t <- extra :: t in words && t !in seen && NamesIn(files, t)
      invariant forall t <- words[..i] :: NamesIn(files, t) ==> t in seen || t in extra
    {
      assert words[..i + 1] == words[..i] + [words[i]];
      if words[i] !in seen && NamesIn(files, words[i]) {
        extra := extra + [words[i]];
      }
    }
    assert words[..|words|] == words;
  }

  method ExtractTypes(files: seq<ParsedFile>, overrides: set<string>, roots: seq<string>)
    returns (r: Result<map<string, Extracted>, Error>)
    ensures r.Ok? ==> IsClosure(files, overrides, roots, r.value)
    ensures r.Err? <==> exists root <- roots :: root !in overrides && !Declared(files, root)
    ensures r.Err? ==> r.error.name in roots && r.error.name !in overrides && !Declared(files, r.error.name)
  {
    hide Frontier, Reachable, Mentions, NamesIn, Declared, EntryOf;
    forall name ensures NamesIn(files, name) <==> Declared(files, name) {
      DeclaredExactly(files, name);
    }
    var out: map<string, Extracted> := map[];
    var queue := roots;
    var seen: set<string> := {};
    ghost var universe := DeclaredNames(files) + (set n <- roots);
    FrontierStart(files, overrides, roots);
    while queue != []
      invariant Frontier(files, overrides, roots, seen, queue)
      invariant out.Keys == seen
      invariant forall n <- out :: Some(out[n]) == Describe(files, overrides, n)
      decreases universe - seen, |queue|
    {
      var name := queue[0];
      InUniverse(files, overrides, roots, seen, queue);
      if name in seen {
        FrontierSkip(files, overrides, roots, seen, queue);
        queue := queue[1..];
        continue;
      }
      if name in overrides {
        out := out[name := Enum];
        NoMentions(files, overrides, name);
        FrontierVisit(files, overrides, roots, seen, queue, []);
        assert queue[1..] + [] == queue[1..];
        queue, seen := queue[1..], seen + {name};
        continue;
      }
      var declaration := FirstInterface(files, name);
      if declaration.Some? {
        out := out[name := Interface(declaration.value)];
        var extra := QueueWords(files, AllWords(declaration.value), seen + {name});
        MentionsAreWords(files, overrides, name);
        FrontierVisit(files, overrides, roots, seen, queue, extra);
        queue, seen := queue[1..] + extra, seen + {name};
        continue;
      }
      var alias := FirstAlias(files, name);
      if alias.Some? {
        out := out[name := Alias(alias.value)];
        NoMentions(files, overrides, name);
        FrontierVisit(files, overrides, roots, seen, queue, []);
        assert queue[1..] + [] == queue[1..];
        queue, seen := queue[1..], seen + {name};
        continue;
      }
      NotFoundIsRoot(files, overrides, roots, seen, queue);
      return Err(RootNotFound(name));
    }
    FrontierDone(files, overrides, roots, seen);
    RootsDescribed(files, overrides, roots, out);
    forall n <- out ensures EntryOf(files, overrides, n, out[n]) {
      EntryExactly(files, overrides, n, out[n]);
    }
    r := Ok(out);
  }

  lemma InUniverse(files: seq<ParsedFile>, overrides: set<string>, roots: seq<string>, seen: set<string>,
                   queue: seq<string>)
    requires queue != [] && Frontier(files, overrides, roots, seen, queue)
    ensures queue[0] in DeclaredNames(files) + (set n <- roots)
  {
    hide Reachable, Mentions;
    assert queue[0] in queue;
    if NamesIn(files, queue[0]) {
      var f :| f in files && (queue[0] in f.interfaces || queue[0] in f.aliases);
      assert queue[0] in f.interfaces.Keys + f.aliases.Keys;
    }
  }

  lemma NoMentions(files: seq<ParsedFile>, overrides: set<string>, name: string)
    requires name in overrides || FirstInterface(files, name).None?
    ensures Mentions(files, overrides, name) == {}
  {}

  lemma MentionsAreWords(files: seq<ParsedFile>, overrides: set<string>, name: string)
    requires name !in overrides && FirstInterface(files, name).Some?
    ensures forall t :: t in Mentions(files, overrides, name)
                        <==> t in AllWords(FirstInterface(files, name).value) && NamesIn(files, t)
  {
    hide NamesIn;
  }

  lemma NotFoundIsRoot(files: seq<ParsedFile>, overrides: set<string>, roots: seq<string>, seen: set<string>,
                       queue: seq<string>)
    requires queue != [] && Frontier(files, overrides, roots, seen, queue)
    requires FirstInterface(files, queue[0]).None? && FirstAlias(files, queue[0]).None?
    ensures queue[0] in roots && !NamesIn(files, queue[0])
  {
    hide NamesIn, Reachable, Mentions;
    assert queue[0] in queue;
    DeclaredHasEntry(files, queue[0]);
  }

  lemma RootsDescribed(files: seq<ParsedFile>, overrides: set<string>, roots: seq<string>, out: map<string, Extracted>)
    requires forall n :: n in out <==> Reachable(files, overrides, roots, n)
    requires forall n <- out :: Some(out[n]) == Describe(files, overrides, n)
    ensures forall root <- roots :: root in overrides || NamesIn(files, root)
  {
    hide NamesIn, Reachable;
    forall root <- roots ensures root in overrides || NamesIn(files, root) {
      ReachRoot(files, overrides, roots, root);
      DeclaredHasEntry(files, root);
    }
  }

  // ---------------------------------------------------------------------
  // What the result depends on

  /** Reachability, so the result's keys, depends on the roots as a set only. */
  lemma RootOrderIrrelevant(files: seq<ParsedFile>, overrides: set<string>, roots: seq<string>, other: seq<string>,
                            name: string)
    requires forall n :: n in roots <==> n in other
    ensures Reachable(files, overrides, roots, name) <==> Reachable(files, overrides, other, name)
  {
    hide Links;
    if Reachable(files, overrides, roots, name) {
      var p :| Path(files, overrides, roots, p) && p[|p| - 1] == name;
      assert Path(files, overrides, other, p);
    }
    if Reachable(files, overrides, other, name) {
      var p :| Path(files, overrides, other, p) && p[|p| - 1] == name;
      assert Path(files, overrides, roots, p);
    }
  }

  /** The result is determined by the files and the set of roots, whatever the order of the roots. */
  lemma ClosureIsUnique(files: seq<ParsedFile>, overrides: set<string>, roots: seq<string>, other: seq<string>,
                        a: map<string, Extracted>, b: map<string, Extracted>)
    requires forall n :: n in roots <==> n in other
    requires IsClosure(files, overrides, roots, a) && IsClosure(files, overrides, other, b)
    ensures a == b
  {
    hide Reachable, Describe, EntryOf;
    forall n ensures n in a <==> n in b {
      RootOrderIrrelevant(files, overrides, roots, other, n);
    }
    forall n <- a ensures a[n] == b[n] {
      EntryExactly(files, overrides, n, a[n]);
      EntryExactly(files, overrides, n, b[n]);
    }
  }
}
