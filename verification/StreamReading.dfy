/**
 The streaming verdict read off the bubbles' texts: what it is to be blank, to occur, to
 occur twice and to be an opening of the reply is said here of pieces of text put
 together, without the oracle's own operations.
 */
module StreamReading {
  import opened StreamOracle

  // ---------------------------------------------------------------------
  // Pieces of text

  /** A character that str.strip removes, by its code. */
  predicate Blank(c: char) {
    c as int in {9, 10, 11, 12, 13, 28, 29, 30, 31, 32, 133, 160, 5760, 8192, 8193, 8194, 8195, 8196, 8197, 8198,
                 8199, 8200, 8201, 8202, 8232, 8233, 8239, 8287, 12288}
  }

  predicate AllBlank(s: string) {
    forall c <- s :: Blank(c)
  }

  /** `t` is `u` with blanks before and after, and `u` neither begins nor ends with one. */
  ghost predicate Trims(t: string, u: string) {
    && (u == "" || (!Blank(u[0]) && !Blank(u[|u| - 1])))
    && exists a, b :: t == a + u + b && AllBlank(a) && AllBlank(b)
  }

  ghost predicate Occurs(t: string, p: string) {
    exists a, b :: t == a + p + b
  }

  ghost predicate Twice(t: string, p: string) {
    exists a, b, c :: t == a + p + b + p + c
  }

  /** An opening of the reply, of 1 to 64 characters, twice in a row. */
  ghost predicate OpeningTwiceIn(t: string, final: string) {
    exists n :: 1 <= n <= 64 && n <= |final| && Occurs(t, final[..n] + final[..n])
  }

  /** Blanks set aside, `t` is an opening of the reply, shorter than it, of at least `least` characters. */
  ghost predicate OpeningOf(t: string, final: string, least: nat) {
    exists u :: Trims(t, u) && |u| >= least && u != final && u <= final
  }

  /** The reply is split over the bubbles: two of them hold openings of it, or one does while another holds it whole. */
  ghost predicate SplitOver(texts: seq<string>, final: string) {
    || (exists i, j :: 0 <= i < j < |texts| && OpeningOf(texts[i], final, 1) && OpeningOf(texts[j], final, 1))
    || (&& (exists i :: 0 <= i < |texts| && OpeningOf(texts[i], final, 1))
        && (exists i :: 0 <= i < |texts| && Occurs(texts[i], final))
        && (exists i, j :: 0 <= i < j < |texts| && texts[i] != "" && texts[j] != ""))
  }

  // ---------------------------------------------------------------------
  // The oracle's operations mean the same

  lemma BlankExactly(c: char)
    ensures IsSpace(c) <==> Blank(c)
  {
  }

  lemma {:induction false} LeftStripped(t: string) returns (a: string)
    ensures t == a + StripLeft(t) && AllBlank(a)
    ensures StripLeft(t) != "" ==> !Blank(StripLeft(t)[0])
  {
    if t != "" && IsSpace(t[0]) {
      BlankExactly(t[0]);
      var rest := LeftStripped(t[1..]);
      a := [t[0]] + rest;
    } else {
      a := "";
      if t != "" {
        BlankExactly(t[0]);
      }
    }
  }

  lemma {:induction false} RightStripped(t: string) returns (b: string)
    ensures t == StripRight(t) + b && AllBlank(b)
    ensures StripRight(t) != "" ==> !Blank(StripRight(t)[|StripRight(t)| - 1])
    decreases |t|
  {
    if t != "" && IsSpace(t[|t| - 1]) {
      BlankExactly(t[|t| - 1]);
      var rest := RightStripped(t[..|t| - 1]);
      b := rest + [t[|t| - 1]];
      assert t == t[..|t| - 1] + [t[|t| - 1]];
    } else {
      b := "";
      if t != "" {
        BlankExactly(t[|t| - 1]);
      }
    }
  }

  lemma StripTrims(t: string)
    ensures Trims(t, Strip(t))
  {
    hide StripLeft, StripRight, Blank;
    var a := LeftStripped(t);
    var mid := StripLeft(t);
    var b := RightStripped(mid);
    assert Strip(t) <= mid;
    assert t == a + Strip(t) + b;
  }

  /** What lies between the blanks is determined. */
  lemma TrimsOnce(t: string, u: string, v: string)
    requires Trims(t, u) && Trims(t, v)
    ensures u == v
  {
    hide Blank;
    var a, b :| t == a + u + b && AllBlank(a) && AllBlank(b);
    var c, d :| t == c + v + d && AllBlank(c) && AllBlank(d);
    NotLater(t, a, u, b, c, v, d);
    NotLater(t, c, v, d, a, u, b);
    if u != "" && v != "" {
      assert t[|a|..|a| + |u|] == u && t[|c|..|c| + |v|] == v;
    }
  }

  /** Nothing that is not blank lies before `c` or after `v`. */
  lemma NotLater(t: string, a: string, u: string, b: string, c: string, v: string, d: string)
    requires t == a + u + b && t == c + v + d && AllBlank(c) && AllBlank(d)
    requires u == "" || (!Blank(u[0]) && !Blank(u[|u| - 1]))
    ensures u != "" ==> v != "" && |c| <= |a| && |a| + |u| <= |c| + |v|
  {
    hide Blank;
    if u != "" {
      assert t[|a|] == u[0] && t[|a| + |u| - 1] == u[|u| - 1];
      forall i | 0 <= i < |c| ensures Blank(t[i]) {
        assert t[i] == c[i] && c[i] in c;
      }
      forall i | |c| + |v| <= i < |t| ensures Blank(t[i]) {
        assert t[i] == d[i - |c| - |v|] && d[i - |c| - |v|] in d;
      }
    }
  }

  /** strip leaves what lies between the first and the last character that is not blank. */
  lemma StripExactly(t: string, u: string)
    ensures Strip(t) == u <==> Trims(t, u)
  {
    hide Strip, Trims;
    StripTrims(t);
    if Trims(t, u) {
      TrimsOnce(t, Strip(t), u);
    }
  }

  lemma OccursAtExactly(t: string, p: string, i: int)
    ensures OccursAt(t, p, i) ==> t == t[..i] + p + t[i + |p|..]
  {
  }

  lemma OccursBetween(t: string, a: string, p: string, b: string)
    requires t == a + p + b
    ensures OccursAt(t, p, |a|)
  {
    assert t[|a|..|a| + |p|] == p;
  }

  lemma ContainsExactly(t: string, p: string)
    ensures Contains(t, p) <==> Occurs(t, p)
  {
    hide OccursAt;
    if i :| 0 <= i <= |t| && OccursAt(t, p, i) {
      OccursAtExactly(t, p, i);
    }
    if Occurs(t, p) {
      var a, b :| t == a + p + b;
      OccursBetween(t, a, p, b);
    }
  }

  lemma TwoPlaces(t: string, p: string, i: int, j: int)
    requires 0 <= i && i + |p| <= j && OccursAt(t, p, i) && OccursAt(t, p, j)
    ensures Twice(t, p)
  {
    hide OccursAt;
    OccursAtExactly(t, p, i);
    OccursAtExactly(t, p, j);
    FitsInside(t, p, j);
    var rest := t[i + |p|..];
    assert rest == rest[..j - i - |p|] + rest[j - i - |p|..];
    assert t[j..] == rest[j - i - |p|..];
    assert t[j..] == p + t[j + |p|..] by {
      FollowsHere(t, p, j);
    }
    assert t == t[..i] + p + rest[..j - i - |p|] + p + t[j + |p|..];
  }

  lemma FollowsHere(t: string, p: string, j: int)
    requires OccursAt(t, p, j)
    ensures t[j..] == p + t[j + |p|..]
  {
  }

  lemma RepeatedExactly(t: string, p: string)
    ensures Repeated(t, p) <==> Twice(t, p)
  {
    hide OccursAt;
    if i, j :| 0 <= i && i + |p| <= j && OccursAt(t, p, i) && OccursAt(t, p, j) {
      TwoPlaces(t, p, i, j);
    }
    if Twice(t, p) {
      var a, b, c :| t == a + p + b + p + c;
      PiecesRepeat(t, a, b, c, p);
    }
  }

  lemma PiecesRepeat(t: string, a: string, b: string, c: string, p: string)
    requires t == a + p + b + p + c
    ensures Repeated(t, p)
  {
    hide OccursAt;
    var front := a + p + b;
    assert a + p + (b + p + c) == a + p + b + p + c;
    OccursBetween(t, a, p, b + p + c);
    OccursBetween(t, front, p, c);
    assert |a| + |p| <= |front|;
  }

  lemma DoubledExactly(t: string, final: string)
    ensures Doubled(t, final) <==> OpeningTwiceIn(t, final)
  {
    hide Contains, Occurs;
    forall n | 1 <= n <= |final|
      ensures DoubledBy(t, final, n) <==> n <= 64 && Occurs(t, final[..n] + final[..n])
    {
      ContainsExactly(t, final[..n] + final[..n]);
    }
  }

  lemma CleanExactly(t: string, final: string)
    ensures CleanBubble(t, final) <==> !OpeningTwiceIn(t, final) && !Twice(t, final)
  {
    hide Doubled, Repeated, OpeningTwiceIn, Twice;
    DoubledExactly(t, final);
    RepeatedExactly(t, final);
  }

  lemma OpeningsExactly(t: string, final: string)
    ensures IsPartial(t, final) <==> OpeningOf(t, final, 1)
    ensures IsProperPrefix(t, final) <==> OpeningOf(t, final, 4)
  {
    hide Strip, Trims;
    forall u ensures Strip(t) == u <==> Trims(t, u) {
      StripExactly(t, u);
    }
    assert Trims(t, Strip(t));
  }

  // ---------------------------------------------------------------------
  // Counting bubbles

  lemma {:induction false} PartialsCount(texts: seq<string>, final: string)
    ensures Partials(texts, final) >= 1 <==> exists i :: 0 <= i < |texts| && IsPartial(texts[i], final)
    ensures Partials(texts, final) >= 2
            <==> exists i, j :: 0 <= i < j < |texts| && IsPartial(texts[i], final) && IsPartial(texts[j], final)
    decreases |texts|
  {
    hide IsPartial;
    if texts != [] {
      var n := |texts| - 1;
      PartialsCount(texts[..n], final);
      assert forall i :: 0 <= i < n ==> texts[..n][i] == texts[i];
    }
  }

  lemma {:induction false} FullsCount(texts: seq<string>, final: string)
    ensures Fulls(texts, final) >= 1 <==> exists i :: 0 <= i < |texts| && Contains(texts[i], final)
    decreases |texts|
  {
    hide Contains;
    if texts != [] {
      var n := |texts| - 1;
      FullsCount(texts[..n], final);
      assert forall i :: 0 <= i < n ==> texts[..n][i] == texts[i];
    }
  }

  lemma {:induction false} NonEmptyCount(texts: seq<string>)
    ensures |NonEmpty(texts)| >= 1 <==> exists i :: 0 <= i < |texts| && texts[i] != ""
    ensures |NonEmpty(texts)| >= 2 <==> exists i, j :: 0 <= i < j < |texts| && texts[i] != "" && texts[j] != ""
    decreases |texts|
  {
    if texts != [] {
      var n := |texts| - 1;
      NonEmptyCount(texts[..n]);
      assert forall i :: 0 <= i < n ==> texts[..n][i] == texts[i];
    }
  }

  lemma {:induction false} EmptyTextsCountForNothing(texts: seq<string>, final: string)
    requires final != ""
    ensures Partials(NonEmpty(texts), final) == Partials(texts, final)
    ensures Fulls(NonEmpty(texts), final) == Fulls(texts, final)
    ensures FirstTextFault(NonEmpty(texts), final) == FirstTextFault(texts, final)
    decreases |texts|
  {
    hide IsPartial, Contains, Doubled, CountFrom, NonEmpty;
    if texts == [] {
      NothingCounted(final);
    } else {
      var front, t := texts[..|texts| - 1], texts[|texts| - 1];
      EmptyTextsCountForNothing(front, final);
      OneMoreBubble(front, t, final);
      NothingInNothing(final);
      EmptyBubbleHasNoFault(final);
      assert front + [t] == texts;
      assert (NonEmpty(front) + [t])[..|NonEmpty(front)|] == NonEmpty(front);
      assert NonEmpty(front) + [] == NonEmpty(front);
    }
  }

  lemma EmptyBubbleHasNoFault(final: string)
    requires final != ""
    ensures TextFault("", final) == Clean
  {
    EmptyBubbleIsClean(final);
    TextCleanExactly("", final);
  }

  lemma SplitExactly(texts: seq<string>, final: string)
    requires final != ""
    ensures SplitRender(NonEmpty(texts), final) <==> SplitOver(texts, final)
  {
    hide IsPartial, Contains, OpeningOf, Occurs, NonEmpty, Partials, Fulls;
    EmptyTextsCountForNothing(texts, final);
    PartialsCount(texts, final);
    FullsCount(texts, final);
    NonEmptyCount(texts);
    forall i | 0 <= i < |texts|
      ensures IsPartial(texts[i], final) <==> OpeningOf(texts[i], final, 1)
      ensures Contains(texts[i], final) <==> Occurs(texts[i], final)
    {
      OpeningsExactly(texts[i], final);
      ContainsExactly(texts[i], final);
    }
  }

  // ---------------------------------------------------------------------
  // The verdict

  ghost predicate CleanText(t: string, final: string) {
    !OpeningTwiceIn(t, final) && !Twice(t, final)
  }

  ghost predicate CleanReading(s: Sample, final: string) {
    (forall t <- s.texts :: CleanText(t, final)) && !SplitOver(s.texts, final)
  }

  /** While the prompt ran, some bubble held an opening of the reply of 4 or more characters, shorter than the reply. */
  ghost predicate SeenStreaming(samples: seq<Sample>, final: string) {
    exists s <- samples :: s.live && exists t <- s.texts :: OpeningOf(t, final, 4)
  }

  ghost predicate SeenWhole(samples: seq<Sample>, final: string) {
    exists s <- samples :: exists t <- s.texts :: Occurs(t, final)
  }

  lemma CleanSampleExactly(s: Sample, final: string)
    requires final != ""
    ensures CleanSample(s, final) <==> CleanReading(s, final)
  {
    hide CleanBubble, SplitOver, SplitRender, OpeningTwiceIn, Twice;
    SplitExactly(s.texts, final);
    forall t <- s.texts ensures CleanBubble(t, final) <==> CleanText(t, final) {
      CleanExactly(t, final);
    }
  }

  lemma SeenExactly(samples: seq<Sample>, final: string)
    ensures StreamSeen(samples, final) <==> SeenStreaming(samples, final)
    ensures ReplySeen(samples, final) <==> SeenWhole(samples, final)
  {
    hide IsProperPrefix, OpeningOf, Contains, Occurs;
    forall s <- samples, t <- s.texts
      ensures IsProperPrefix(t, final) <==> OpeningOf(t, final, 4)
      ensures Contains(t, final) <==> Occurs(t, final)
    {
      OpeningsExactly(t, final);
      ContainsExactly(t, final);
    }
  }

  /** The verdict in full but for the reason of the first fault: no reply text, a fault in some sample, growth not seen
      while the prompt ran, the reply not seen whole, or clean, in this order. */
  lemma VerdictExactly(samples: seq<Sample>, final: string)
    ensures var v := VerdictOf(samples, final);
            if final == "" then v == Verdict(false, MissingFinalText)
            else if exists s <- samples :: !CleanReading(s, final) then !v.ok
            else if !SeenStreaming(samples, final) then v == Verdict(false, StreamingNotObserved)
            else if !SeenWhole(samples, final) then v == Verdict(false, ReplyNeverObserved)
            else v == Verdict(true, Clean)
  {
    hide CleanReading, CleanSample, SeenStreaming, SeenWhole, StreamSeen, ReplySeen, FirstFault;
    if final != "" {
      SamplesClean(samples, final);
      SeenExactly(samples, final);
      forall s <- samples ensures CleanSample(s, final) <==> CleanReading(s, final) {
        CleanSampleExactly(s, final);
      }
    }
  }

  /** The reason of a fault is that of the first sample at fault: of its first bubble at fault, an opening twice in a
      row before the reply twice, and only then the split. */
  lemma FaultReason(samples: seq<Sample>, final: string, i: nat, j: nat)
    requires final != "" && i < |samples| && forall k :: 0 <= k < i ==> CleanReading(samples[k], final)
    requires j <= |samples[i].texts| && forall k :: 0 <= k < j ==> CleanText(samples[i].texts[k], final)
    ensures j < |samples[i].texts| && OpeningTwiceIn(samples[i].texts[j], final)
            ==> VerdictOf(samples, final) == Verdict(false, DoubledPrefixInSample)
    ensures j < |samples[i].texts| && !OpeningTwiceIn(samples[i].texts[j], final) && Twice(samples[i].texts[j], final)
            ==> VerdictOf(samples, final) == Verdict(false, FinalTextRepeatedInBubble)
    ensures j == |samples[i].texts| && SplitOver(samples[i].texts, final)
            ==> VerdictOf(samples, final) == Verdict(false, DuplicatePartialAcrossBubbles)
  {
    hide CleanReading, CleanText, OpeningTwiceIn, Twice, SplitOver, VerdictOf, TextFault, NonEmpty, SplitRender;
    var texts := samples[i].texts;
    CleanBefore(samples, final, i);
    CleanTextsBefore(texts, final, j);
    EmptyTextsCountForNothing(texts, final);
    SplitExactly(texts, final);
    if j < |texts| {
      TextFaultReason(texts[j], final);
      assert texts[..j + 1][..j] == texts[..j];
      assert FirstTextFault(texts[..j + 1], final) == TextFault(texts[j], final);
      if TextFault(texts[j], final) != Clean {
        LaterTextsKeepFault(texts, final, j + 1);
        SampleFaultDecides(samples, final, i);
      }
    } else {
      assert texts[..j] == texts;
      if SplitOver(texts, final) {
        SampleFaultDecides(samples, final, i);
      }
    }
  }

  lemma TextFaultReason(t: string, final: string)
    requires final != ""
    ensures TextFault(t, final)
            == if OpeningTwiceIn(t, final) then DoubledPrefixInSample
               else if Twice(t, final) then FinalTextRepeatedInBubble else Clean
  {
    hide Doubled, Repeated, OpeningTwiceIn, Twice, OccursAt;
    DoubledExactly(t, final);
    RepeatedExactly(t, final);
    TextCleanExactly(t, final);
  }

  lemma CleanBefore(samples: seq<Sample>, final: string, i: nat)
    requires final != "" && i <= |samples| && forall k :: 0 <= k < i ==> CleanReading(samples[k], final)
    ensures FirstFault(samples[..i], final) == Clean
  {
    hide CleanReading, CleanSample, FirstFault;
    SamplesClean(samples[..i], final);
    forall s <- samples[..i] ensures CleanSample(s, final) {
      var k :| 0 <= k < i && samples[..i][k] == s;
      assert samples[k] == s;
      CleanSampleExactly(s, final);
    }
  }

  lemma CleanTextsBefore(texts: seq<string>, final: string, j: nat)
    requires final != "" && j <= |texts| && forall k :: 0 <= k < j ==> CleanText(texts[k], final)
    ensures FirstTextFault(texts[..j], final) == Clean
  {
    hide CleanText, CleanBubble, FirstTextFault;
    TextsClean(texts[..j], final);
    forall t <- texts[..j] ensures CleanBubble(t, final) {
      var k :| 0 <= k < j && texts[..j][k] == t;
      assert texts[k] == t;
      CleanTextIsBubble(t, final);
    }
  }

  lemma CleanTextIsBubble(t: string, final: string)
    ensures CleanText(t, final) <==> CleanBubble(t, final)
  {
    hide OpeningTwiceIn, Twice, CleanBubble;
    CleanExactly(t, final);
  }

  lemma SampleFaultDecides(samples: seq<Sample>, final: string, i: nat)
    requires final != "" && i < |samples| && FirstFault(samples[..i], final) == Clean
    requires SampleFault(NonEmpty(samples[i].texts), final) != Clean
    ensures VerdictOf(samples, final) == Verdict(false, SampleFault(NonEmpty(samples[i].texts), final))
  {
    hide SampleFault, StreamSeen, ReplySeen;
    assert samples[..i + 1][..i] == samples[..i];
    LaterSamplesKeepFault(samples, final, i + 1);
  }

  /** Only what was seen while the prompt ran counts: a run of settled samples never passes. */
  lemma SettledRunsFail(samples: seq<Sample>, final: string)
    requires forall s <- samples :: !s.live
    ensures !VerdictOf(samples, final).ok
  {
    hide CleanReading, SeenWhole;
    VerdictExactly(samples, final);
  }

  /** Nor does one whose live bubbles show at most 3 characters, or the whole trimmed reply. */
  lemma ShortOrWholeFails(samples: seq<Sample>, final: string)
    requires Trims(final, final)
    requires forall s <- samples :: s.live ==> forall t <- s.texts :: |t| <= 3 || t == final
    ensures !VerdictOf(samples, final).ok
  {
    hide CleanReading, SeenWhole, Trims;
    VerdictExactly(samples, final);
    forall s <- samples, t <- s.texts | s.live ensures !OpeningOf(t, final, 4) {
      forall u | Trims(t, u) ensures |u| < 4 || u == final {
        TrimsIsShorter(t, u);
        if t == final {
          TrimsOnce(t, u, final);
        }
      }
    }
  }

  lemma TrimsIsShorter(t: string, u: string)
    requires Trims(t, u)
    ensures |u| <= |t|
  {
  }
}
