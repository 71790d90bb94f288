/** The oracle that judges whether a streamed reply was rendered exactly once. */
module StreamOracle {
  // ---------------------------------------------------------------------
  // Python's string operations

  predicate OccursAt(text: string, pat: string, i: int) {
    0 <= i && i + |pat| <= |text| && text[i..i + |pat|] == pat
  }

  /** pat in text */
  predicate Contains(text: string, pat: string) {
    exists i :: 0 <= i <= |text| && OccursAt(text, pat, i)
  }

  /** text.count(pat) from position `i`: occurrences counted left to right, none overlapping the one before. */
  function CountFrom(text: string, pat: string, i: nat): nat
    requires pat != ""
    decreases |text| - i
  {
    if i + |pat| > |text| then 0
    else if OccursAt(text, pat, i) then 1 + CountFrom(text, pat, i + |pat|)
    else CountFrom(text, pat, i + 1)
  }

  /** str.isspace */
  predicate IsSpace(c: char) {
    var n := c as int;
    0x09 <= n <= 0x0D || 0x1C <= n <= 0x20 || n == 0x85 || n == 0xA0 || n == 0x1680
    || 0x2000 <= n <= 0x200A || n == 0x2028 || n == 0x2029 || n == 0x202F || n == 0x205F || n == 0x3000
  }

  function StripLeft(t: string): string {
    if t != "" && IsSpace(t[0]) then StripLeft(t[1..]) else t
  }

  function StripRight(t: string): string
    decreases |t|
  {
    if t != "" && IsSpace(t[|t| - 1]) then StripRight(t[..|t| - 1]) else t
  }

  function Strip(t: string): string {
    StripRight(StripLeft(t))
  }

  // ---------------------------------------------------------------------
  // The verdict

  const MAX_PREFIX := 64

  function Min(a: nat, b: nat): nat {
    if a <= b then a else b
  }

  predicate DoubledBy(text: string, full: string, n: nat) {
    1 <= n <= Min(MAX_PREFIX, |full|) && Contains(text, full[..n] + full[..n])
  }

  /** Some prefix of `full`, of 1 to 64 characters, occurs twice in a row. */
  predicate Doubled(text: string, full: string) {
    exists n :: 1 <= n <= |full| && DoubledBy(text, full, n)
  }

  datatype Reason =
    | MissingFinalText
    | DoubledPrefixInSample
    | FinalTextRepeatedInBubble
    | DuplicatePartialAcrossBubbles
    | StreamingNotObserved
    | ReplyNeverObserved
    | Clean

  datatype Verdict = Verdict(ok: bool, reason: Reason)

  /** One observation: `live` while the prompt ran; the bubbles' texts at that instant. */
  datatype Sample = Sample(live: bool, texts: seq<string>)

  function NonEmpty(texts: seq<string>): seq<string>
    decreases |texts|
  {
    if texts == [] then []
    else NonEmpty(texts[..|texts| - 1]) + (if texts[|texts| - 1] == "" then [] else [texts[|texts| - 1]])
  }

  predicate IsPartial(t: string, final: string) {
    Strip(t) != "" && Strip(t) != final && Strip(t) <= final
  }

  predicate IsProperPrefix(t: string, final: string) {
    |Strip(t)| >= 4 && Strip(t) != final && Strip(t) <= final
  }

  function TextFault(t: string, final: string): Reason
    requires final != ""
  {
    if Doubled(t, final) then DoubledPrefixInSample
    else if CountFrom(t, final, 0) > 1 then FinalTextRepeatedInBubble
    else Clean
  }

  function FirstTextFault(texts: seq<string>, final: string): Reason
    requires final != ""
    decreases |texts|
  {
    if texts == [] then Clean
    else
      var before := FirstTextFault(texts[..|texts| - 1], final);
      if before != Clean then before else TextFault(texts[|texts| - 1], final)
  }

  function Partials(texts: seq<string>, final: string): nat
    decreases |texts|
  {
    if texts == [] then 0
    else Partials(texts[..|texts| - 1], final) + (if IsPartial(texts[|texts| - 1], final) then 1 else 0)
  }

  function Fulls(texts: seq<string>, final: string): nat
    decreases |texts|
  {
    if texts == [] then 0
    else Fulls(texts[..|texts| - 1], final) + (if Contains(texts[|texts| - 1], final) then 1 else 0)
  }

  predicate SplitRender(texts: seq<string>, final: string) {
    Partials(texts, final) >= 2 || (Partials(texts, final) >= 1 && Fulls(texts, final) >= 1 && |texts| >= 2)
  }

  function SampleFault(texts: seq<string>, final: string): Reason
    requires final != ""
  {
    if FirstTextFault(texts, final) != Clean then FirstTextFault(texts, final)
    else if SplitRender(texts, final) then DuplicatePartialAcrossBubbles
    else Clean
  }

  function FirstFault(samples: seq<Sample>, final: string): Reason
    requires final != ""
    decreases |samples|
  {
    if samples == [] then Clean
    else
      var before := FirstFault(samples[..|samples| - 1], final);
      if before != Clean then before else SampleFault(NonEmpty(samples[|samples| - 1].texts), final)
  }

  predicate StreamSeen(samples: seq<Sample>, final: string) {
    exists s <- samples :: s.live && exists t <- s.texts :: IsProperPrefix(t, final)
  }

  predicate ReplySeen(samples: seq<Sample>, final: string) {
    exists s <- samples :: exists t <- s.texts :: Contains(t, final)
  }

  function VerdictOf(samples: seq<Sample>, final: string): Verdict {
    if final == "" then Verdict(false, MissingFinalText)
    else if FirstFault(samples, final) != Clean then Verdict(false, FirstFault(samples, final))
    else if !StreamSeen(samples, final) then Verdict(false, StreamingNotObserved)
    else if !ReplySeen(samples, final) then Verdict(false, ReplyNeverObserved)
    else Verdict(true, Clean)
  }

  // ---------------------------------------------------------------------
  // The program

  method ContainsDoubledPrefix(text: string, full: string) returns (found: bool)
    ensures found == Doubled(text, full)
  {
    for n := 1 to Min(MAX_PREFIX, |full|) + 1
      invariant forall k :: 1 <= k < n ==> !DoubledBy(text, full, k)
    {
      var prefix := full[..n];
      if Contains(text, prefix + prefix) {
        assert DoubledBy(text, full, n);
        return true;
      }
    }
    return false;
  }

  lemma NonEmptyKeeps(texts: seq<string>, t: string)
    ensures t in NonEmpty(texts) <==> t in texts && t != ""
    decreases |texts|
  {
    if texts != [] {
      NonEmptyKeeps(texts[..|texts| - 1], t);
      assert texts == texts[..|texts| - 1] + [texts[|texts| - 1]];
    }
  }

  /** The checks on one sample's bubbles: the first failure, or Clean. */
  method CheckSample(texts: seq<string>, final: string) returns (fault: Reason)
    requires final != ""
    ensures fault == SampleFault(texts, final)
  {
    var partials, fulls := 0, 0;
    for i := 0 to |texts|
      invariant FirstTextFault(texts[..i], final) == Clean
    {
      assert texts[..i + 1][..i] == texts[..i];
      var doubled := ContainsDoubledPrefix(texts[i], final);
      if doubled {
        LaterTextsKeepFault(texts, final, i + 1);
        return DoubledPrefixInSample;
      }
      if CountFrom(texts[i], final, 0) > 1 {
        LaterTextsKeepFault(texts, final, i + 1);
        return FinalTextRepeatedInBubble;
      }
    }
    assert texts[..|texts|] == texts;
    for i := 0 to |texts|
      invariant partials == Partials(texts[..i], final) && fulls == Fulls(texts[..i], final)
    {
      assert texts[..i + 1][..i] == texts[..i];
      if IsPartial(texts[i], final) {
        partials := partials + 1;
      }
      if Contains(texts[i], final) {
        fulls := fulls + 1;
      }
    }
    if partials >= 2 || (partials >= 1 && fulls >= 1 && |texts| >= 2) {
      return DuplicatePartialAcrossBubbles;
    }
    return Clean;
  }

  lemma {:induction false} LaterTextsKeepFault(texts: seq<string>, final: string, n: nat)
    requires final != "" && n <= |texts| && FirstTextFault(texts[..n], final) != Clean
    ensures FirstTextFault(texts, final) == FirstTextFault(texts[..n], final)
    decreases |texts|
  {
    if n == |texts| {
      assert texts[..n] == texts;
    } else {
      assert texts[..|texts| - 1][..n] == texts[..n];
      LaterTextsKeepFault(texts[..|texts| - 1], final, n);
    }
  }

  lemma {:induction false} LaterSamplesKeepFault(samples: seq<Sample>, final: string, n: nat)
    requires final != "" && n <= |samples| && FirstFault(samples[..n], final) != Clean
    ensures FirstFault(samples, final) == FirstFault(samples[..n], final)
    decreases |samples|
  {
    if n == |samples| {
      assert samples[..n] == samples;
    } else {
      assert samples[..|samples| - 1][..n] == samples[..n];
      LaterSamplesKeepFault(samples[..|samples| - 1], final, n);
    }
  }

  method Hb2StreamVerdict(samples: seq<Sample>, final: string) returns (v: Verdict)
    ensures v == VerdictOf(samples, final)
  {
    hide IsProperPrefix, Contains, SampleFault, NonEmpty;
    if final == "" {
      return Verdict(false, MissingFinalText);
    }
    var preTerminalSeen, seenReply := false, false;
    for i := 0 to |samples|
      invariant FirstFault(samples[..i], final) == Clean
      invariant preTerminalSeen == StreamSeen(samples[..i], final)
      invariant seenReply == ReplySeen(samples[..i], final)
    {
      var sample := samples[i];
      assert samples[..i + 1][..i] == samples[..i];
      assert samples[..i + 1] == samples[..i] + [sample];
      var texts := NonEmpty(sample.texts);
      var fault := CheckSample(texts, final);
      if fault != Clean {
        LaterSamplesKeepFault(samples, final, i + 1);
        return Verdict(false, fault);
      }
      EmptyTextsDoNotCount(sample.texts, final);
      if sample.live {
        if exists t <- texts :: IsProperPrefix(t, final) {
          preTerminalSeen := true;
        }
        if exists t <- texts :: Contains(t, final) {
          seenReply := true;
        }
      } else if exists t <- texts :: Contains(t, final) {
        seenReply := true;
      }
    }
    assert samples[..|samples|] == samples;
    if !preTerminalSeen {
      return Verdict(false, StreamingNotObserved);
    }
    if !seenReply {
      return Verdict(false, ReplyNeverObserved);
    }
    return Verdict(true, Clean);
  }

  lemma EmptyTextsDoNotCount(texts: seq<string>, final: string)
    requires final != ""
    ensures (exists t <- NonEmpty(texts) :: IsProperPrefix(t, final))
            <==> (exists t <- texts :: IsProperPrefix(t, final))
    ensures (exists t <- NonEmpty(texts) :: Contains(t, final)) <==> (exists t <- texts :: Contains(t, final))
  {
    hide NonEmpty;
    forall t: string ensures t in NonEmpty(texts) <==> t in texts && t != "" {
      NonEmptyKeeps(texts, t);
    }
    assert !IsProperPrefix("", final) && !Contains("", final);
  }

  // ---------------------------------------------------------------------
  // What the verdict is worth

  /** Two copies of `pat` in `text` that do not overlap. */
  ghost predicate Repeated(text: string, pat: string) {
    exists i, j :: 0 <= i && i + |pat| <= j && OccursAt(text, pat, i) && OccursAt(text, pat, j)
  }

  ghost predicate CleanBubble(text: string, final: string) {
    !Doubled(text, final) && !Repeated(text, final)
  }

  lemma {:induction false} CountSees(text: string, pat: string, from: nat)
    requires pat != ""
    ensures CountFrom(text, pat, from) >= 1 <==> exists i :: from <= i && OccursAt(text, pat, i)
    decreases |text| - from
  {
    if from + |pat| <= |text| && !OccursAt(text, pat, from) {
      CountSees(text, pat, from + 1);
    }
  }

  /** Counting left to right without overlaps finds two copies whenever there are two apart from each other. */
  lemma {:induction false} CountSeesTwo(text: string, pat: string, from: nat)
    requires pat != ""
    ensures CountFrom(text, pat, from) >= 2
            <==> exists i, j :: from <= i && i + |pat| <= j && OccursAt(text, pat, i) && OccursAt(text, pat, j)
    decreases |text| - from
  {
    if from + |pat| <= |text| {
      if OccursAt(text, pat, from) {
        CountSees(text, pat, from + |pat|);
      } else {
        CountSeesTwo(text, pat, from + 1);
      }
    }
  }

  lemma TextCleanExactly(text: string, final: string)
    requires final != ""
    ensures TextFault(text, final) == Clean <==> CleanBubble(text, final)
  {
    hide Doubled, OccursAt, CountFrom;
    CountSeesTwo(text, final, 0);
  }

  lemma {:induction false} TextsClean(texts: seq<string>, final: string)
    requires final != ""
    ensures FirstTextFault(texts, final) == Clean <==> forall t <- texts :: CleanBubble(t, final)
    decreases |texts|
  {
    hide CleanBubble, TextFault;
    if texts != [] {
      TextsClean(texts[..|texts| - 1], final);
      TextCleanExactly(texts[|texts| - 1], final);
      assert texts == texts[..|texts| - 1] + [texts[|texts| - 1]];
    }
  }

  ghost predicate CleanSample(s: Sample, final: string) {
    (forall t <- s.texts :: CleanBubble(t, final)) && !SplitRender(NonEmpty(s.texts), final)
  }

  lemma SampleClean(s: Sample, final: string)
    requires final != ""
    ensures SampleFault(NonEmpty(s.texts), final) == Clean <==> CleanSample(s, final)
  {
    hide CleanBubble, FirstTextFault, SplitRender, NonEmpty;
    var texts := NonEmpty(s.texts);
    TextsClean(texts, final);
    EmptyBubbleIsClean(final);
    forall t: string ensures t in texts <==> t in s.texts && t != "" {
      NonEmptyKeeps(s.texts, t);
    }
  }

  lemma EmptyBubbleIsClean(final: string)
    requires final != ""
    ensures CleanBubble("", final)
  {
  }

  lemma {:induction false} SamplesClean(samples: seq<Sample>, final: string)
    requires final != ""
    ensures FirstFault(samples, final) == Clean <==> forall s <- samples :: CleanSample(s, final)
    decreases |samples|
  {
    hide CleanSample, SampleFault, NonEmpty;
    if samples != [] {
      SamplesClean(samples[..|samples| - 1], final);
      SampleClean(samples[|samples| - 1], final);
      assert samples == samples[..|samples| - 1] + [samples[|samples| - 1]];
    }
  }

  /** A run passes exactly when every bubble of every sample is clean, no sample splits the reply over
      bubbles, the reply was seen growing while the prompt ran, and it was seen whole. */
  lemma AcceptedExactly(samples: seq<Sample>, final: string)
    ensures VerdictOf(samples, final).ok
            <==> && final != "" && (forall s <- samples :: CleanSample(s, final))
                 && StreamSeen(samples, final) && ReplySeen(samples, final)
  {
    hide CleanSample, StreamSeen, ReplySeen, FirstFault;
    if final != "" {
      SamplesClean(samples, final);
    }
  }

  /** Soundness: a bubble holding the reply's opening again right before the reply, up to 64 characters of
      it, and a bubble holding the reply twice, are rejected wherever they are seen. */
  lemma DuplicationIsRejected(samples: seq<Sample>, s: Sample, t: string, final: string, n: nat)
    requires s in samples && t in s.texts
    requires (1 <= n <= 64 && n <= |final| && Contains(t, final[..n] + final)) || Repeated(t, final)
    ensures !VerdictOf(samples, final).ok
  {
    hide StreamSeen, ReplySeen, SplitRender, VerdictOf, Repeated;
    AcceptedExactly(samples, final);
    if 1 <= n <= 64 && n <= |final| && Contains(t, final[..n] + final) {
      OpeningTwice(t, final, n);
    }
    assert !CleanBubble(t, final);
    assert final != "" ==> !CleanSample(s, final);
  }

  lemma OpeningTwice(t: string, final: string, n: nat)
    requires 1 <= n <= 64 && n <= |final| && Contains(t, final[..n] + final)
    ensures Doubled(t, final)
  {
    var i :| 0 <= i <= |t| && OccursAt(t, final[..n] + final, i);
    assert t[i..i + n + |final|][..n + n] == t[i..i + n + n];
    assert OccursAt(t, final[..n] + final[..n], i);
    assert DoubledBy(t, final, n);
  }

  /** A sample shows no bubble at all, the older bubbles of the chat, or these and one that holds an opening of the
      reply. */
  predicate ShowsBeside(texts: seq<string>, prior: seq<string>, final: string) {
    || texts == [] || texts == prior
    || (|texts| == |prior| + 1 && texts[..|prior|] == prior && texts[|prior|] <= final)
  }

  /** An older bubble that is not taken for the reply, nor for a part of it. */
  predicate Foreign(o: string, final: string) {
    !IsPartial(o, final) && !Contains(o, final)
  }

  lemma OpeningIsClean(t: string, final: string)
    requires final != "" && t <= final && !Doubled(final, final)
    ensures CleanBubble(t, final)
  {
    if n :| 1 <= n <= |final| && DoubledBy(t, final, n) {
      var i :| 0 <= i <= |t| && OccursAt(t, final[..n] + final[..n], i);
      assert t == final[..|t|];
      assert OccursAt(final, final[..n] + final[..n], i);
      assert DoubledBy(final, final, n);
    }
  }

  lemma WholeOpening(t: string, final: string)
    requires t <= final
    ensures Contains(t, final) <==> t == final
  {
    if t == final {
      assert OccursAt(t, final, 0);
    }
  }

  lemma OneMoreBubble(p: seq<string>, t: string, final: string)
    ensures NonEmpty(p + [t]) == NonEmpty(p) + (if t == "" then [] else [t])
    ensures Partials(p + [t], final) == Partials(p, final) + (if IsPartial(t, final) then 1 else 0)
    ensures Fulls(p + [t], final) == Fulls(p, final) + (if Contains(t, final) then 1 else 0)
  {
    assert (p + [t])[..|p|] == p;
  }

  lemma NothingCounted(final: string)
    ensures NonEmpty([]) == [] && Partials([], final) == 0 && Fulls([], final) == 0
  {
  }

  lemma {:induction false} OlderCounts(p: seq<string>, final: string)
    requires final != ""
    ensures Partials(NonEmpty(p), final) == 0 <==> forall o <- p :: !IsPartial(o, final)
    ensures Fulls(NonEmpty(p), final) == 0 <==> forall o <- p :: !Contains(o, final)
    decreases |p|
  {
    hide NonEmpty, Partials, Fulls, IsPartial, Contains;
    if p == [] {
      NothingCounted(final);
    } else {
      var front, t := p[..|p| - 1], p[|p| - 1];
      assert NonEmpty(front) + [] == NonEmpty(front);
      OlderCounts(front, final);
      OneMoreBubble(front, t, final);
      OneMoreBubble(NonEmpty(front), t, final);
      NothingInNothing(final);
      assert p == front + [t];
    }
  }

  lemma NothingInNothing(final: string)
    requires final != ""
    ensures !IsPartial("", final) && !Contains("", final)
  {
  }

  /** Beside foreign bubbles the reply counts as split only when, whole, it is not trimmed. */
  lemma SplitBeside(prior: seq<string>, t: string, final: string)
    requires final != "" && t <= final && forall o <- prior :: Foreign(o, final)
    ensures !SplitRender(NonEmpty(prior), final)
    ensures SplitRender(NonEmpty(prior + [t]), final)
            <==> t == final && IsPartial(final, final) && NonEmpty(prior) != []
  {
    hide NonEmpty, Partials, Fulls, IsPartial, Contains;
    OlderCounts(prior, final);
    OneMoreBubble(prior, t, final);
    OneMoreBubble(NonEmpty(prior), t, final);
    assert NonEmpty(prior) + [] == NonEmpty(prior);
    NothingInNothing(final);
    WholeOpening(t, final);
  }

  lemma ForeignIsClean(o: string, final: string)
    requires Foreign(o, final)
    ensures CleanBubble(o, final) <==> !Doubled(o, final)
  {
    hide Doubled, IsPartial;
    forall i, j | 0 <= i && i + |final| <= j ensures !(OccursAt(o, final, i) && OccursAt(o, final, j)) {
      FitsInside(o, final, i);
    }
  }

  /** Shown whole beside an older bubble, the reply counts as a part of itself, for it is not trimmed. */
  predicate SplitWhole(prior: seq<string>, final: string) {
    IsPartial(final, final) && NonEmpty(prior) != []
  }

  /** Sample by sample: clean exactly when what it shows is. */
  lemma CleanBeside(s: Sample, prior: seq<string>, final: string)
    requires final != "" && ShowsBeside(s.texts, prior, final) && !Doubled(final, final)
    requires forall o <- prior :: Foreign(o, final) && !Doubled(o, final)
    ensures CleanSample(s, final) <==> !(s.texts == prior + [final] && SplitWhole(prior, final))
  {
    hide Doubled, NonEmpty, IsPartial, Contains, SplitRender, CleanBubble;
    forall o <- prior ensures CleanBubble(o, final) {
      ForeignIsClean(o, final);
    }
    SplitBeside(prior, final, final);
    if s.texts == [] {
      NoBubbleNeverSplits(final);
    } else if s.texts != prior {
      var t := s.texts[|prior|];
      assert s.texts == prior + [t];
      SplitBeside(prior, t, final);
      OpeningIsClean(t, final);
    }
  }

  lemma NoBubbleNeverSplits(final: string)
    ensures !SplitRender(NonEmpty([]), final)
  {
  }

  /** Whole is seen only where the reply's own bubble is. */
  lemma WholeBeside(s: Sample, prior: seq<string>, final: string)
    requires final != "" && ShowsBeside(s.texts, prior, final) && forall o <- prior :: Foreign(o, final)
    ensures (exists t <- s.texts :: Contains(t, final)) <==> s.texts == prior + [final]
  {
    hide Contains, IsPartial;
    if s.texts != [] && s.texts != prior {
      var t := s.texts[|prior|];
      assert s.texts == prior + [t];
      WholeOpening(t, final);
    }
    WholeOpening(final, final);
  }

  /** Completeness: beside older bubbles that are foreign to it, a reply growing in one bubble passes exactly when its
      growth was seen while the prompt ran, it was seen whole, no opening of it stands twice in a row in it or in an
      older bubble, and, were it not trimmed, no older bubble is shown. */
  lemma GrowingReplyPassesExactly(samples: seq<Sample>, prior: seq<string>, final: string)
    requires final != "" && forall s <- samples :: ShowsBeside(s.texts, prior, final)
    requires forall o <- prior :: Foreign(o, final)
    ensures VerdictOf(samples, final).ok
            <==> && StreamSeen(samples, final) && (exists s <- samples :: s.texts == prior + [final])
                 && !Doubled(final, final) && (forall o <- prior :: !Doubled(o, final)) && !SplitWhole(prior, final)
  {
    hide StreamSeen, Doubled, SplitWhole, CleanSample, VerdictOf, Contains, ShowsBeside, Foreign;
    AcceptedExactly(samples, final);
    forall s <- samples ensures (exists t <- s.texts :: Contains(t, final)) <==> s.texts == prior + [final] {
      WholeBeside(s, prior, final);
    }
    if s :| s in samples && s.texts == prior + [final] {
      if !Doubled(final, final) && forall o <- prior :: !Doubled(o, final) {
        forall r <- samples
          ensures CleanSample(r, final) <==> !(r.texts == prior + [final] && SplitWhole(prior, final))
        {
          CleanBeside(r, prior, final);
        }
      } else {
        DoubledIsNotClean(s, prior, final);
      }
    }
  }

  lemma DoubledIsNotClean(s: Sample, prior: seq<string>, final: string)
    requires s.texts == prior + [final]
    requires Doubled(final, final) || exists o <- prior :: Doubled(o, final)
    ensures !CleanSample(s, final)
  {
    hide Doubled, SplitRender, NonEmpty;
    var t :| t in s.texts && Doubled(t, final);
    assert !CleanBubble(t, final);
  }

  /** Rendered once and observed: growing live, and whole, in the one bubble beside the older ones. */
  predicate Observed(samples: seq<Sample>, prior: seq<string>, final: string) {
    && (forall s <- samples :: ShowsBeside(s.texts, prior, final))
    && (exists s <- samples :: s.live && |s.texts| == |prior| + 1 && s.texts[..|prior|] == prior
                               && s.texts[|prior|] <= final && IsProperPrefix(s.texts[|prior|], final))
    && (exists s <- samples :: s.texts == prior + [final])
  }

  lemma PartOfReplySplits(prior: seq<string>, t: string, final: string)
    requires final != "" && t <= final && IsPartial(t, final)
    requires exists o <- prior :: !Foreign(o, final)
    ensures SplitRender(NonEmpty(prior + [t]), final)
  {
    hide NonEmpty, Partials, Fulls, IsPartial, Contains;
    OlderCounts(prior, final);
    OneMoreBubble(prior, t, final);
    OneMoreBubble(NonEmpty(prior), t, final);
    NothingInNothing(final);
    NothingCounted(final);
  }

  /** A reply rendered once and observed is accepted exactly when every older bubble is foreign to it, no opening of
      it stands twice in a row in it or in an older bubble, and it is trimmed or alone. */
  lemma RenderedOnceAcceptedExactly(samples: seq<Sample>, prior: seq<string>, final: string)
    requires final != "" && Observed(samples, prior, final)
    ensures VerdictOf(samples, final).ok
            <==> && !Doubled(final, final) && !SplitWhole(prior, final)
                 && (forall o <- prior :: Foreign(o, final) && !Doubled(o, final))
  {
    hide Doubled, SplitWhole, VerdictOf, Foreign, NonEmpty, SplitRender, ShowsBeside, IsProperPrefix;
    var s :| s in samples && s.live && |s.texts| == |prior| + 1 && s.texts[..|prior|] == prior
             && s.texts[|prior|] <= final && IsProperPrefix(s.texts[|prior|], final);
    var t := s.texts[|prior|];
    assert s.texts == prior + [t];
    if forall o <- prior :: Foreign(o, final) {
      assert t in s.texts;
      GrowingReplyPassesExactly(samples, prior, final);
    } else {
      ProperIsPartial(t, final);
      PartOfReplySplits(prior, t, final);
      AcceptedExactly(samples, final);
      assert !CleanSample(s, final);
    }
  }

  lemma ProperIsPartial(t: string, final: string)
    requires IsProperPrefix(t, final)
    ensures IsPartial(t, final)
  {
  }

  lemma LetterOnce(text: string, final: string)
    requires final != "" && forall i, j :: 0 <= i < j < |text| ==> !(text[i] == final[0] && text[j] == final[0])
    ensures !Doubled(text, final)
  {
    if n :| 1 <= n <= |final| && DoubledBy(text, final, n) {
      var i :| 0 <= i <= |text| && OccursAt(text, final[..n] + final[..n], i);
      Letter(text, final[..n] + final[..n], i, 0);
      Letter(text, final[..n] + final[..n], i, n);
    }
  }

  /** An older bubble with a double letter fails a reply that begins with that letter: "lorem" growing beside "hello"
      is rejected, and accepted without it. */
  lemma OlderBubbleFailsReply()
    ensures !VerdictOf([Sample(true, ["hello", "lore"]), Sample(true, ["hello", "lorem"])], "lorem").ok
    ensures VerdictOf([Sample(true, ["lore"]), Sample(true, ["lorem"])], "lorem").ok
  {
    BesideHello();
    Alone();
  }

  lemma BesideHello()
    ensures !VerdictOf([Sample(true, ["hello", "lore"]), Sample(true, ["hello", "lorem"])], "lorem").ok
  {
    hide VerdictOf, Doubled, StreamSeen, ReplySeen, CleanSample;
    var final := "lorem";
    var both := [Sample(true, ["hello", "lore"]), Sample(true, ["hello", final])];
    TwiceAt("hello", final, 1, 2);
    assert both[1].texts == ["hello"] + [final];
    DoubledIsNotClean(both[1], ["hello"], final);
    AcceptedExactly(both, final);
    assert both[1] in both;
  }

  lemma Alone()
    ensures VerdictOf([Sample(true, ["lore"]), Sample(true, ["lorem"])], "lorem").ok
  {
    hide VerdictOf, Doubled, IsProperPrefix, SplitWhole;
    var final := "lorem";
    var alone := [Sample(true, ["lore"]), Sample(true, [final])];
    LoremIsProper();
    LetterOnce(final, final);
    assert alone[0].texts == [] + ["lore"] && alone[1].texts == [] + [final];
    assert alone[0] in alone && alone[1] in alone && "lore" in alone[0].texts;
    assert "lore" <= final;
    GrowingReplyPassesExactly(alone, [], final);
  }

  lemma TwiceAt(text: string, final: string, n: nat, i: nat)
    requires 1 <= n <= 64 && n <= |final| && i <= |text| && OccursAt(text, final[..n] + final[..n], i)
    ensures Doubled(text, final)
  {
    assert DoubledBy(text, final, n);
  }

  lemma LoremIsProper()
    ensures IsProperPrefix("lore", "lorem") && !SplitWhole([], "lorem")
  {
    assert StripLeft("lore") == "lore" && StripRight("lore") == "lore";
    assert "lorem"[..4] == "lore";
  }

  /** A reply only ever seen whole does not pass, though it was seen before the prompt ended. */
  lemma WholeReplyIsNotStreaming(samples: seq<Sample>, final: string)
    requires Strip(final) == final
    requires forall s <- samples :: forall t <- s.texts :: t == final
    ensures !VerdictOf(samples, final).ok
  {
    hide Strip, CleanSample;
    AcceptedExactly(samples, final);
  }

  // ---------------------------------------------------------------------
  // The bound of 64 characters is tight

  function Repeat(c: char, n: nat): (r: string)
    ensures |r| == n && forall i :: 0 <= i < n ==> r[i] == c
  {
    seq(n, _ => c)
  }

  /** "a" and then n times "b" */
  function Reply(n: nat): (r: string)
    ensures |r| == n + 1 && forall i :: 0 <= i <= n ==> r[i] == if i == 0 then 'a' else 'b'
  {
    "a" + Repeat('b', n)
  }

  lemma OneBubbleNeverSplits(t: string, final: string)
    ensures !SplitRender(NonEmpty([t]), final)
  {
    hide IsPartial, Contains;
    OneMoreBubble([], t, final);
    OneMoreBubble([], "", final);
    assert [] + [t] == [t];
  }

  /** For every m above 64 there is a reply whose first m characters can be shown twice unnoticed. */
  lemma LongOpeningEscapes(m: nat)
    requires m > 64
    ensures var final := Reply(m);
            var text := final[..m] + final;
            Contains(text, final[..m] + final[..m])
            && VerdictOf([Sample(true, [final[..4]]), Sample(true, [text])], final).ok
  {
    hide Reply;
    var final := Reply(m);
    var text := final[..m] + final;
    var samples := [Sample(true, [final[..4]]), Sample(true, [text])];
    assert OccursAt(text, final[..m] + final[..m], 0);
    LongOpeningIsClean(m, final, text);
    assert OccursAt(text, final, m);
    ShortOpeningIsClean(m, final);
    OneBubbleNeverSplits(text, final);
    OneBubbleNeverSplits(final[..4], final);
    assert IsProperPrefix(final[..4], final) by {
      var t := final[..4];
      assert t[0] == 'a' && t[3] == 'b';
      assert StripLeft(t) == t && StripRight(t) == t;
    }
    assert final[..4] in samples[0].texts && text in samples[1].texts;
    assert Contains(text, final) && StreamSeen(samples, final);
    AcceptedExactly(samples, final);
  }

  /** Whatever the reply, its opening of `m` characters right before it is rejected in any bubble. */
  ghost predicate AlwaysCaught(m: nat) {
    forall samples: seq<Sample>, s: Sample, t: string, final: string ::
      s in samples && t in s.texts && m <= |final| && Contains(t, final[..m] + final)
      ==> !VerdictOf(samples, final).ok
  }

  /** The lengths always caught are exactly those of at most 64 characters. */
  lemma CaughtExactlyUpTo64(m: nat)
    requires m >= 1
    ensures AlwaysCaught(m) <==> m <= 64
  {
    hide VerdictOf, Contains, Reply;
    if m <= 64 {
      forall samples: seq<Sample>, s: Sample, t: string, final: string
        | s in samples && t in s.texts && m <= |final| && Contains(t, final[..m] + final)
        ensures !VerdictOf(samples, final).ok
      {
        DuplicationIsRejected(samples, s, t, final, m);
      }
    } else {
      var final := Reply(m);
      var text := final[..m] + final;
      var samples := [Sample(true, [final[..4]]), Sample(true, [text])];
      LongOpeningEscapes(m);
      ContainsItself(text);
      assert samples[1] in samples && text in samples[1].texts;
    }
  }

  lemma ContainsItself(text: string)
    ensures Contains(text, text)
  {
    assert OccursAt(text, text, 0);
  }

  lemma Letter(text: string, pat: string, i: int, k: nat)
    ensures OccursAt(text, pat, i) && k < |pat| ==> text[i + k] == pat[k]
  {
    if OccursAt(text, pat, i) && k < |pat| {
      assert text[i..i + |pat|][k] == text[i + k];
    }
  }

  /** An opening twice in a row shows two a's at most 64 apart. */
  lemma DoubledShowsTwoAs(m: nat, text: string)
    requires Doubled(text, Reply(m))
    ensures exists i, j :: 0 <= i < j <= i + 64 && j < |text| && text[i] == 'a' && text[j] == 'a'
  {
    var final := Reply(m);
    var n :| 1 <= n <= |final| && DoubledBy(text, final, n);
    var pat := final[..n] + final[..n];
    var i :| 0 <= i <= |text| && OccursAt(text, pat, i);
    Letter(text, pat, i, 0);
    Letter(text, pat, i, n);
    assert text[i] == 'a' && text[i + n] == 'a';
  }

  lemma ShortOpeningIsClean(m: nat, final: string)
    requires m > 64 && final == Reply(m)
    ensures CleanBubble(final[..4], final)
  {
    if Doubled(final[..4], final) {
      DoubledShowsTwoAs(m, final[..4]);
    }
  }

  lemma LongOpeningIsClean(m: nat, final: string, text: string)
    requires m > 64 && final == Reply(m) && text == final[..m] + final
    ensures CleanBubble(text, final)
  {
    hide Doubled, OccursAt;
    assert forall i :: 0 <= i < |text| ==> (text[i] == 'a' <==> i == 0 || i == m);
    if Doubled(text, final) {
      DoubledShowsTwoAs(m, text);
    }
    forall i, j | 0 <= i && i + |final| <= j ensures !(OccursAt(text, final, i) && OccursAt(text, final, j)) {
      FitsInside(text, final, j);
    }
  }

  lemma FitsInside(text: string, pat: string, i: int)
    ensures OccursAt(text, pat, i) ==> i + |pat| <= |text|
  {
  }
}
