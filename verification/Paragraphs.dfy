/** Grouping sentences into paragraphs: _group_sentences_into_paragraphs_v2. */
module Paragraphs {
  import opened Common
  import opened Text
  import opened Partition
  import opened Sentences

  datatype Paragraph = Paragraph(start: real, end: real, text: string)

  datatype Limits = Limits(maxChars: int, gap: real, maxDuration: real)

  const GAP_SECONDS := 2.0

  /** _paragraph_limits_for_language, with the gap the transcript formatter passes. */
  function LimitsFor(cjk: bool): Limits {
    if cjk then Limits(260, GAP_SECONDS, 28.0) else Limits(520, GAP_SECONDS, 36.0)
  }

  function TextOf(s: Sentence): string {
    s.text
  }

  function Length(group: seq<Sentence>): nat {
    |Strip(Join(" ", Map(TextOf, group)))|
  }

  /** No pause inside is too long, and every later sentence ends within the duration limit. */
  predicate Flows(group: seq<Sentence>, lim: Limits) {
    forall k :: 1 <= k < |group| ==> FlowsAt(group, k, lim)
  }

  predicate FlowsAt(group: seq<Sentence>, k: int, lim: Limits)
    requires 1 <= k < |group|
  {
    group[k].start - group[k - 1].end <= lim.gap && group[k].end - group[0].start <= lim.maxDuration
  }

  /** What a paragraph of several sentences must keep. */
  predicate GroupOk(group: seq<Sentence>, lim: Limits) {
    |group| <= 1 || (Flows(group, lim) && Length(group) <= lim.maxChars)
  }

  function Fits(lim: Limits): seq<Sentence> -> bool {
    (group: seq<Sentence>) => GroupOk(group, lim)
  }

  function ParagraphOf(group: seq<Sentence>): Paragraph {
    if group == [] then Paragraph(0.0, 0.0, "")
    else Paragraph(group[0].start, group[|group| - 1].end, Tidy(Map(TextOf, group)))
  }

  function ShownParagraphs(ps: seq<Paragraph>): seq<Paragraph> {
    if ps == [] then []
    else ShownParagraphs(ps[..|ps| - 1]) + (if ps[|ps| - 1].text != [] then [ps[|ps| - 1]] else [])
  }

  /** push_para: append the open paragraph unless it shows nothing. */
  method PushParagraph(paragraphs: seq<Paragraph>, start: real, end: real, parts: seq<string>)
    returns (r: seq<Paragraph>)
    ensures r == if Tidy(parts) != [] then paragraphs + [Paragraph(start, end, Tidy(parts))] else paragraphs
  {
    var text := Tidy(parts);
    r := paragraphs;
    if text != [] {
      r := r + [Paragraph(start, end, text)];
    }
  }

  ghost predicate Pushing(paragraphs: seq<Paragraph>, open: seq<Sentence>, rest: seq<Sentence>, all: seq<Sentence>,
                          groups: seq<seq<Sentence>>, lim: Limits) {
    Packing(groups, open, rest, all, Fits(lim)) && paragraphs == ShownParagraphs(Map(ParagraphOf, groups))
  }

  /** The loop's variables describe the open paragraph. */
  predicate Describes(start: real, end: real, parts: seq<string>, open: seq<Sentence>) {
    && parts == Map(TextOf, open)
    && (open != [] ==> start == open[0].start && end == open[|open| - 1].end)
  }

  lemma DescribesNext(start: real, end: real, parts: seq<string>, open: seq<Sentence>, s: Sentence)
    requires Describes(start, end, parts, open)
    ensures Describes(if open == [] then s.start else start, s.end, parts + [s.text], open + [s])
    ensures Describes(s.start, s.end, [s.text], [s])
  {
    MapAppend(TextOf, open, s);
    assert Map(TextOf, [s]) == [s.text];
  }

  /** The three tests of the loop for adding `s` to a non-empty open paragraph. */
  predicate Admits(start: real, end: real, parts: seq<string>, s: Sentence, lim: Limits) {
    && s.start - end <= lim.gap
    && |Strip(Join(" ", parts + [s.text]))| <= lim.maxChars
    && s.end - start <= lim.maxDuration
  }

  /** One pass of the loop: close the open paragraph if `s` does not fit, then put `s` into the open one. */
  method TakeSentence(paragraphs: seq<Paragraph>, start: real, end: real, parts: seq<string>, s: Sentence, lim: Limits,
                      ghost open: seq<Sentence>, ghost rest: seq<Sentence>, ghost all: seq<Sentence>,
                      ghost groups: seq<seq<Sentence>>)
    returns (paragraphs': seq<Paragraph>, start': real, parts': seq<string>, ghost open': seq<Sentence>,
             ghost groups': seq<seq<Sentence>>)
    requires Describes(start, end, parts, open)
    requires Pushing(paragraphs, open, [s] + rest, all, groups, lim)
    ensures Describes(start', s.end, parts', open') && open' != []
    ensures Pushing(paragraphs', open', rest, all, groups', lim)
  {
    DescribesNext(start, end, parts, open, s);
    if parts != [] && !Admits(start, end, parts, s, lim) {
      PushingCloses(paragraphs, open, s, rest, all, groups, lim);
      paragraphs' := PushParagraph(paragraphs, start, end, parts);
      start', parts' := s.start, [s.text];
      open', groups' := [s], groups + [open];
    } else {
      PushingExtends(paragraphs, open, s, rest, all, groups, lim);
      paragraphs' := paragraphs;
      start', parts' := if parts == [] then s.start else start, parts + [s.text];
      open', groups' := open + [s], groups;
    }
  }

  method GroupSentences(sentences: seq<Sentence>, lim: Limits) returns (paragraphs: seq<Paragraph>)
    ensures paragraphs == ShownParagraphs(Map(ParagraphOf, Greedy(sentences, Fits(lim))))
  {
    if sentences == [] {
      return [];
    }
    paragraphs := [];
    var curStart, curEnd, curParts := sentences[0].start, sentences[0].end, [];
    ghost var open: seq<Sentence>, groups: seq<seq<Sentence>> := [], [];
    PackingStarts(sentences, Fits(lim));
    for i := 0 to |sentences|
      invariant Describes(curStart, curEnd, curParts, open) && (i > 0 ==> open != [])
      invariant Pushing(paragraphs, open, sentences[i..], sentences, groups, lim)
    {
      DropNext(sentences, i);
      paragraphs, curStart, curParts, open, groups := TakeSentence(
        paragraphs, curStart, curEnd, curParts, sentences[i], lim, open, sentences[i + 1..], sentences, groups);
      curEnd := sentences[i].end;
    }
    PushingEnds(paragraphs, open, sentences, groups, lim);
    paragraphs := PushParagraph(paragraphs, curStart, curEnd, curParts);
  }

  /** The loop's tests decide exactly whether the longer group is still allowed. */
  lemma AdmitsIff(open: seq<Sentence>, s: Sentence, lim: Limits)
    requires open != [] && GroupOk(open, lim)
    ensures Fits(lim)(open + [s]) <==> Admits(open[0].start, open[|open| - 1].end, Map(TextOf, open), s, lim)
  {
    MapAppend(TextOf, open, s);
    FlowsNext(open, s, lim);
  }

  lemma OpenIsOk(groups: seq<seq<Sentence>>, open: seq<Sentence>, rest: seq<Sentence>, all: seq<Sentence>, lim: Limits)
    requires Packing(groups, open, rest, all, Fits(lim))
    ensures GroupOk(open, lim)
  {
    if |open| > 1 {
      assert open[..|open|] == open;
      assert Fits(lim)(open[..|open|]);
    }
  }

  lemma FlowsNext(open: seq<Sentence>, s: Sentence, lim: Limits)
    requires open != []
    ensures Flows(open + [s], lim) <==>
            Flows(open, lim) && s.start - open[|open| - 1].end <= lim.gap && s.end - open[0].start <= lim.maxDuration
  {
    var next, n := open + [s], |open|;
    forall k | 1 <= k < n
      ensures FlowsAt(next, k, lim) == FlowsAt(open, k, lim)
    {
    }
    assert FlowsAt(next, n, lim) <==> s.start - open[n - 1].end <= lim.gap && s.end - open[0].start <= lim.maxDuration;
  }

  lemma PushingExtends(paragraphs: seq<Paragraph>, open: seq<Sentence>, s: Sentence, rest: seq<Sentence>,
                       all: seq<Sentence>, groups: seq<seq<Sentence>>, lim: Limits)
    requires Pushing(paragraphs, open, [s] + rest, all, groups, lim)
    requires open == [] || Admits(open[0].start, open[|open| - 1].end, Map(TextOf, open), s, lim)
    ensures Pushing(paragraphs, open + [s], rest, all, groups, lim)
  {
    if open != [] {
      OpenIsOk(groups, open, [s] + rest, all, lim);
      AdmitsIff(open, s, lim);
    }
    PackingExtends(groups, open, s, rest, all, Fits(lim));
  }

  lemma ShownNext(ps: seq<Paragraph>, p: Paragraph)
    ensures ShownParagraphs(ps + [p]) == ShownParagraphs(ps) + if p.text != [] then [p] else []
  {
    assert (ps + [p])[..|ps|] == ps;
  }

  lemma PushingCloses(paragraphs: seq<Paragraph>, open: seq<Sentence>, s: Sentence, rest: seq<Sentence>,
                      all: seq<Sentence>, groups: seq<seq<Sentence>>, lim: Limits)
    requires Pushing(paragraphs, open, [s] + rest, all, groups, lim)
    requires open != [] && !Admits(open[0].start, open[|open| - 1].end, Map(TextOf, open), s, lim)
    ensures Pushing(paragraphs + if ParagraphOf(open).text != [] then [ParagraphOf(open)] else [], [s], rest, all,
                    groups + [open], lim)
  {
    OpenIsOk(groups, open, [s] + rest, all, lim);
    AdmitsIff(open, s, lim);
    PackingCloses(groups, open, s, rest, all, Fits(lim));
    MapAppend(ParagraphOf, groups, open);
    ShownNext(Map(ParagraphOf, groups), ParagraphOf(open));
  }

  lemma PushingEnds(paragraphs: seq<Paragraph>, open: seq<Sentence>, all: seq<Sentence>, groups: seq<seq<Sentence>>,
                    lim: Limits)
    requires Pushing(paragraphs, open, all[|all|..], all, groups, lim) && open != []
    ensures ShownParagraphs(Map(ParagraphOf, Greedy(all, Fits(lim))))
         == paragraphs + if ParagraphOf(open).text != [] then [ParagraphOf(open)] else []
  {
    PackingEnds(groups, open, all, Fits(lim));
    MapAppend(ParagraphOf, groups, open);
    ShownNext(Map(ParagraphOf, groups), ParagraphOf(open));
  }

  // ----- Fewest paragraphs -----

  lemma TextsOfStretch(group: seq<Sentence>, i: nat, j: nat)
    requires i <= j <= |group|
    ensures Map(TextOf, group) == Map(TextOf, group[..i]) + Map(TextOf, group[i..j]) + Map(TextOf, group[j..])
  {
    var a, b, c := group[..i], group[i..j], group[j..];
    Reassemble(group, i, j);
    MapConcat(TextOf, a + b, c);
    MapConcat(TextOf, a, b);
  }

  lemma StretchIsNoLonger(group: seq<Sentence>, i: nat, j: nat)
    requires i < j <= |group|
    ensures Length(group[i..j]) <= Length(group)
  {
    TextsOfStretch(group, i, j);
    var mid := Map(TextOf, group[i..j]);
    var pre, post := JoinStretch(" ", Map(TextOf, group[..i]), mid, Map(TextOf, group[j..]));
    StripMonotone(pre, Join(" ", mid), post);
  }

  lemma StretchFlows(group: seq<Sentence>, lim: Limits, i: nat, j: nat)
    requires i < j <= |group| && StartsSorted(group) && Flows(group, lim)
    ensures Flows(group[i..j], lim)
  {
    forall k | 1 <= k < j - i
      ensures FlowsAt(group[i..j], k, lim)
    {
      assert FlowsAt(group, i + k, lim);
      assert group[0].start <= group[i].start;
    }
  }

  function SortedFits(lim: Limits): seq<Sentence> -> bool {
    (group: seq<Sentence>) => StartsSorted(group) && GroupOk(group, lim)
  }

  lemma SortedFitsIsHereditary(lim: Limits)
    ensures Hereditary(SortedFits(lim))
  {
    forall s: seq<Sentence>, i, j | 0 <= i < j <= |s| && SortedFits(lim)(s)
      ensures SortedFits(lim)(s[i..j])
    {
      if |s| > 1 {
        StretchFlows(s, lim, i, j);
        StretchIsNoLonger(s, i, j);
      }
    }
  }

  lemma GroupingWhenSorted(sentences: seq<Sentence>, lim: Limits, groups: seq<seq<Sentence>>)
    requires StartsSorted(sentences) && Grouping(groups, sentences, Fits(lim))
    ensures Grouping(groups, sentences, SortedFits(lim))
  {
    forall k | 0 <= k < |groups|
      ensures SortedFits(lim)(groups[k])
    {
      var i, j := GroupIsStretch(groups, sentences, k);
      assert Fits(lim)(groups[k]);
    }
  }

  /** On sentences sorted by start, no grouping that keeps the limits has fewer paragraphs. */
  lemma FewestParagraphs(sentences: seq<Sentence>, lim: Limits, groups: seq<seq<Sentence>>)
    requires StartsSorted(sentences) && Grouping(groups, sentences, Fits(lim))
    ensures |ShownParagraphs(Map(ParagraphOf, Greedy(sentences, Fits(lim))))|
            <= |Greedy(sentences, Fits(lim))| <= |groups|
  {
    SortedFitsIsHereditary(lim);
    GroupingWhenSorted(sentences, lim, groups);
    GreedyIsFewest(sentences, groups, SortedFits(lim));
    GreedyDependsOnStretches(sentences, Fits(lim), SortedFits(lim));
    ShownAreFewer(Map(ParagraphOf, Greedy(sentences, Fits(lim))));
  }

  lemma {:induction false} ShownAreFewer(ps: seq<Paragraph>)
    ensures |ShownParagraphs(ps)| <= |ps|
  {
    if ps != [] {
      ShownAreFewer(ps[..|ps| - 1]);
    }
  }

  // ----- Conservation -----

  function ParagraphTexts(ps: seq<Paragraph>): seq<string> {
    Map(ShownText, ps)
  }

  function ShownText(p: Paragraph): string {
    p.text
  }

  lemma ParagraphInkNext(ps: seq<Paragraph>, p: Paragraph)
    ensures InkOf(ParagraphTexts(ps + [p])) == InkOf(ParagraphTexts(ps)) + Ink(p.text)
  {
    MapAppend(ShownText, ps, p);
    InkOfMore(ParagraphTexts(ps), p.text);
  }

  lemma {:induction false} ShownKeepInk(ps: seq<Paragraph>)
    ensures InkOf(ParagraphTexts(ShownParagraphs(ps))) == InkOf(ParagraphTexts(ps))
  {
    if ps != [] {
      var before, last := ps[..|ps| - 1], ps[|ps| - 1];
      ShownKeepInk(before);
      assert ps == before + [last];
      ParagraphInkNext(before, last);
      ShownNext(before, last);
      if last.text == [] {
        assert ShownParagraphs(ps) == ShownParagraphs(before);
        assert InkOf(ParagraphTexts(before)) + [] == InkOf(ParagraphTexts(before));
      } else {
        ParagraphInkNext(ShownParagraphs(before), last);
      }
    }
  }

  lemma {:induction false} ShownMembers(ps: seq<Paragraph>)
    ensures forall p :: p in ShownParagraphs(ps) <==> p in ps && p.text != []
  {
    if ps != [] {
      ShownMembers(ps[..|ps| - 1]);
    }
  }

  lemma {:induction false} GroupsKeepInk(groups: seq<seq<Sentence>>)
    ensures InkOf(ParagraphTexts(Map(ParagraphOf, groups))) == InkOf(Map(TextOf, Flatten(groups)))
  {
    if groups != [] {
      var before, last := groups[..|groups| - 1], groups[|groups| - 1];
      GroupsKeepInk(before);
      assert groups == before + [last];
      MapAppend(ParagraphOf, before, last);
      ParagraphInkNext(Map(ParagraphOf, before), ParagraphOf(last));
      ParagraphInk(last);
      FlattenNext(before, last);
      MapConcat(TextOf, Flatten(before), last);
      InkOfConcat(Map(TextOf, Flatten(before)), Map(TextOf, last));
    }
  }

  lemma FlattenNext(groups: seq<seq<Sentence>>, last: seq<Sentence>)
    ensures Flatten(groups + [last]) == Flatten(groups) + last
  {
    FlattenAppend(groups, [last]);
    assert Flatten([last][1..]) == [];
  }

  lemma ParagraphInk(group: seq<Sentence>)
    ensures Ink(ParagraphOf(group).text) == InkOf(Map(TextOf, group))
  {
    InkTidy(Map(TextOf, group));
  }

  /** The paragraphs show exactly the text of the sentences, in order; each one stands for a run of
    * consecutive sentences that is single or keeps all three limits, is timed by that run, and is a
    * non-empty line of tidy text. */
  lemma ParagraphsConserveText(sentences: seq<Sentence>, lim: Limits)
    ensures var ps := ShownParagraphs(Map(ParagraphOf, Greedy(sentences, Fits(lim))));
            && InkOf(ParagraphTexts(ps)) == InkOf(Map(TextOf, sentences))
            && Grouping(Greedy(sentences, Fits(lim)), sentences, Fits(lim))
            && forall p ::
                 p in ps ==> p.text != [] && exists g :: g in Greedy(sentences, Fits(lim)) && p == ParagraphOf(g)
  {
    var groups := Greedy(sentences, Fits(lim));
    GreedyGroups(sentences, Fits(lim));
    GroupsKeepInk(groups);
    ShownKeepInk(Map(ParagraphOf, groups));
    ParagraphsStandForGroups(groups);
  }

  lemma ParagraphsStandForGroups(groups: seq<seq<Sentence>>)
    ensures forall p :: p in ShownParagraphs(Map(ParagraphOf, groups)) ==>
              p.text != [] && exists g :: g in groups && p == ParagraphOf(g)
  {
    ShownMembers(Map(ParagraphOf, groups));
    forall p | p in Map(ParagraphOf, groups)
      ensures exists g :: g in groups && p == ParagraphOf(g)
    {
      var i :| 0 <= i < |groups| && Map(ParagraphOf, groups)[i] == p;
      assert groups[i] in groups;
    }
  }
}
