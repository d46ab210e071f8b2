/** The transcript as markdown, and the plain text taken out of it again. */
module Rendering {
  import opened Common
  import opened Text
  import opened Partition
  import opened Sentences
  import opened Merge
  import opened MergeLaws
  import opened Paragraphs

  // ----- format_time -----

  function Decimal(n: nat): string {
    if n < 10 then [Digit(n)] else Decimal(n / 10) + [Digit(n % 10)]
  }

  /** The format specification 02d. */
  function Pad2(n: nat): string {
    if n < 10 then ['0'] + Decimal(n) else Decimal(n)
  }

  /** int() truncates towards zero. */
  function Truncate(x: real): int {
    if x >= 0.0 then x.Floor else -((-x).Floor)
  }

  function FormatTime(seconds: real): string {
    var t := Truncate(seconds);
    var hours, minutes, rest := t / 3600, t % 3600 / 60, t % 60;
    if hours > 0 then Pad2(hours) + ":" + Pad2(minutes) + ":" + Pad2(rest)
    else Pad2(minutes) + ":" + Pad2(rest)
  }

  // ----- Rendering -----

  function TimeLine(seconds: real): string {
    "**[" + FormatTime(seconds) + "]**"
  }

  function LinesOf(ps: seq<Paragraph>): seq<string> {
    if ps == [] then []
    else LinesOf(ps[..|ps| - 1]) + [TimeLine(ps[|ps| - 1].start), "", ps[|ps| - 1].text, ""]
  }

  /** The four lines of one paragraph. */
  method AddLines(lines: seq<string>, time: string, text: string) returns (r: seq<string>)
    ensures r == lines + [time, "", text, ""]
  {
    r := lines + [time];
    r := r + [""];
    r := r + [text];
    r := r + [""];
  }

  lemma LinesUpTo(ps: seq<Paragraph>, i: nat)
    requires i < |ps|
    ensures LinesOf(ps[..i + 1]) == LinesOf(ps[..i]) + [TimeLine(ps[i].start), "", ps[i].text, ""]
  {
    assert ps[..i + 1][..i] == ps[..i];
  }

  method RenderMarkdown(ps: seq<Paragraph>) returns (markdown: string)
    ensures markdown == Join("\n", LinesOf(ps))
  {
    var lines: seq<string> := [];
    for i := 0 to |ps|
      invariant lines == LinesOf(ps[..i])
    {
      LinesUpTo(ps, i);
      lines := AddLines(lines, TimeLine(ps[i].start), ps[i].text);
    }
    assert ps[..|ps|] == ps;
    markdown := Join("\n", lines);
  }

  // ----- extract_pure_text -----

  /** str.split('\n') */
  function SplitNewlines(s: string): (r: seq<string>)
    ensures r != []
  {
    if s == [] then [[]]
    else
      var r := SplitNewlines(s[1..]);
      if s[0] == '\n' then [[]] + r else [[s[0]] + r[0]] + r[1..]
  }

  predicate InStamp(c: char) {
    '0' <= c <= '9' || c == ':'
  }

  function StampRun(s: string): (n: nat)
    ensures n <= |s|
  {
    if s != [] && InStamp(s[0]) then 1 + StampRun(s[1..]) else 0
  }

  /** The length of a leading `**[..]**` holding two to eight digits and colons; 0 if there is none. */
  function StampLength(s: string): (n: nat)
    ensures n > 0 ==> 8 <= n <= |s|
  {
    if !("**[" <= s) then 0
    else
      var run := StampRun(s[3..]);
      if 2 <= run <= 8 && "]**" <= s[3..][run..] then run + 6 else 0
  }

  const LANGUAGE_MARK := "**\U{68c0}\U{6d4b}\U{8bed}\U{8a00}:**"
  const PROBABILITY_MARK := "**\U{8bed}\U{8a00}\U{6982}\U{7387}:**"

  predicate IsMetadata(line: string) {
    "#" <= line || LANGUAGE_MARK <= line || PROBABILITY_MARK <= line
  }

  predicate HasStamp(line: string) {
    "**[" <= line && Contains(line, "]**")
  }

  /** What extract_pure_text keeps of a line. */
  function KeptText(line: string): Option<string> {
    var s := Strip(line);
    if s == [] then None
    else if HasStamp(s) && EndsWith(s, "]**") && |s| <= 14 then None
    else
      var t := if HasStamp(s) then Strip(s[StampLength(s)..]) else s;
      if t == [] || IsMetadata(t) then None else Some(t)
  }

  function KeptTexts(lines: seq<string>): seq<string> {
    Collect(KeptText, lines)
  }

  function PlainText(markdown: string): string {
    Join(" ", KeptTexts(SplitNewlines(markdown)))
  }

  method ExtractPureText(raw: string) returns (text: string)
    ensures text == PlainText(raw)
  {
    var lines := SplitNewlines(raw);
    var textLines: seq<string> := [];
    for i := 0 to |lines|
      invariant textLines == KeptTexts(lines[..i])
    {
      assert lines[..i + 1] == lines[..i] + [lines[i]];
      CollectNext(KeptText, lines[..i], lines[i]);
      var line := Strip(lines[i]);
      if line == "" {
        continue;
      }
      if HasStamp(line) {
        if EndsWith(line, "]**") && |line| <= 14 {
          continue;
        }
        line := Strip(line[StampLength(line)..]);
        if line == "" {
          continue;
        }
      }
      if IsMetadata(line) {
        continue;
      }
      textLines := textLines + [line];
    }
    assert lines[..|lines|] == lines;
    text := Join(" ", textLines);
  }

  // ----- Splitting undoes joining -----

  predicate OneLine(s: string) {
    '\n' !in s
  }

  lemma {:induction false} SplitOne(s: string)
    requires OneLine(s)
    ensures SplitNewlines(s) == [s]
  {
    if s != [] {
      SplitOne(s[1..]);
      assert [s[0]] + s[1..] == s;
    }
  }

  lemma {:induction false} SplitFirst(s: string, rest: string)
    requires OneLine(s)
    ensures SplitNewlines(s + "\n" + rest) == [s] + SplitNewlines(rest)
  {
    var all := s + "\n" + rest;
    if s == [] {
      assert all[1..] == rest;
    } else {
      SplitFirst(s[1..], rest);
      assert all[1..] == s[1..] + "\n" + rest;
      assert [s[0]] + s[1..] == s;
    }
  }

  lemma {:induction false} SplitJoin(lines: seq<string>)
    requires lines != [] && forall i :: 0 <= i < |lines| ==> OneLine(lines[i])
    ensures SplitNewlines(Join("\n", lines)) == lines
  {
    if |lines| == 1 {
      SplitOne(lines[0]);
    } else {
      SplitJoin(lines[1..]);
      SplitFirst(lines[0], Join("\n", lines[1..]));
      assert lines == [lines[0]] + lines[1..];
    }
  }

  // ----- Time lines -----

  lemma {:induction false} DecimalDigits(n: nat)
    ensures Decimal(n) != [] && forall k :: 0 <= k < |Decimal(n)| ==> '0' <= Decimal(n)[k] <= '9'
    ensures |Decimal(n)| <= 2 <==> n < 100
    ensures |Decimal(n)| == 1 <==> n < 10
  {
    if n >= 10 {
      DecimalDigits(n / 10);
    }
  }

  lemma Pad2Shape(n: nat)
    ensures |Pad2(n)| >= 2 && (|Pad2(n)| == 2 <==> n < 100)
    ensures forall k :: 0 <= k < |Pad2(n)| ==> InStamp(Pad2(n)[k])
  {
    DecimalDigits(n);
  }

  lemma TimeShape(seconds: real)
    ensures var t := FormatTime(seconds);
            && (forall k :: 0 <= k < |t| ==> InStamp(t[k]))
            && (if Truncate(seconds) < 3600 then |t| == 5 else |t| >= 8)
            && (|t| == 8 || |t| == 5 <==> Truncate(seconds) < 360000)
  {
    var t := Truncate(seconds);
    Pad2Shape(t % 3600 / 60);
    Pad2Shape(t % 60);
    if t / 3600 > 0 {
      Pad2Shape(t / 3600);
    }
  }

  lemma {:induction false} StampRunIs(t: string, rest: string)
    requires forall k :: 0 <= k < |t| ==> InStamp(t[k])
    requires rest != [] && !InStamp(rest[0])
    ensures StampRun(t + rest) == |t|
  {
    if t == [] {
      assert t + rest == rest;
    } else {
      StampRunIs(t[1..], rest);
      assert (t + rest)[1..] == t[1..] + rest;
    }
  }

  lemma BracketIsNoMetadata(s: string)
    requires "**[" <= s
    ensures !IsMetadata(s)
  {
    assert s[0] == '*' && s[2] == '[';
    assert LANGUAGE_MARK[2] == '\U{68c0}' && PROBABILITY_MARK[2] == '\U{8bed}';
  }

  lemma TimeLineShape(t: string)
    requires t != [] && forall k :: 0 <= k < |t| ==> InStamp(t[k])
    ensures var s := "**[" + t + "]**";
            && |s| == |t| + 6 && "**[" <= s && Strip(s) == s && HasStamp(s) && EndsWith(s, "]**")
            && (|t| > 8 ==> StampLength(s) == 0)
  {
    var s := "**[" + t + "]**";
    StripOfStripped(s);
    assert s[|s| - 3..] == "]**";
    assert At(s, "]**", |s| - 3);
    assert s[3..] == t + "]**";
    StampRunIs(t, "]**");
  }

  /** The time line of a paragraph disappears exactly when it starts before a hundred hours; after that
    * the longer line is taken for text. */
  lemma TimeLineDroppedIff(seconds: real)
    ensures KeptText(TimeLine(seconds)) == if Truncate(seconds) < 360000 then None else Some(TimeLine(seconds))
  {
    var t := FormatTime(seconds);
    var s := TimeLine(seconds);
    TimeShape(seconds);
    TimeLineShape(t);
    BracketIsNoMetadata(s);
    assert s == "**[" + t + "]**";
    assert s[0..] == s;
  }

  // ----- Paragraph lines -----

  /** The paragraph text passes extract_pure_text unchanged. */
  predicate Survives(text: string) {
    && !IsMetadata(text)
    && !(HasStamp(text) && EndsWith(text, "]**") && |text| <= 14)
    && (HasStamp(text) ==> StampLength(text) == 0)
  }

  lemma KeptUnchangedIff(text: string)
    requires text != [] && Stripped(text)
    ensures KeptText(text) == Some(text) <==> Survives(text)
  {
    StripOfStripped(text);
    if HasStamp(text) {
      var cut := text[StampLength(text)..];
      var i := StripCuts(cut);
      if StampLength(text) == 0 {
        assert cut == text;
        BracketIsNoMetadata(text);
      }
    }
  }

  /** A non-empty line of tidy text, as the grouping leaves it. */
  predicate TidyLine(text: string) {
    text != [] && Stripped(text) && OneLine(text)
  }

  lemma KeptOfFour(f: string -> Option<string>, t: string, text: string)
    requires f("") == None
    ensures Collect(f, [t, "", text, ""]) == ToSeq(f(t)) + ToSeq(f(text))
  {
    CollectNext(f, [t, "", text], "");
    CollectNext(f, [t, ""], text);
    CollectNext(f, [t], "");
    CollectNext(f, [], t);
    assert [t, "", text, ""] == [t, "", text] + [""];
    assert [t, "", text] == [t, ""] + [text];
    assert [t, ""] == [t] + [""];
    assert [t] == [] + [t];
  }

  /** A paragraph whose lines come out as its text. */
  predicate RoundTrips(p: Paragraph) {
    Truncate(p.start) < 360000 && TidyLine(p.text) && Survives(p.text)
  }

  lemma KeptOfParagraph(p: Paragraph)
    requires RoundTrips(p)
    ensures KeptTexts([TimeLine(p.start), "", p.text, ""]) == [p.text]
  {
    KeptOfFour(KeptText, TimeLine(p.start), p.text);
    TimeLineDroppedIff(p.start);
    KeptUnchangedIff(p.text);
  }

  lemma LinesNext(ps: seq<Paragraph>, p: Paragraph)
    ensures LinesOf(ps + [p]) == LinesOf(ps) + [TimeLine(p.start), "", p.text, ""]
  {
    assert (ps + [p])[..|ps|] == ps;
  }

  lemma {:induction false} KeptOfParagraphs(ps: seq<Paragraph>)
    requires forall p :: p in ps ==> RoundTrips(p)
    ensures KeptTexts(LinesOf(ps)) == ParagraphTexts(ps)
  {
    if ps != [] {
      var before, p := ps[..|ps| - 1], ps[|ps| - 1];
      assert ps == before + [p];
      KeptOfParagraphs(before);
      calc {
        KeptTexts(LinesOf(ps));
        { LinesNext(before, p); }
        Collect(KeptText, LinesOf(before) + [TimeLine(p.start), "", p.text, ""]);
        { CollectConcat(KeptText, LinesOf(before), [TimeLine(p.start), "", p.text, ""]); }
        KeptTexts(LinesOf(before)) + KeptTexts([TimeLine(p.start), "", p.text, ""]);
        { KeptOfParagraph(p); }
        ParagraphTexts(before) + [p.text];
        { MapAppend(Paragraphs.ShownText, before, p); }
        ParagraphTexts(ps);
      }
    }
  }

  lemma TimeLineIsLine(start: real)
    ensures OneLine(TimeLine(start))
  {
    TimeShape(start);
    assert forall k :: 0 <= k < |FormatTime(start)| ==> FormatTime(start)[k] != '\n';
  }

  lemma {:induction false} LinesAreLines(ps: seq<Paragraph>)
    requires forall i :: 0 <= i < |ps| ==> OneLine(ps[i].text)
    ensures forall line :: line in LinesOf(ps) ==> OneLine(line)
    ensures ps != [] ==> LinesOf(ps) != []
  {
    if ps != [] {
      LinesAreLines(ps[..|ps| - 1]);
      TimeLineIsLine(ps[|ps| - 1].start);
    }
  }

  lemma {:induction false} SplitOfMarkdown(ps: seq<Paragraph>)
    requires forall i :: 0 <= i < |ps| ==> OneLine(ps[i].text)
    ensures KeptTexts(SplitNewlines(Join("\n", LinesOf(ps)))) == KeptTexts(LinesOf(ps))
  {
    if ps == [] {
      assert SplitNewlines("") == [""];
      CollectNext(KeptText, [], "");
      assert [""] == [] + [""];
    } else {
      LinesAreLines(ps);
      SplitJoin(LinesOf(ps));
    }
  }

  /** Taking the plain text out of the rendered transcript gives back the paragraph texts. */
  lemma StripUndoesRender(ps: seq<Paragraph>)
    requires forall p :: p in ps ==> RoundTrips(p)
    ensures PlainText(Join("\n", LinesOf(ps))) == Join(" ", ParagraphTexts(ps))
  {
    assert forall i :: 0 <= i < |ps| ==> RoundTrips(ps[i]);
    SplitOfMarkdown(ps);
    KeptOfParagraphs(ps);
  }

  lemma GroupedTextsAreTidy(sentences: seq<Sentence>, lim: Limits)
    ensures forall p :: p in ShownParagraphs(Map(ParagraphOf, Greedy(sentences, Fits(lim)))) ==> TidyLine(p.text)
  {
    var groups := Greedy(sentences, Fits(lim));
    ParagraphsStandForGroups(groups);
    forall p | p in ShownParagraphs(Map(ParagraphOf, groups))
      ensures TidyLine(p.text)
    {
      var g :| g in groups && p == ParagraphOf(g);
      ParagraphIsTidy(g);
    }
  }

  lemma ParagraphIsTidy(group: seq<Sentence>)
    ensures Stripped(ParagraphOf(group).text) && OneLine(ParagraphOf(group).text)
  {
    TidyIsLine(Map(TextOf, group));
  }

  // ----- The whole pipeline -----

  /** No paragraph text looks like markup and every paragraph starts before a hundred hours. */
  predicate Plain(ps: seq<Paragraph>) {
    forall p :: p in ps ==> Truncate(p.start) < 360000 && Survives(p.text)
  }

  /** The paragraphs of a transcript. */
  function ParagraphsOf(segments: seq<Segment>, cjk: bool): seq<Paragraph> {
    ShownParagraphs(Map(ParagraphOf, Greedy(Merged(segments), Fits(LimitsFor(cjk)))))
  }

  function Markdown(segments: seq<Segment>, cjk: bool): string {
    Join("\n", LinesOf(ParagraphsOf(segments, cjk)))
  }

  /** format_markdown_from_raw_segments */
  method FormatMarkdown(segments: seq<Segment>, cjk: bool) returns (markdown: string)
    ensures markdown == Markdown(segments, cjk)
  {
    var sentences := MergeSegmentsIntoSentences(segments);
    var paragraphs := GroupSentences(sentences, LimitsFor(cjk));
    markdown := RenderMarkdown(paragraphs);
  }

  /** End to end: the plain text taken out of the markdown is the paragraph texts, joined, if they are plain;
    * it shows what the segments show, in order, exactly if the split flushes show in all what was meant. */
  lemma FormatConservesText(segments: seq<Segment>, cjk: bool)
    requires Plain(ParagraphsOf(segments, cjk))
    ensures PlainText(Markdown(segments, cjk)) == Join(" ", ParagraphTexts(ParagraphsOf(segments, cjk)))
    ensures Ink(PlainText(Markdown(segments, cjk))) == InkOf(RawTexts(segments)) <==>
              ShownInk(Flushes(segments)) == FlushedInk(Flushes(segments))
  {
    var ps := ParagraphsOf(segments, cjk);
    GroupedTextsAreTidy(Merged(segments), LimitsFor(cjk));
    StripUndoesRender(ps);
    PipelineInk(Merged(segments), LimitsFor(cjk), ps);
    MergedConservesText(segments);
  }

  /** Segments in order of time give as few paragraphs as the limits allow, and every paragraph is a tidy line. */
  lemma FormatIsFewest(segments: seq<Segment>, cjk: bool, groups: seq<seq<Sentence>>)
    requires SortedByStart(segments) && Grouping(groups, Merged(segments), Fits(LimitsFor(cjk)))
    ensures |ParagraphsOf(segments, cjk)| <= |groups|
    ensures forall p :: p in ParagraphsOf(segments, cjk) ==> TidyLine(p.text)
  {
    MergedCovers(segments);
    GroupedTextsAreTidy(Merged(segments), LimitsFor(cjk));
    FewestParagraphs(Merged(segments), LimitsFor(cjk), groups);
  }

  lemma PipelineInk(sentences: seq<Sentence>, lim: Limits, ps: seq<Paragraph>)
    requires ps == ShownParagraphs(Map(ParagraphOf, Greedy(sentences, Fits(lim))))
    requires forall p :: p in ps ==> RoundTrips(p)
    ensures Ink(PlainText(Join("\n", LinesOf(ps)))) == InkOf(SentenceTexts(sentences))
  {
    ParagraphsConserveText(sentences, lim);
    StripUndoesRender(ps);
    InkJoin(ParagraphTexts(ps));
    SameTexts(sentences);
  }

  lemma {:induction false} SameTexts(sentences: seq<Sentence>)
    ensures Map(TextOf, sentences) == SentenceTexts(sentences)
  {
    if sentences != [] {
      SameTexts(sentences[1..]);
      MapConcat(TextOf, [sentences[0]], sentences[1..]);
      assert sentences == [sentences[0]] + sentences[1..];
    }
  }
}
