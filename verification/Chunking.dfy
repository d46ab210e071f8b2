/** Cutting long texts into chunks: smart_chunk_text and enforce_paragraph_max_chars. */
module Chunking {
  import opened Common
  import opened Text
  import opened Partition

  // ----- Packing texts under a length limit -----

  /** A chunk of several texts keeps the limit. */
  function FitsJoined(sep: string, max: int): seq<string> -> bool {
    (group: seq<string>) => |group| <= 1 || |Join(sep, group)| <= max
  }

  function ChunkOf(sep: string): seq<string> -> string {
    (group: seq<string>) => Strip(Join(sep, group))
  }

  function Packed(texts: seq<string>, sep: string, max: int): seq<string> {
    Map(ChunkOf(sep), Greedy(texts, FitsJoined(sep, max)))
  }

  predicate AllStripped(texts: seq<string>) {
    forall i :: 0 <= i < |texts| ==> texts[i] != [] && Stripped(texts[i])
  }

  predicate AllShow(texts: seq<string>) {
    forall i :: 0 <= i < |texts| ==> Strip(texts[i]) != []
  }

  /** The loops' state: chunks pushed, `cur` the open one. */
  ghost predicate Filling(chunks: seq<string>, cur: string, open: seq<string>, groups: seq<seq<string>>,
                          rest: seq<string>, all: seq<string>, sep: string, max: int)
  {
    && Packing(groups, open, rest, all, FitsJoined(sep, max))
    && chunks == Map(ChunkOf(sep), groups)
    && cur == Join(sep, open) && (cur == [] <==> open == [])
  }

  lemma FillingExtends(chunks: seq<string>, cur: string, open: seq<string>, groups: seq<seq<string>>, x: string,
                       rest: seq<string>, all: seq<string>, sep: string, max: int)
    requires Filling(chunks, cur, open, groups, [x] + rest, all, sep, max) && x != []
    requires open == [] || |Join(sep, open + [x])| <= max
    ensures Filling(chunks, Join(sep, open + [x]), open + [x], groups, rest, all, sep, max)
  {
    PackingExtends(groups, open, x, rest, all, FitsJoined(sep, max));
    JoinAppend(sep, open, [x]);
  }

  lemma FillingCloses(chunks: seq<string>, cur: string, open: seq<string>, groups: seq<seq<string>>, x: string,
                      rest: seq<string>, all: seq<string>, sep: string, max: int)
    requires Filling(chunks, cur, open, groups, [x] + rest, all, sep, max) && x != []
    requires open != [] && |Join(sep, open + [x])| > max
    ensures Filling(chunks + [Strip(cur)], x, [x], groups + [open], rest, all, sep, max)
  {
    PackingCloses(groups, open, x, rest, all, FitsJoined(sep, max));
    MapAppend(ChunkOf(sep), groups, open);
  }

  lemma FillingEnds(chunks: seq<string>, cur: string, open: seq<string>, groups: seq<seq<string>>, all: seq<string>,
                    sep: string, max: int)
    requires Filling(chunks, cur, open, groups, all[|all|..], all, sep, max)
    ensures Packed(all, sep, max) == if cur == [] then chunks else chunks + [Strip(cur)]
  {
    PackingEnds(groups, open, all, FitsJoined(sep, max));
    if open != [] {
      MapAppend(ChunkOf(sep), groups, open);
    }
  }

  /** One turn of the first loop of smart_chunk_text. */
  method TakeParagraph(chunks: seq<string>, cur: string, p: string, max: int,
                       ghost open: seq<string>, ghost groups: seq<seq<string>>, ghost rest: seq<string>,
                       ghost all: seq<string>)
    returns (chunks': seq<string>, cur': string, ghost open': seq<string>, ghost groups': seq<seq<string>>)
    requires Filling(chunks, cur, open, groups, [p] + rest, all, "\n\n", max) && Strip(p) != []
    ensures Filling(chunks', cur', open', groups', rest, all, "\n\n", max) && Strip(cur') != []
  {
    NextParagraph(cur, open, p);
    if |cur| + |p| + 2 > max && cur != [] {
      FillingCloses(chunks, cur, open, groups, p, rest, all, "\n\n", max);
      chunks', cur', open', groups' := chunks + [Strip(cur)], p, [p], groups + [open];
    } else {
      FillingExtends(chunks, cur, open, groups, p, rest, all, "\n\n", max);
      chunks', cur', open', groups' := chunks, p, open + [p], groups;
      if cur != [] {
        cur' := cur + "\n\n" + p;
      }
    }
  }

  /** The first loop of smart_chunk_text. */
  method PackParagraphs(paragraphs: seq<string>, max: int) returns (chunks: seq<string>)
    requires AllShow(paragraphs)
    ensures chunks == Packed(paragraphs, "\n\n", max)
  {
    chunks := [];
    var cur := "";
    ghost var open: seq<string>, groups: seq<seq<string>> := [], [];
    PackingStarts(paragraphs, FitsJoined("\n\n", max));
    for i := 0 to |paragraphs|
      invariant Filling(chunks, cur, open, groups, paragraphs[i..], paragraphs, "\n\n", max)
      invariant cur != [] ==> Strip(cur) != []
    {
      DropNext(paragraphs, i);
      chunks, cur, open, groups :=
        TakeParagraph(chunks, cur, paragraphs[i], max, open, groups, paragraphs[i + 1..], paragraphs);
    }
    FillingEnds(chunks, cur, open, groups, paragraphs, "\n\n", max);
    if Strip(cur) != [] {
      chunks := chunks + [Strip(cur)];
    }
  }

  lemma NextParagraph(cur: string, open: seq<string>, p: string)
    requires cur == Join("\n\n", open) && (cur == [] <==> open == []) && Strip(p) != []
    ensures p != [] && Join("\n\n", open + [p]) == if cur != [] then cur + "\n\n" + p else p
    ensures Strip(Join("\n\n", open + [p])) != []
  {
    JoinAppend("\n\n", open, [p]);
    StripMonotone(cur + "\n\n", p, "");
    assert cur + "\n\n" + p + "" == cur + "\n\n" + p;
  }

  lemma Candidate(cur: string, open: seq<string>, s: string)
    requires cur == Join(" ", open) && Stripped(cur) && (cur == [] <==> open == []) && s != [] && Stripped(s)
    ensures Join(" ", open + [s]) == if cur != [] then Strip(cur + " " + s) else s
    ensures Stripped(Join(" ", open + [s]))
  {
    JoinAppend(" ", open, [s]);
    if cur != [] {
      StripOfStripped(cur + " " + s);
    }
  }

  /** The sentence loop of both functions. */
  method PackSentences(sentences: seq<string>, max: int) returns (chunks: seq<string>)
    requires AllStripped(sentences)
    ensures chunks == Packed(sentences, " ", max)
  {
    chunks := [];
    var cur := "";
    ghost var open: seq<string>, groups: seq<seq<string>> := [], [];
    PackingStarts(sentences, FitsJoined(" ", max));
    for i := 0 to |sentences|
      invariant Filling(chunks, cur, open, groups, sentences[i..], sentences, " ", max)
      invariant Stripped(cur)
    {
      var s := sentences[i];
      DropNext(sentences, i);
      Candidate(cur, open, s);
      var candidate := if cur != [] then Strip(cur + " " + s) else s;
      if |candidate| > max && cur != [] {
        FillingCloses(chunks, cur, open, groups, s, sentences[i + 1..], sentences, " ", max);
        chunks := chunks + [Strip(cur)];
        cur := s;
        open, groups := [s], groups + [open];
      } else {
        FillingExtends(chunks, cur, open, groups, s, sentences[i + 1..], sentences, " ", max);
        cur := candidate;
        open := open + [s];
      }
    }
    FillingEnds(chunks, cur, open, groups, sentences, " ", max);
    StripOfStripped(cur);
    if Strip(cur) != [] {
      chunks := chunks + [Strip(cur)];
    }
  }

  // ----- Sentences -----

  predicate IsMark(c: char) {
    c == '.' || c == '!' || c == '?' || c == '\U{3002}' || c == '\U{ff01}' || c == '\U{ff1f}'
  }

  function TextRun(s: string): (n: nat)
    ensures n <= |s|
    ensures forall k :: 0 <= k < n ==> !IsMark(s[k])
    ensures n < |s| ==> IsMark(s[n])
  {
    if s == [] || IsMark(s[0]) then 0 else 1 + TextRun(s[1..])
  }

  function MarkRun(s: string): (n: nat)
    ensures n <= |s|
    ensures forall k :: 0 <= k < n ==> IsMark(s[k])
    ensures n < |s| ==> !IsMark(s[n])
  {
    if s == [] || !IsMark(s[0]) then 0 else 1 + MarkRun(s[1..])
  }

  /** The text up to the next marks, and those marks. */
  function FirstPiece(s: string): (n: nat)
    ensures n <= |s| && (s != [] ==> n > 0)
  {
    TextRun(s) + MarkRun(s[TextRun(s)..])
  }

  function Head(s: string): string {
    s[..FirstPiece(s)]
  }

  function Tail(s: string): (r: string)
    ensures s != [] ==> |r| < |s|
  {
    s[FirstPiece(s)..]
  }

  function Pieces(s: string): seq<string>
    decreases |s|
  {
    if s == [] then [] else [Head(s)] + Pieces(Tail(s))
  }

  function NonBlank(s: string): Option<string> {
    if Strip(s) == [] then None else Some(Strip(s))
  }

  /** The sentences of a text: its pieces, stripped, without blank ones. */
  function Sentences(s: string): seq<string> {
    Collect(NonBlank, Pieces(s))
  }

  /** re.split with the marks as a group: texts at even positions, marks at odd ones. */
  function SplitAtMarks(s: string): (r: seq<string>)
    ensures r != []
    decreases |s|
  {
    if TextRun(s) == |s| then [s]
    else [s[..TextRun(s)], s[TextRun(s)..FirstPiece(s)]] + SplitAtMarks(Tail(s))
  }

  /** Texts and marks in turn, a text last; every text with its marks shows something. */
  predicate Alternates(parts: seq<string>) {
    && parts != []
    && (|parts| > 1 ==> |parts| > 2 && Strip(parts[0] + parts[1]) != [] && Alternates(parts[2..]))
  }

  function Rejoined(parts: seq<string>): seq<string> {
    if parts == [] then []
    else if |parts| == 1 then (if parts[0] == [] then [] else parts)
    else [parts[0] + parts[1]] + Rejoined(parts[2..])
  }

  lemma {:induction false} SplitAlternates(s: string)
    ensures Alternates(SplitAtMarks(s)) && Rejoined(SplitAtMarks(s)) == Pieces(s)
    decreases |s|
  {
    if TextRun(s) == |s| {
      assert s[..|s|] == s && s[|s|..] == [];
      assert s != [] ==> Head(s) == s && Tail(s) == [];
    } else {
      var text, marks := s[..TextRun(s)], s[TextRun(s)..FirstPiece(s)];
      SplitAlternates(Tail(s));
      HeadShows(s);
      assert text + marks == Head(s);
      OneMorePair(text, marks, SplitAtMarks(Tail(s)));
    }
  }

  lemma OneMorePair(text: string, marks: string, more: seq<string>)
    requires Alternates(more) && Strip(text + marks) != []
    ensures Alternates([text, marks] + more) && Rejoined([text, marks] + more) == [text + marks] + Rejoined(more)
  {
    assert ([text, marks] + more)[2..] == more;
  }

  lemma HeadShows(s: string)
    requires TextRun(s) < |s|
    ensures Strip(Head(s)) != []
  {
    assert IsMark(Head(s)[TextRun(s)]);
    InkEmptyIff(Head(s));
    StripEmptyIff(Head(s));
  }

  /** The loop that puts texts and their marks together again. */
  method SplitSentences(s: string) returns (sentences: seq<string>)
    ensures sentences == Sentences(s)
  {
    var parts := SplitAtMarks(s);
    SplitAlternates(s);
    sentences := JoinMarks(parts);
  }

  method JoinMarks(parts: seq<string>) returns (sentences: seq<string>)
    requires Alternates(parts)
    ensures sentences == Collect(NonBlank, Rejoined(parts))
  {
    sentences := [];
    var buf := "";
    var i := 0;
    assert parts[0..] == parts;
    while i < |parts| - 1
      invariant 0 <= i < |parts| && buf == "" && Alternates(parts[i..])
      invariant Joining(parts, i, sentences)
    {
      sentences, buf := JoinTwo(parts, i, sentences, buf);
      i := i + 2;
    }
    JoiningEnds(parts, i, sentences);
    buf := buf + parts[i];
    assert buf == parts[i];
    if Strip(buf) != [] {
      sentences := sentences + [Strip(buf)];
    }
  }

  method JoinTwo(parts: seq<string>, i: nat, sentences: seq<string>, buf: string)
    returns (sentences': seq<string>, buf': string)
    requires i < |parts| - 1 && buf == "" && Alternates(parts[i..]) && Joining(parts, i, sentences)
    ensures i < |parts| - 2 && buf' == "" && Alternates(parts[i + 2..]) && Joining(parts, i + 2, sentences')
  {
    JoiningNext(parts, i, sentences);
    buf' := buf + parts[i];
    buf' := buf' + parts[i + 1];
    assert buf' == parts[i] + parts[i + 1];
    sentences' := sentences;
    if Strip(buf') != [] {
      sentences' := sentences' + [Strip(buf')];
      buf' := "";
    }
  }

  ghost predicate Joining(parts: seq<string>, i: nat, sentences: seq<string>)
    requires i <= |parts|
  {
    sentences + Collect(NonBlank, Rejoined(parts[i..])) == Collect(NonBlank, Rejoined(parts))
  }

  lemma JoiningNext(parts: seq<string>, i: nat, sentences: seq<string>)
    requires i < |parts| - 1 && Alternates(parts[i..]) && Joining(parts, i, sentences)
    ensures i < |parts| - 2 && Alternates(parts[i + 2..]) && Strip(parts[i] + parts[i + 1]) != []
    ensures Joining(parts, i + 2, sentences + [Strip(parts[i] + parts[i + 1])])
  {
    JoinNext(parts, i);
    Regroup(sentences, Strip(parts[i] + parts[i + 1]), Collect(NonBlank, Rejoined(parts[i + 2..])));
  }

  lemma Regroup<T>(a: seq<T>, x: T, b: seq<T>)
    ensures a + ([x] + b) == a + [x] + b
  {
  }

  lemma JoiningEnds(parts: seq<string>, i: nat, sentences: seq<string>)
    requires i == |parts| - 1 && Joining(parts, i, sentences)
    ensures Collect(NonBlank, Rejoined(parts)) ==
              if Strip(parts[i]) != [] then sentences + [Strip(parts[i])] else sentences
  {
    JoinLast(parts, i);
  }

  lemma JoinNext(parts: seq<string>, i: nat)
    requires i < |parts| - 1 && Alternates(parts[i..])
    ensures i < |parts| - 2 && Alternates(parts[i + 2..]) && Strip(parts[i] + parts[i + 1]) != []
    ensures Collect(NonBlank, Rejoined(parts[i..])) ==
              [Strip(parts[i] + parts[i + 1])] + Collect(NonBlank, Rejoined(parts[i + 2..]))
  {
    assert parts[i..][0] == parts[i] && parts[i..][1] == parts[i + 1] && parts[i..][2..] == parts[i + 2..];
    CollectFirst(NonBlank, parts[i] + parts[i + 1], Rejoined(parts[i + 2..]));
  }

  lemma JoinLast(parts: seq<string>, i: nat)
    requires i == |parts| - 1
    ensures Collect(NonBlank, Rejoined(parts[i..])) == if Strip(parts[i]) != [] then [Strip(parts[i])] else []
  {
    assert parts[i..] == [parts[i]];
    if parts[i] != [] {
      assert [parts[i]] == [parts[i]] + [];
      CollectFirst(NonBlank, parts[i], []);
    }
  }

  lemma {:induction false} SentencesAreStripped(pieces: seq<string>)
    ensures AllStripped(Collect(NonBlank, pieces))
  {
    if pieces != [] {
      SentencesAreStripped(pieces[..|pieces| - 1]);
      var i := StripCuts(pieces[|pieces| - 1]);
    }
  }

  // ----- Both functions -----

  /** Chunks over the limit are packed anew, sentence by sentence. */
  function SplitLong(chunks: seq<string>, max: int): seq<string> {
    FlatMap(Repack(max), chunks)
  }

  function Repack(max: int): string -> seq<string> {
    (c: string) => Repacked(c, max)
  }

  function Repacked(c: string, max: int): seq<string> {
    if |c| <= max then [c] else Packed(Sentences(c), " ", max)
  }

  method SplitLongChunks(chunks: seq<string>, max: int) returns (final: seq<string>)
    ensures final == SplitLong(chunks, max)
  {
    final := [];
    for i := 0 to |chunks|
      invariant final == SplitLong(chunks[..i], max)
    {
      FlatMapNext(Repack(max), chunks[..i], chunks[i]);
      assert chunks[..i + 1] == chunks[..i] + [chunks[i]];
      final := AddRepacked(final, chunks[i], max);
    }
    assert chunks[..|chunks|] == chunks;
  }

  method AddRepacked(final: seq<string>, chunk: string, max: int) returns (final': seq<string>)
    ensures final' == final + Repack(max)(chunk)
  {
    if |chunk| <= max {
      final' := final + [chunk];
    } else {
      var sentences := SplitSentences(chunk);
      SentencesAreStripped(Pieces(chunk));
      var packed := PackSentences(sentences, max);
      final' := final + packed;
    }
  }

  /** text.split("\n\n") */
  function SplitPairs(s: string): (r: seq<string>)
    ensures r != []
  {
    if |s| < 2 then [s]
    else if s[0] == '\n' && s[1] == '\n' then [""] + SplitPairs(s[2..])
    else
      var r := SplitPairs(s[1..]);
      [[s[0]] + r[0]] + r[1..]
  }

  function Visible(s: string): Option<string> {
    if Strip(s) == [] then None else Some(s)
  }

  function VisibleParagraphs(text: string): seq<string> {
    Collect(Visible, SplitPairs(text))
  }

  function Smart(text: string, max: int): seq<string> {
    SplitLong(Packed(VisibleParagraphs(text), "\n\n", max), max)
  }

  method SmartChunkText(text: string, max: int) returns (chunks: seq<string>)
    ensures chunks == Smart(text, max)
  {
    if text == [] {
      assert SplitPairs(text) == [text] && [text][..0] == [];
      assert Collect(Visible, SplitPairs(text)) == [];
      return [];
    }
    VisibleAreShown(SplitPairs(text));
    chunks := PackParagraphs(VisibleParagraphs(text), max);
    chunks := SplitLongChunks(chunks, max);
  }

  lemma {:induction false} VisibleAreShown(texts: seq<string>)
    ensures AllShow(Collect(Visible, texts))
  {
    if texts != [] {
      VisibleAreShown(texts[..|texts| - 1]);
    }
  }

  /** How far a leading run of whitespace reaches, up to its last line feed. */
  function LastNewline(s: string): (n: nat)
    ensures n <= |s| && forall k :: 0 <= k < n ==> IsSpace(s[k])
  {
    if s == [] || !IsSpace(s[0]) then 0
    else if LastNewline(s[1..]) > 0 then 1 + LastNewline(s[1..])
    else if s[0] == '\n' then 1
    else 0
  }

  /** re.split(r"\n\s*\n", text) */
  function SplitGaps(s: string): (r: seq<string>)
    ensures r != []
    decreases |s|
  {
    if s == [] then [s]
    else if s[0] == '\n' && LastNewline(s[1..]) > 0 then [""] + SplitGaps(s[1 + LastNewline(s[1..])..])
    else
      var r := SplitGaps(s[1..]);
      [[s[0]] + r[0]] + r[1..]
  }

  function Enforced(text: string, max: int): seq<string> {
    SplitLong(Map(Strip, SplitGaps(text)), max)
  }

  method EnforceParagraphMaxChars(text: string, max: int) returns (r: string)
    ensures r == if text == [] then text else Join("\n\n", Enforced(text, max))
  {
    if text == [] {
      return text;
    }
    var paragraphs := SplitLongChunks(Map(Strip, SplitGaps(text)), max);
    r := Join("\n\n", paragraphs);
  }

  // ----- The visible text is kept, in order -----

  lemma {:induction false} InkOfGroups(groups: seq<seq<string>>, sep: string)
    requires Ink(sep) == []
    ensures InkOf(Map(ChunkOf(sep), groups)) == InkOf(Flatten(groups))
  {
    if groups != [] {
      var before, last := groups[..|groups| - 1], groups[|groups| - 1];
      InkOfGroups(before, sep);
      InkOfOneMoreGroup(before, last, sep);
      assert before + [last] == groups;
    }
  }

  lemma InkOfOneMoreGroup(before: seq<seq<string>>, last: seq<string>, sep: string)
    requires Ink(sep) == [] && InkOf(Map(ChunkOf(sep), before)) == InkOf(Flatten(before))
    ensures InkOf(Map(ChunkOf(sep), before + [last])) == InkOf(Flatten(before + [last]))
  {
    ChunkInk(last, sep);
    MapAppend(ChunkOf(sep), before, last);
    InkOfMore(Map(ChunkOf(sep), before), ChunkOf(sep)(last));
    InkOfSum(Flatten(before), last, InkOf(Flatten(before)), InkOf(last));
    FlattenAppend(before, [last]);
    assert Flatten([last]) == last;
  }

  lemma ChunkInk(group: seq<string>, sep: string)
    requires Ink(sep) == []
    ensures Ink(ChunkOf(sep)(group)) == InkOf(group)
  {
    InkJoinWith(sep, group);
    InkStrip(Join(sep, group));
  }

  lemma SingletonsFit(sep: string, max: int)
    ensures SingletonsOk(FitsJoined(sep, max))
  {
  }

  lemma PackedKeepsInk(texts: seq<string>, sep: string, max: int)
    requires Ink(sep) == []
    ensures InkOf(Packed(texts, sep, max)) == InkOf(texts)
  {
    SingletonsFit(sep, max);
    GreedyGroups(texts, FitsJoined(sep, max));
    InkOfGroups(Greedy(texts, FitsJoined(sep, max)), sep);
  }

  lemma {:induction false} PiecesKeepInk(s: string)
    ensures InkOf(Pieces(s)) == Ink(s)
    decreases |s|
  {
    if s != [] {
      PiecesKeepInk(Tail(s));
      assert s == Head(s) + Tail(s);
      InkConcat(Head(s), Tail(s));
      InkOfCons(Head(s), Pieces(Tail(s)));
    }
  }

  lemma InkOfCons(head: string, tail: seq<string>)
    ensures InkOf([head] + tail) == Ink(head) + InkOf(tail)
  {
    assert ([head] + tail)[1..] == tail;
  }

  predicate KeepsInk(f: string -> Option<string>, s: string) {
    InkOf(ToSeq(f(s))) == Ink(s)
  }

  /** Replacing texts by texts with the same ink keeps all ink. */
  lemma {:induction false} FlatMapKeepsInk(f: string -> seq<string>, texts: seq<string>)
    requires forall i :: 0 <= i < |texts| ==> InkOf(f(texts[i])) == Ink(texts[i])
    ensures InkOf(FlatMap(f, texts)) == InkOf(texts)
  {
    if texts != [] {
      var before, last := texts[..|texts| - 1], texts[|texts| - 1];
      FlatMapKeepsInk(f, before);
      OneMoreReplaced(f, before, last);
      assert before + [last] == texts;
    }
  }

  lemma OneMoreReplaced(f: string -> seq<string>, before: seq<string>, last: string)
    requires InkOf(f(last)) == Ink(last) && InkOf(FlatMap(f, before)) == InkOf(before)
    ensures InkOf(FlatMap(f, before + [last])) == InkOf(before + [last])
  {
    FlatMapNext(f, before, last);
    InkOfSum(FlatMap(f, before), f(last), InkOf(before), Ink(last));
    InkOfMore(before, last);
  }

  /** And so does collecting them without losing ink. */
  lemma CollectKeepsInk(f: string -> Option<string>, texts: seq<string>)
    requires forall i :: 0 <= i < |texts| ==> KeepsInk(f, texts[i])
    ensures InkOf(Collect(f, texts)) == InkOf(texts)
  {
    CollectIsFlatMap(f, texts);
    FlatMapKeepsInk(AsSeq(f), texts);
  }

  lemma {:induction false} MapKeepsInk(f: string -> string, texts: seq<string>)
    requires forall i :: 0 <= i < |texts| ==> Ink(f(texts[i])) == Ink(texts[i])
    ensures InkOf(Map(f, texts)) == InkOf(texts)
  {
    if texts != [] {
      var before, last := texts[..|texts| - 1], texts[|texts| - 1];
      MapKeepsInk(f, before);
      OneMoreMapped(f, before, last);
      assert before + [last] == texts;
    }
  }

  lemma OneMoreMapped(f: string -> string, before: seq<string>, last: string)
    requires Ink(f(last)) == Ink(last) && InkOf(Map(f, before)) == InkOf(before)
    ensures InkOf(Map(f, before + [last])) == InkOf(before + [last])
  {
    MapAppend(f, before, last);
    InkOfMore(Map(f, before), f(last));
    InkOfMore(before, last);
  }

  lemma FiltersKeepInk(s: string)
    ensures KeepsInk(NonBlank, s) && KeepsInk(Visible, s)
  {
    InkOfOne(s);
    InkOfOne(Strip(s));
    InkStrip(s);
    StripEmptyIff(s);
  }

  lemma VisibleKeepsInk(texts: seq<string>)
    ensures InkOf(Collect(Visible, texts)) == InkOf(texts)
  {
    forall i | 0 <= i < |texts|
      ensures KeepsInk(Visible, texts[i])
    {
      FiltersKeepInk(texts[i]);
    }
    CollectKeepsInk(Visible, texts);
  }

  lemma NonBlankKeepsInk(texts: seq<string>)
    ensures InkOf(Collect(NonBlank, texts)) == InkOf(texts)
  {
    forall i | 0 <= i < |texts|
      ensures KeepsInk(NonBlank, texts[i])
    {
      FiltersKeepInk(texts[i]);
    }
    CollectKeepsInk(NonBlank, texts);
  }

  lemma SentencesKeepInk(s: string)
    ensures InkOf(Sentences(s)) == Ink(s)
  {
    PiecesKeepInk(s);
    NonBlankKeepsInk(Pieces(s));
  }

  lemma SplitLongKeepsInk(chunks: seq<string>, max: int)
    ensures InkOf(SplitLong(chunks, max)) == InkOf(chunks)
  {
    forall i | 0 <= i < |chunks|
      ensures InkOf(Repack(max)(chunks[i])) == Ink(chunks[i])
    {
      RepackedKeepsInk(chunks[i], max);
    }
    FlatMapKeepsInk(Repack(max), chunks);
  }

  lemma RepackedKeepsInk(c: string, max: int)
    ensures InkOf(Repacked(c, max)) == Ink(c)
  {
    InkOfSpace(' ');
    PackedKeepsInk(Sentences(c), " ", max);
    SentencesKeepInk(c);
    InkOfOne(c);
  }

  lemma {:induction false} SplitPairsKeepsInk(s: string)
    ensures InkOf(SplitPairs(s)) == Ink(s)
  {
    if |s| < 2 {
      InkOfOne(s);
    } else if s[0] == '\n' && s[1] == '\n' {
      SplitPairsKeepsInk(s[2..]);
      assert s == "\n\n" + s[2..];
      InkConcat("\n\n", s[2..]);
      BreakHasNoInk();
    } else {
      SplitPairsKeepsInk(s[1..]);
      InkOfLonger(s[0], SplitPairs(s[1..]));
    }
  }

  lemma BreakHasNoInk()
    ensures Ink("\n\n") == []
  {
    InkEmptyIff("\n\n");
  }

  lemma InkOfLonger(c: char, texts: seq<string>)
    requires texts != []
    ensures InkOf([[c] + texts[0]] + texts[1..]) == Ink1(c) + InkOf(texts)
  {
    var longer := [c] + texts[0];
    assert longer[1..] == texts[0];
    assert ([longer] + texts[1..])[1..] == texts[1..];
  }

  lemma {:induction false} SplitGapsKeepsInk(s: string)
    ensures InkOf(SplitGaps(s)) == Ink(s)
    decreases |s|
  {
    if s == [] {
    } else if s[0] == '\n' && LastNewline(s[1..]) > 0 {
      var n := 1 + LastNewline(s[1..]);
      SplitGapsKeepsInk(s[n..]);
      assert s == s[..n] + s[n..];
      InkConcat(s[..n], s[n..]);
      assert forall k :: 1 <= k < n ==> s[k] == s[1..][k - 1];
      InkEmptyIff(s[..n]);
    } else {
      SplitGapsKeepsInk(s[1..]);
      InkOfLonger(s[0], SplitGaps(s[1..]));
    }
  }

  lemma StrippedKeepInk(texts: seq<string>)
    ensures InkOf(Map(Strip, texts)) == InkOf(texts)
  {
    forall i | 0 <= i < |texts|
      ensures Ink(Strip(texts[i])) == Ink(texts[i])
    {
      InkStrip(texts[i]);
    }
    MapKeepsInk(Strip, texts);
  }

  /** Chunking drops and reorders nothing that can be seen. */
  lemma ChunksKeepText(text: string, max: int)
    ensures InkOf(Smart(text, max)) == Ink(text)
    ensures Ink(Join("\n\n", Enforced(text, max))) == Ink(text)
  {
    BreakHasNoInk();
    SplitPairsKeepsInk(text);
    VisibleKeepsInk(SplitPairs(text));
    PackedKeepsInk(VisibleParagraphs(text), "\n\n", max);
    SplitLongKeepsInk(Packed(VisibleParagraphs(text), "\n\n", max), max);
    SplitGapsKeepsInk(text);
    StrippedKeepInk(SplitGaps(text));
    SplitLongKeepsInk(Map(Strip, SplitGaps(text)), max);
    InkJoinWith("\n\n", Enforced(text, max));
  }

  // ----- The limit -----

  /** Within the limit, or a single sentence that no cut at marks can shorten. */
  predicate Fitting(c: string, max: int) {
    |c| <= max || Sentences(c) == [c]
  }

  lemma OnePiece(s: string)
    requires s != [] && FirstPiece(s) == |s| && Stripped(s)
    ensures Sentences(s) == [s]
  {
    assert Head(s) == s && Tail(s) == [];
    assert Pieces(s) == [s];
    StripOfStripped(s);
    CollectNext(NonBlank, [], s);
    assert [] + [s] == [s];
  }

  lemma {:induction false} TextRunOf(t: string, m: string)
    requires (forall k :: 0 <= k < |t| ==> !IsMark(t[k])) && (m != [] ==> IsMark(m[0]))
    ensures TextRun(t + m) == |t|
  {
    if t == [] {
      assert t + m == m;
    } else {
      assert (t + m)[1..] == t[1..] + m;
      TextRunOf(t[1..], m);
    }
  }

  lemma {:induction false} MarkRunOf(m: string)
    requires forall k :: 0 <= k < |m| ==> IsMark(m[k])
    ensures MarkRun(m) == |m|
  {
    if m != [] {
      MarkRunOf(m[1..]);
    }
  }

  /** Stripping a piece leaves a piece. */
  lemma StrippedPiece(s: string)
    requires Strip(Head(s)) != []
    ensures Sentences(Strip(Head(s))) == [Strip(Head(s))]
  {
    var t, m := s[..TextRun(s)], s[TextRun(s)..FirstPiece(s)];
    assert Head(s) == t + m;
    assert forall k :: 0 <= k < |m| ==> m[k] == s[TextRun(s)..][k];
    StrippedTextAndMarks(t, m);
  }

  lemma StrippedTextAndMarks(t: string, m: string)
    requires (forall k :: 0 <= k < |t| ==> !IsMark(t[k])) && (forall k :: 0 <= k < |m| ==> IsMark(m[k]))
    requires Strip(t + m) != []
    ensures Sentences(Strip(t + m)) == [Strip(t + m)]
  {
    var t' := StripBeforeMarks(t, m);
    TextRunOf(t', m);
    assert (t' + m)[|t'|..] == m;
    MarkRunOf(m);
    OnePiece(t' + m);
  }

  lemma StripBeforeMarks(t: string, m: string) returns (t': string)
    requires (forall k :: 0 <= k < |t| ==> !IsMark(t[k])) && (forall k :: 0 <= k < |m| ==> IsMark(m[k]))
    ensures Strip(t + m) == t' + m && Stripped(t' + m)
    ensures forall k :: 0 <= k < |t'| ==> !IsMark(t'[k])
  {
    var i := StripCuts(t + m);
    if m == [] {
      t' := Strip(t + m);
      assert forall k :: 0 <= k < |t'| ==> t'[k] == t[i + k];
      assert t' + m == t';
    } else {
      t' := LStrip(t);
      LStripBefore(t, m);
      LStripPart(t);
    }
  }

  lemma {:induction false} PiecesAreSentences(s: string, c: string)
    requires c in Sentences(s)
    ensures Sentences(c) == [c] && c != [] && Stripped(c)
    decreases |s|
  {
    if s != [] {
      CollectFirst(NonBlank, Head(s), Pieces(Tail(s)));
      if c !in Sentences(Tail(s)) {
        StrippedPiece(s);
        var i := StripCuts(Head(s));
      } else {
        PiecesAreSentences(Tail(s), c);
      }
    }
  }

  lemma PackedFit(s: string, max: int)
    ensures forall c :: c in Packed(Sentences(s), " ", max) ==> Fitting(c, max)
  {
    var sentences, ok := Sentences(s), FitsJoined(" ", max);
    var groups := Greedy(sentences, ok);
    SingletonsFit(" ", max);
    GreedyGroups(sentences, ok);
    forall c | c in Packed(sentences, " ", max)
      ensures Fitting(c, max)
    {
      var k :| 0 <= k < |groups| && c == ChunkOf(" ")(groups[k]);
      var i, j := GroupIsStretch(groups, sentences, k);
      var at := StripCuts(Join(" ", groups[k]));
      if |groups[k]| == 1 {
        assert groups[k][0] == sentences[i];
        PiecesAreSentences(s, groups[k][0]);
        StripOfStripped(groups[k][0]);
      }
    }
  }

  lemma {:induction false} SplitLongFits(chunks: seq<string>, max: int)
    ensures forall c :: c in SplitLong(chunks, max) ==> Fitting(c, max)
  {
    if chunks != [] {
      SplitLongFits(chunks[..|chunks| - 1], max);
      PackedFit(chunks[|chunks| - 1], max);
    }
  }

  /** A chunk exceeds the limit only where a single sentence does. */
  lemma ChunksFit(text: string, max: int)
    ensures forall c :: c in Smart(text, max) ==> Fitting(c, max)
    ensures forall c :: c in Enforced(text, max) ==> Fitting(c, max)
  {
    SplitLongFits(Packed(VisibleParagraphs(text), "\n\n", max), max);
    SplitLongFits(Map(Strip, SplitGaps(text)), max);
  }

  // ----- As few chunks as possible -----

  lemma FitsIsHereditary(sep: string, max: int)
    ensures Hereditary(FitsJoined(sep, max))
  {
    var ok := FitsJoined(sep, max);
    forall s: seq<string>, i, j | 0 <= i < j <= |s| && ok(s)
      ensures ok(s[i..j])
    {
      if |s| > 1 {
        Reassemble(s, i, j);
        var pre, post := JoinStretch(sep, s[..i], s[i..j], s[j..]);
      }
    }
  }

  /** No way to group the texts under the limit needs fewer chunks. */
  lemma FewestChunks(texts: seq<string>, sep: string, max: int, groups: seq<seq<string>>)
    requires Grouping(groups, texts, FitsJoined(sep, max))
    ensures |Packed(texts, sep, max)| <= |groups|
  {
    FitsIsHereditary(sep, max);
    GreedyIsFewest(texts, groups, FitsJoined(sep, max));
  }

  function Total(groupings: seq<seq<seq<string>>>): nat {
    if groupings == [] then 0 else Total(groupings[..|groupings| - 1]) + |groupings[|groupings| - 1]|
  }

  /** Every chunk cut into groups of sentences within the limit. */
  ghost predicate CutsEach(chunks: seq<string>, max: int, groupings: seq<seq<seq<string>>>) {
    && |groupings| == |chunks|
    && forall i :: 0 <= i < |chunks| ==> Grouping(groupings[i], Sentences(chunks[i]), FitsJoined(" ", max))
  }

  /** Cutting every chunk of the first pass into groups of sentences, in any way the limit allows, never gives
    * fewer chunks in all. */
  lemma {:induction false} FewestInAll(chunks: seq<string>, max: int, groupings: seq<seq<seq<string>>>)
    requires CutsEach(chunks, max, groupings) && AllShow(chunks)
    ensures |SplitLong(chunks, max)| <= Total(groupings)
  {
    if chunks != [] {
      var n := |chunks| - 1;
      FewestInAll(chunks[..n], max, groupings[..n]);
      SentencesKeepInk(chunks[n]);
      StripEmptyIff(chunks[n]);
      FewestChunks(Sentences(chunks[n]), " ", max, groupings[n]);
    }
  }

  /** smart_chunk_text packs its paragraphs, and then the sentences of what is still too long, into as few chunks
    * as the limit allows at each of the two levels. */
  lemma SmartIsFewest(text: string, max: int, groups: seq<seq<string>>, groupings: seq<seq<seq<string>>>)
    requires Grouping(groups, VisibleParagraphs(text), FitsJoined("\n\n", max))
    requires CutsEach(Packed(VisibleParagraphs(text), "\n\n", max), max, groupings)
    ensures |Packed(VisibleParagraphs(text), "\n\n", max)| <= |groups|
    ensures |Smart(text, max)| <= Total(groupings)
  {
    FewestChunks(VisibleParagraphs(text), "\n\n", max, groups);
    VisibleAreShown(SplitPairs(text));
    PackedParagraphsShow(VisibleParagraphs(text), max);
    FewestInAll(Packed(VisibleParagraphs(text), "\n\n", max), max, groupings);
  }

  lemma PackedParagraphsShow(paragraphs: seq<string>, max: int)
    requires AllShow(paragraphs)
    ensures AllShow(Packed(paragraphs, "\n\n", max))
  {
    var ok := FitsJoined("\n\n", max);
    var groups := Greedy(paragraphs, ok);
    SingletonsFit("\n\n", max);
    GreedyGroups(paragraphs, ok);
    forall k | 0 <= k < |groups|
      ensures Strip(Packed(paragraphs, "\n\n", max)[k]) != []
    {
      var i, j := GroupIsStretch(groups, paragraphs, k);
      assert groups[k][0] == paragraphs[i];
      GroupShows(groups[k]);
    }
  }

  lemma GroupShows(group: seq<string>)
    requires group != [] && Strip(group[0]) != []
    ensures Strip(ChunkOf("\n\n")(group)) != []
  {
    var joined := Join("\n\n", group);
    BreakHasNoInk();
    InkJoinWith("\n\n", group);
    StripEmptyIff(group[0]);
    StripEmptyIff(joined);
    InkStrip(joined);
    StripEmptyIff(Strip(joined));
  }
}
