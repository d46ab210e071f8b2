/** Where the safety net splits a sentence that was ended early, text is shown twice. */
module MergeExample {
  import opened Common
  import opened Text
  import opened Punctuation
  import opened Partition
  import opened Sentences
  import opened Merge
  import opened MergeLaws

  /** The first segment begins a sentence, the second ends it after one word and goes on. */
  const FIRST := Segment(0.0, 20.0, "a")
  const SECOND := Segment(20.0, 40.0, "b? c")

  lemma NoEnd(c: char)
    requires 'a' <= c <= 'z'
    ensures FindLateSplit([c]) == -1 && !EndsWithSentence([c]) && Strip([c]) == [c]
  {
    StripOfStripped([c]);
    assert !EndsSentenceAt([c], 0);
    assert TruePositions([c], 0) == [];
  }

  lemma OneUnit(c: char)
    requires !IsSpace(c)
    ensures CountUnits([c]) == 1
  {
    StripOfStripped([c]);
    assert IsSpace(' ') && IsSpace('\t') && IsSpace('\n');
    assert [c][1..] == [] && Ink([c]) == [c];
  }

  lemma EarlyEnd()
    ensures FindEarlySplit("b? c") == 2 && Strip("b? c") == "b? c"
  {
    StripOfStripped("b? c");
    StripOfStripped("b");
    OneUnit('b');
    assert "b? c"[..1] == "b";
    assert EndsSentenceAt("b? c", 1) && !EndsSentenceAt("b? c", 0);
    assert FirstEnd("b? c", 1);
    EarlySplitIff("b? c", 2);
  }

  lemma EarlyParts()
    ensures Strip("b? c"[..2]) == "b?" && Strip("b? c"[2..]) == "c"
  {
    assert "b? c"[..2] == "b?" && "b? c"[2..] == " c" && " c"[1..] == "c";
    StripOfStripped("b?");
    StripOfStripped("c");
    assert LStrip(" c") == LStrip("c");
  }

  /** Reading a segment that ends the open sentence early and goes on without another end. */
  lemma EarlyRead(r: Reader, seg: Segment, text: string, early: int, head: string, tail: string)
    requires NextText(r.carry, seg) == text && text != [] && r.m.parts != []
    requires FindEarlySplit(text) == early && 0 < early <= |text|
    requires Strip(text[..early]) == head && Strip(text[early..]) == tail && tail != []
    requires FindLateSplit(tail) <= 0 && !EndsWithSentence(tail)
    ensures var end := Read(r, seg);
            && end.carry == "" && end.m.parts == [tail] && end.m.cur == [seg]
            && end.flushes == r.flushes + [Flush(r.m.parts + [head], r.m.cur + [seg])]
  {
    assert Read(r, seg) == Put(Flushed(Put(r.(carry := ""), head, seg)), tail, seg);
  }

  lemma FirstRead()
    ensures Read(NOTHING_READ, FIRST) == Reader(Merging([], ["a"], [FIRST], Some(0.0)), "", [])
  {
    NoEnd('a');
  }

  /** The facts EarlyRead asks of the second segment, with its texts under names. */
  lemma SecondTexts() returns (text: string, head: string, tail: string)
    ensures NextText("", SECOND) == text && text != [] && FindEarlySplit(text) == 2 <= |text|
    ensures Strip(text[..2]) == head && Strip(text[2..]) == tail && tail != []
    ensures FindLateSplit(tail) <= 0 && !EndsWithSentence(tail)
    ensures head == "b?" && tail == "c"
  {
    text, head, tail := "b? c", "b?", "c";
    EarlyEnd();
    EarlyParts();
    NoEnd('c');
  }

  lemma SecondRead(r: Reader)
    requires r.m.parts == ["a"] && r.m.cur == [FIRST] && r.carry == "" && r.flushes == []
    ensures var end := Read(r, SECOND);
            && end.carry == "" && end.m.parts == ["c"] && end.m.cur == [SECOND]
            && end.flushes == [Flush(["a", "b?"], [FIRST, SECOND])]
  {
    var text, head, tail := SecondTexts();
    EarlyRead(r, SECOND, text, 2, head, tail);
    assert ["a"] + ["b?"] == ["a", "b?"] && [FIRST] + [SECOND] == [FIRST, SECOND];
  }

  lemma FoldOfTwo<A, B>(f: (B, A) -> B, start: B, x: A, y: A)
    ensures Fold(f, start, [x, y]) == f(f(start, x), y)
  {
    assert [x, y][..1] == [x] && [x][..0] == [];
    assert Fold(f, start, [x]) == f(Fold(f, start, []), x);
  }

  lemma FlushesOfTwo(x: Segment, y: Segment, end: Reader)
    requires end == Read(Read(NOTHING_READ, x), y) && end.m.parts != [] && end.carry == ""
    ensures Flushes([x, y]) == end.flushes + [Flush(end.m.parts, end.m.cur)] && CarriedSentence([x, y]) == []
  {
    FoldOfTwo(Read, NOTHING_READ, x, y);
    assert Ended([x, y]) == Flushed(end) && Strip("") == "";
  }

  lemma EarlyFlushes()
    ensures Flushes([FIRST, SECOND]) == [Flush(["a", "b?"], [FIRST, SECOND]), Flush(["c"], [SECOND])]
    ensures CarriedSentence([FIRST, SECOND]) == []
  {
    FirstRead();
    var r := Read(NOTHING_READ, FIRST);
    SecondRead(r);
    FlushesOfTwo(FIRST, SECOND, Read(r, SECOND));
  }

  lemma TooLong()
    ensures !FitsOneChunk([FIRST, SECOND]) && FitsOneChunk([SECOND])
  {
    BoundsOfOne(FIRST);
    BoundsOfNext([FIRST], SECOND);
    assert [FIRST] + [SECOND] == [FIRST, SECOND];
    FitsIff([FIRST, SECOND]);
    FitsIff([SECOND]);
  }

  lemma LetterInk()
    ensures Ink("a") == "a" && Ink("c") == "c" && Ink("b? c") == "b?c"
  {
    assert "a"[1..] == [] && "c"[1..] == [];
    assert "b? c"[1..] == "? c" && "? c"[1..] == " c" && " c"[1..] == "c";
  }

  lemma InkOfPair(a: string, b: string)
    ensures InkOf([a, b]) == Ink(a) + Ink(b)
  {
    InkOfOne(b);
    assert [a, b][1..] == [b];
  }

  lemma RawInk()
    ensures InkOf(RawTexts([FIRST, SECOND])) == "ab?c" && InkOf(["c"]) == "c"
  {
    LetterInk();
    InkOfOne("c");
    InkOfPair("a", "b? c");
    assert RawTexts([FIRST, SECOND]) == ["a", "b? c"];
  }

  lemma ShownByTwo(a: Flush, b: Flush)
    ensures ShownInk([a, b]) == ShownBy(a) + ShownBy(b)
  {
    assert [a, b][..1] == [a] && [a][..0] == [];
    assert ShownInk([a]) == ShownInk([]) + ShownBy(a);
    assert [] + ShownBy(a) == ShownBy(a);
  }

  /** The word after the early end is shown by the split sentence and by the next one. */
  lemma SplitRepeatsText()
    ensures InkOf(SentenceTexts(Merged([FIRST, SECOND]))) == "ab?cc"
    ensures InkOf(RawTexts([FIRST, SECOND])) == "ab?c"
  {
    MergedShows([FIRST, SECOND]);
    EarlyFlushes();
    TooLong();
    RawInk();
    ShownByTwo(Flush(["a", "b?"], [FIRST, SECOND]), Flush(["c"], [SECOND]));
    assert SentenceTexts([]) == [];
  }
}
