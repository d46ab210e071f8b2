/** Splitting an over-long sentence on segment boundaries. */
module Sentences {
  import opened Common
  import opened Text
  import opened Partition

  const MAX_SENTENCE_DURATION := 24.0
  const MAX_SENTENCE_WORDS := 80
  const MAX_SEGMENTS_PER_SENTENCE := 20

  datatype Segment = Segment(start: real, end: real, text: string)

  datatype Sentence = Sentence(start: real, end: real, text: string, segments: seq<Segment>)

  predicate StartsSorted(sentences: seq<Sentence>) {
    forall i, j :: 0 <= i < j < |sentences| ==> sentences[i].start <= sentences[j].start
  }

  /** `float(seg.end or start)`: an end of zero counts as missing. */
  function EndOf(seg: Segment, start: real): real {
    if seg.end == 0.0 then start else seg.end
  }

  /** What a segment adds to a sentence: seconds, never negative, and words or characters. */
  datatype Weight = Weight(duration: real, units: nat)

  function DurationOf(seg: Segment): (d: real)
    ensures d >= 0.0
  {
    var d := EndOf(seg, seg.start) - seg.start;
    if d < 0.0 then 0.0 else d
  }

  function UnitsOf(seg: Segment): nat {
    CountUnits(Strip(seg.text))
  }

  function Weights(segs: seq<Segment>): seq<Weight> {
    seq(|segs|, i requires 0 <= i < |segs| => Weight(DurationOf(segs[i]), UnitsOf(segs[i])))
  }

  function Duration(ws: seq<Weight>): real {
    if ws == [] then 0.0 else Duration(ws[..|ws| - 1]) + ws[|ws| - 1].duration
  }

  function Units(ws: seq<Weight>): nat {
    if ws == [] then 0 else Units(ws[..|ws| - 1]) + ws[|ws| - 1].units
  }

  predicate Exceeds(duration: real, units: nat, count: nat) {
    duration > MAX_SENTENCE_DURATION || units > MAX_SENTENCE_WORDS || count > MAX_SEGMENTS_PER_SENTENCE
  }

  /** The bounds a chunk of several segments must keep. */
  predicate WithinBounds(segs: seq<Segment>) {
    |segs| == 1 || !Exceeds(Duration(Weights(segs)), Units(Weights(segs)), |segs|)
  }

  function Texts(segs: seq<Segment>): seq<string> {
    if segs == [] then [] else [Strip(segs[0].text)] + Texts(segs[1..])
  }

  /** The chunk push_chunk makes of its open segments; it never pushes an empty one. */
  function Chunk(segs: seq<Segment>): Sentence {
    if segs == [] then Sentence(0.0, 0.0, "", [])
    else
      var start := segs[0].start;
      Sentence(start, EndOf(segs[|segs| - 1], start), Tidy(Texts(segs)), segs)
  }

  /** The loop's state: `chunks` pushed, `open` still growing, `rest` to come, of `all`. */
  ghost predicate Splitting(chunks: seq<Sentence>, open: seq<Segment>, rest: seq<Segment>, all: seq<Segment>,
                            groups: seq<seq<Segment>>) {
    Packing(groups, open, rest, all, WithinBounds) && chunks == Map(Chunk, groups)
  }

  method PushChunk(chunks: seq<Sentence>, open: seq<Segment>) returns (r: seq<Sentence>)
    ensures r == if open == [] then chunks else chunks + [Chunk(open)]
  {
    if open == [] {
      return chunks;
    }
    var start := open[0].start;
    var text := Tidy(Texts(open));
    r := chunks + [Sentence(start, EndOf(open[|open| - 1], start), text, open)];
  }

  /** The body of the loop. */
  method TakeSegment(chunks: seq<Sentence>, open: seq<Segment>, units: nat, duration: real, seg: Segment,
                     ghost groups: seq<seq<Segment>>, ghost rest: seq<Segment>, ghost all: seq<Segment>)
    returns (chunks': seq<Sentence>, open': seq<Segment>, units': nat, duration': real,
             ghost groups': seq<seq<Segment>>)
    requires units == Units(Weights(open)) && duration == Duration(Weights(open))
    requires Splitting(chunks, open, [seg] + rest, all, groups)
    ensures units' == Units(Weights(open')) && duration' == Duration(Weights(open'))
    ensures Splitting(chunks', open', rest, all, groups')
  {
    var nextUnits, nextDuration := units + UnitsOf(seg), duration + DurationOf(seg);
    BoundsOfNext(open, seg);
    if open != [] && Exceeds(nextDuration, nextUnits, |open| + 1) {
      SplittingCloses(chunks, open, seg, rest, all, groups);
      chunks' := PushChunk(chunks, open);
      groups' := groups + [open];
      BoundsOfOne(seg);
      open', units', duration' := [seg], UnitsOf(seg), DurationOf(seg);
    } else {
      SplittingExtends(chunks, open, seg, rest, all, groups);
      chunks', groups' := chunks, groups;
      open', units', duration' := open + [seg], nextUnits, nextDuration;
    }
  }

  /** _split_long_sentence_segments: the loop packs greedily. */
  method SplitLongSentence(segments: seq<Segment>) returns (chunks: seq<Sentence>)
    ensures var groups := Greedy(segments, WithinBounds);
            Grouping(groups, segments, WithinBounds) && chunks == Map(Chunk, groups)
  {
    chunks := [];
    var chunkSegments, chunkUnits, chunkDuration := [], 0, 0.0;
    ghost var groups: seq<seq<Segment>> := [];
    PackingStarts(segments, WithinBounds);
    for i := 0 to |segments|
      invariant chunkUnits == Units(Weights(chunkSegments)) && chunkDuration == Duration(Weights(chunkSegments))
      invariant Splitting(chunks, chunkSegments, segments[i..], segments, groups)
    {
      DropNext(segments, i);
      chunks, chunkSegments, chunkUnits, chunkDuration, groups :=
        TakeSegment(chunks, chunkSegments, chunkUnits, chunkDuration, segments[i], groups, segments[i + 1..], segments);
    }
    SplittingEnds(chunks, chunkSegments, segments, groups);
    chunks := PushChunk(chunks, chunkSegments);
  }

  lemma {:induction false} DurationConcat(a: seq<Weight>, b: seq<Weight>)
    ensures Duration(a + b) == Duration(a) + Duration(b)
    ensures Units(a + b) == Units(a) + Units(b)
  {
    if b == [] {
      assert a + b == a;
    } else {
      DurationConcat(a, b[..|b| - 1]);
      assert (a + b)[..|a + b| - 1] == a + b[..|b| - 1];
    }
  }

  lemma BoundsOfOne(seg: Segment)
    ensures Units(Weights([seg])) == UnitsOf(seg) && Duration(Weights([seg])) == DurationOf(seg)
  {
    BoundsOfNext([], seg);
    assert [] + [seg] == [seg];
  }

  lemma BoundsOfNext(segs: seq<Segment>, seg: Segment)
    ensures Units(Weights(segs + [seg])) == Units(Weights(segs)) + UnitsOf(seg)
    ensures Duration(Weights(segs + [seg])) == Duration(Weights(segs)) + DurationOf(seg)
  {
    var w := Weight(DurationOf(seg), UnitsOf(seg));
    assert Weights(segs + [seg]) == Weights(segs) + [w];
    assert (Weights(segs) + [w])[..|segs|] == Weights(segs);
  }

  lemma SplittingExtends(chunks: seq<Sentence>, open: seq<Segment>, seg: Segment, rest: seq<Segment>, all: seq<Segment>,
                         groups: seq<seq<Segment>>)
    requires Splitting(chunks, open, [seg] + rest, all, groups)
    requires open == [] || WithinBounds(open + [seg])
    ensures Splitting(chunks, open + [seg], rest, all, groups)
  {
    PackingExtends(groups, open, seg, rest, all, WithinBounds);
  }

  lemma SplittingCloses(chunks: seq<Sentence>, open: seq<Segment>, seg: Segment, rest: seq<Segment>, all: seq<Segment>,
                        groups: seq<seq<Segment>>)
    requires Splitting(chunks, open, [seg] + rest, all, groups)
    requires open != [] && !WithinBounds(open + [seg])
    ensures Splitting(chunks + [Chunk(open)], [seg], rest, all, groups + [open])
  {
    PackingCloses(groups, open, seg, rest, all, WithinBounds);
    MapAppend(Chunk, groups, open);
  }

  lemma SplittingEnds(chunks: seq<Sentence>, open: seq<Segment>, all: seq<Segment>, groups: seq<seq<Segment>>)
    requires Splitting(chunks, open, all[|all|..], all, groups)
    ensures var gs := Greedy(all, WithinBounds);
            && Grouping(gs, all, WithinBounds)
            && Map(Chunk, gs) == if open == [] then chunks else chunks + [Chunk(open)]
  {
    GreedyGroups(all, WithinBounds);
    PackingEnds(groups, open, all, WithinBounds);
    MapAppend(Chunk, groups, open);
  }

  // ----- Optimality -----

  lemma {:induction false} DurationNonNegative(ws: seq<Weight>)
    requires forall w :: w in ws ==> w.duration >= 0.0
    ensures Duration(ws) >= 0.0
  {
    if ws != [] {
      DurationNonNegative(ws[..|ws| - 1]);
    }
  }

  lemma StretchIsLighter(ws: seq<Weight>, i: nat, j: nat)
    requires i <= j <= |ws|
    requires forall w :: w in ws ==> w.duration >= 0.0
    ensures Duration(ws[i..j]) <= Duration(ws)
    ensures Units(ws[i..j]) <= Units(ws)
  {
    var a, b, c := ws[..i], ws[i..j], ws[j..];
    assert ws == (a + b) + c;
    DurationConcat(a + b, c);
    DurationConcat(a, b);
    DurationNonNegative(a);
    DurationNonNegative(c);
  }

  lemma BoundsOfStretch(s: seq<Segment>, i: nat, j: nat)
    requires i < j <= |s| && WithinBounds(s)
    ensures WithinBounds(s[i..j])
  {
    WeightsOfStretch(s, i, j);
    StretchIsLighter(Weights(s), i, j);
  }

  lemma WeightsOfStretch(s: seq<Segment>, i: nat, j: nat)
    requires i <= j <= |s|
    ensures Weights(s[i..j]) == Weights(s)[i..j]
  {
  }

  lemma BoundsAreHereditary()
    ensures Hereditary(WithinBounds)
  {
    forall s: seq<Segment>, i, j | 0 <= i < j <= |s| && WithinBounds(s)
      ensures WithinBounds(s[i..j])
    {
      BoundsOfStretch(s, i, j);
    }
  }

  /** The split conserves the segments in order, keeps every chunk single or within bounds, and no way
    * of cutting the segments within those bounds has fewer chunks. */
  lemma SplitIsOptimal(segments: seq<Segment>, other: seq<seq<Segment>>)
    ensures Grouping(Greedy(segments, WithinBounds), segments, WithinBounds)
    ensures Grouping(other, segments, WithinBounds) ==> |Greedy(segments, WithinBounds)| <= |other|
  {
    GreedyGroups(segments, WithinBounds);
    BoundsAreHereditary();
    if Grouping(other, segments, WithinBounds) {
      GreedyIsFewest(segments, other, WithinBounds);
    }
  }
}
