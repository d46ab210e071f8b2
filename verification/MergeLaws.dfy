/** What merging captions into sentences keeps: every visible segment, the order, the bounds and the text. */
module MergeLaws {
  import opened Common
  import opened Text
  import opened Punctuation
  import opened Partition
  import opened Sentences
  import opened Merge

  function SentenceTexts(sentences: seq<Sentence>): seq<string> {
    if sentences == [] then [] else [sentences[0].text] + SentenceTexts(sentences[1..])
  }

  predicate SortedByStart(segs: seq<Segment>) {
    forall i, j :: 0 <= i < j < |segs| ==> segs[i].start <= segs[j].start
  }

  predicate HasSuffixSegs(done: seq<Segment>, cur: seq<Segment>) {
    |cur| <= |done| && done[|done| - |cur|..] == cur
  }

  ghost predicate InSome(seg: Segment, sentences: seq<Sentence>) {
    exists i :: 0 <= i < |sentences| && seg in sentences[i].segments
  }

  /** The open sentence holds the last segments read and starts with the first of them. */
  ghost predicate OpenOk(m: Merging, done: seq<Segment>) {
    && HasSuffixSegs(done, m.cur)
    && (m.parts == [] <==> m.cur == [])
    && m.start == (if m.cur == [] then None else Some(m.cur[0].start))
    && forall i :: 0 <= i < |m.parts| ==> Ink(m.parts[i]) != []
  }

  /** Later sentences start later, the open one last. */
  ghost predicate Ordered(m: Merging, done: seq<Segment>) {
    SortedByStart(done) ==>
      && StartsSorted(m.merged)
      && forall i :: 0 <= i < |m.merged| ==>
        done != [] && m.merged[i].start <= (if m.cur == [] then done[|done| - 1] else m.cur[0]).start
  }

  ghost predicate Covered(m: Merging, done: seq<Segment>) {
    forall i :: 0 <= i < |done| && Ink(done[i].text) != [] ==> done[i] in m.cur || InSome(done[i], m.merged)
  }

  /** A sentence lasts from the start of its first segment to the end of its last; an end of zero counts
    * as missing, except in the sentence made of the carried-over text. */
  predicate Timed(s: Sentence) {
    && s.segments != []
    && s.start == s.segments[0].start
    && var last := s.segments[|s.segments| - 1];
       s.end == last.end || (last.end == 0.0 && s.end == s.start)
  }

  ghost predicate AllSound(sentences: seq<Sentence>) {
    forall s :: s in sentences ==> Sound(s)
  }

  predicate Sound(s: Sentence) {
    WithinBounds(s.segments) && Timed(s)
  }

  /** No sentence had to be split. */
  ghost predicate AllFit(flushes: seq<Flush>) {
    forall i :: 0 <= i < |flushes| ==> FitsOneChunk(flushes[i].segments)
  }

  /** What the flushed sentences contribute to the result. */
  function Output(flushes: seq<Flush>): seq<Sentence> {
    if flushes == [] then []
    else Output(flushes[..|flushes| - 1]) + SentencesOf(flushes[|flushes| - 1])
  }

  function SentencesOf(f: Flush): seq<Sentence> {
    FlushedSentences(f.parts, f.segments, if f.segments == [] then None else Some(f.segments[0].start))
  }

  /** The visible text of the flushed sentences. */
  function FlushedInk(flushes: seq<Flush>): string {
    if flushes == [] then "" else FlushedInk(flushes[..|flushes| - 1]) + InkOf(flushes[|flushes| - 1].parts)
  }

  /** What a flush comes to show: its own texts, or, where it is split, the raw texts of its segments. */
  function ShownBy(f: Flush): string {
    if FitsOneChunk(f.segments) then InkOf(f.parts) else InkOf(RawTexts(f.segments))
  }

  function ShownInk(flushes: seq<Flush>): string {
    if flushes == [] then "" else ShownInk(flushes[..|flushes| - 1]) + ShownBy(flushes[|flushes| - 1])
  }

  /** Every flush fits, or its segments were cut nowhere, so that reading them raw gives the same text. */
  ghost predicate AllAligned(flushes: seq<Flush>) {
    forall i :: 0 <= i < |flushes| ==> ShownBy(flushes[i]) == InkOf(flushes[i].parts)
  }

  /** All visible text read so far is in the flushed sentences or in the open one. */
  ghost predicate InkKept(m: Merging, flushes: seq<Flush>, ink: string) {
    FlushedInk(flushes) + InkOf(m.parts) == ink
  }

  /** Every flushed sentence shows something and its segments are a stretch of the input. */
  ghost predicate Stretches(flushes: seq<Flush>, done: seq<Segment>) {
    forall i :: 0 <= i < |flushes| ==> IsStretch(flushes[i], done)
  }

  ghost predicate IsStretch(f: Flush, done: seq<Segment>) {
    && f.parts != [] && Ink(f.parts[0]) != []
    && exists a, b :: 0 <= a < b <= |done| && f.segments == done[a..b]
  }

  ghost predicate Kept(m: Merging, done: seq<Segment>, flushes: seq<Flush>, ink: string) {
    && OpenOk(m, done)
    && Ordered(m, done)
    && Covered(m, done)
    && AllSound(m.merged)
    && Stretches(flushes, done)
    && InkKept(m, flushes, ink)
    && m.merged == Output(flushes)
  }

  lemma StretchesGrow(flushes: seq<Flush>, done: seq<Segment>, seg: Segment)
    requires Stretches(flushes, done)
    ensures Stretches(flushes, done + [seg])
  {
    forall i | 0 <= i < |flushes|
      ensures IsStretch(flushes[i], done + [seg])
    {
      var a, b :| 0 <= a < b <= |done| && flushes[i].segments == done[a..b];
      assert (done + [seg])[a..b] == done[a..b];
    }
  }

  lemma SortedPrefix(done: seq<Segment>, seg: Segment)
    ensures SortedByStart(done + [seg]) ==>
              SortedByStart(done) && forall i :: 0 <= i < |done| ==> done[i].start <= seg.start
  {
    var done' := done + [seg];
    assert forall i :: 0 <= i < |done| ==> done'[i] == done[i];
    assert done'[|done|] == seg;
  }

  lemma GrowingOrder(m: Merging, done: seq<Segment>, m': Merging, seg: Segment)
    requires OpenOk(m, done) && Ordered(m, done)
    requires m'.merged == m.merged && (m'.cur == m.cur + [seg] || (m'.cur == m.cur == []))
    ensures Ordered(m', done + [seg])
  {
    SortedPrefix(done, seg);
  }

  lemma GrowingCover(m: Merging, done: seq<Segment>, m': Merging, seg: Segment)
    requires Covered(m, done)
    requires m'.merged == m.merged && (m'.cur == m.cur + [seg] || (m'.cur == m.cur == [] && Ink(seg.text) == []))
    ensures Covered(m', done + [seg])
  {
    var done' := done + [seg];
    assert forall i :: 0 <= i < |done'| ==> done'[i] == if i < |done| then done[i] else seg;
  }

  lemma OpeningInk(m: Merging, part: string, seg: Segment, flushes: seq<Flush>, ink: string)
    requires InkKept(m, flushes, ink)
    ensures InkKept(Opened(m, part, seg), flushes, ink + Ink(part))
  {
    InkOfMore(m.parts, part);
    Associates(FlushedInk(flushes), InkOf(m.parts), Ink(part));
  }

  lemma Associates(a: string, b: string, c: string)
    ensures a + (b + c) == a + b + c
  {
  }

  /** Text put into the open sentence, or into a new one, from a segment just read. */
  lemma OpeningKeeps(m: Merging, done: seq<Segment>, part: string, seg: Segment, flushes: seq<Flush>, ink: string)
    requires Kept(m, done, flushes, ink) && Ink(part) != []
    ensures Kept(Opened(m, part, seg), done + [seg], flushes, ink + Ink(part))
  {
    var m' := Opened(m, part, seg);
    StretchesGrow(flushes, done, seg);
    OpeningShape(m, done, part, seg);
    GrowingOrder(m, done, m', seg);
    GrowingCover(m, done, m', seg);
    OpeningInk(m, part, seg, flushes, ink);
  }

  lemma OpeningShape(m: Merging, done: seq<Segment>, part: string, seg: Segment)
    requires OpenOk(m, done) && Ink(part) != []
    ensures OpenOk(Opened(m, part, seg), done + [seg])
  {
  }

  /** A blank segment between sentences is passed over. */
  lemma SkippingKeeps(m: Merging, done: seq<Segment>, seg: Segment, flushes: seq<Flush>, ink: string)
    requires Kept(m, done, flushes, ink)
    requires m.cur == [] && Ink(seg.text) == []
    ensures Kept(m, done + [seg], flushes, ink)
  {
    StretchesGrow(flushes, done, seg);
    GrowingOrder(m, done, m, seg);
    GrowingCover(m, done, m, seg);
  }

  /** A blank segment inside a sentence is kept for its timing. */
  lemma TimingKeeps(m: Merging, done: seq<Segment>, seg: Segment, flushes: seq<Flush>, ink: string)
    requires Kept(m, done, flushes, ink) && m.cur != []
    ensures Kept(m.(cur := m.cur + [seg]), done + [seg], flushes, ink)
  {
    var m' := m.(cur := m.cur + [seg]);
    StretchesGrow(flushes, done, seg);
    GrowingOrder(m, done, m', seg);
    GrowingCover(m, done, m', seg);
  }

  /** The rest of a segment's text opens the next sentence with the same segment. */
  lemma ReopeningKeeps(m: Merging, done: seq<Segment>, part: string, flushes: seq<Flush>, ink: string)
    requires Kept(m, done, flushes, ink) && Ink(part) != []
    requires m.cur == [] && done != []
    ensures Kept(Opened(m, part, done[|done| - 1]), done, flushes, ink + Ink(part))
  {
    OpeningInk(m, part, done[|done| - 1], flushes, ink);
    ReopeningShape(m, Opened(m, part, done[|done| - 1]), done);
  }

  lemma ReopeningShape(m: Merging, m': Merging, done: seq<Segment>)
    requires OpenOk(m, done) && Ordered(m, done) && Covered(m, done)
    requires m.cur == [] && done != []
    requires var seg := done[|done| - 1];
             exists part :: Ink(part) != [] && m' == Opened(m, part, seg)
    ensures OpenOk(m', done) && Ordered(m', done) && Covered(m', done)
  {
    assert m'.cur == [done[|done| - 1]] == done[|done| - 1..];
  }

  // ----- Flushing -----

  lemma {:induction false} InkOfNonEmpty(parts: seq<string>)
    ensures InkOf(NonEmpty(parts)) == InkOf(parts)
  {
    if parts != [] {
      InkOfNonEmpty(parts[1..]);
      if parts[0] == [] {
        assert NonEmpty(parts) == NonEmpty(parts[1..]);
      } else {
        InkOfConcat([parts[0]], NonEmpty(parts[1..]));
        InkOfOne(parts[0]);
      }
    }
  }

  lemma {:induction false} ShownMembers(sentences: seq<Sentence>)
    ensures forall s :: s in Shown(sentences) <==> s in sentences && s.text != []
    ensures StartsSorted(sentences) ==> StartsSorted(Shown(sentences))
  {
    if sentences != [] {
      ShownMembers(sentences[..|sentences| - 1]);
    }
  }

  lemma {:induction false} TextsInk(segs: seq<Segment>, k: nat)
    requires k < |segs| && Ink(segs[k].text) != []
    ensures InkOf(Texts(segs)) != []
  {
    InkStrip(segs[0].text);
    if k > 0 {
      TextsInk(segs[1..], k - 1);
    }
    assert Texts(segs)[1..] == Texts(segs[1..]);
  }

  lemma {:induction false} GroupStartsSorted(groups: seq<seq<Segment>>, segs: seq<Segment>)
    requires Flatten(groups) == segs && SortedByStart(segs)
    requires forall i :: 0 <= i < |groups| ==> groups[i] != []
    ensures forall i, j :: 0 <= i < j < |groups| ==> groups[i][0].start <= groups[j][0].start
    ensures forall i ::
              0 <= i < |groups| ==> segs != [] && segs[0].start <= groups[i][0].start <= segs[|segs| - 1].start
  {
    if groups != [] {
      var rest := segs[|groups[0]|..];
      assert rest == Flatten(groups[1..]);
      GroupStartsSorted(groups[1..], rest);
      assert segs[0] == groups[0][0];
      if rest != [] {
        assert rest[0] == segs[|groups[0]|] && rest[|rest| - 1] == segs[|segs| - 1];
      }
    }
  }

  lemma TextShows(parts: seq<string>)
    requires parts != [] && Ink(parts[0]) != []
    ensures Tidy(NonEmpty(parts)) != [] && Ink(Tidy(NonEmpty(parts))) == InkOf(parts)
  {
    InkTidy(NonEmpty(parts));
    InkOfNonEmpty(parts);
  }

  /** A sentence that needs no splitting keeps its text and its segments. */
  lemma FlushedWhole(parts: seq<string>, cur: seq<Segment>)
    requires cur != [] && parts != [] && Ink(parts[0]) != [] && FitsOneChunk(cur)
    ensures var out := FlushedSentences(parts, cur, Some(cur[0].start));
            && |out| == 1 && Timed(out[0]) && out[0].segments == cur && WithinBounds(cur)
            && Ink(out[0].text) == InkOf(parts)
  {
    TextShows(parts);
    GreedyGroups(cur, WithinBounds);
    SingleGroup(Greedy(cur, WithinBounds), cur);
  }

  lemma ChunkShows(group: seq<Segment>, seg: Segment)
    requires seg in group && Ink(seg.text) != []
    ensures Chunk(group).text != []
  {
    var j :| 0 <= j < |group| && group[j] == seg;
    TextsInk(group, j);
    InkTidy(Texts(group));
  }

  lemma InShown(chunks: seq<Sentence>, i: nat, seg: Segment)
    requires i < |chunks| && chunks[i].text != [] && seg in chunks[i].segments
    ensures InSome(seg, Shown(chunks))
  {
    ShownMembers(chunks);
    assert chunks[i] in Shown(chunks);
  }

  /** The chunks that show something hold every segment that does. */
  lemma ShownChunksCover(groups: seq<seq<Segment>>, cur: seq<Segment>, seg: Segment)
    requires Grouping(groups, cur, WithinBounds) && seg in cur && Ink(seg.text) != []
    ensures InSome(seg, Shown(Map(Chunk, groups)))
  {
    FlattenHas(groups, seg);
    var i :| 0 <= i < |groups| && seg in groups[i];
    ChunkShows(groups[i], seg);
    InShown(Map(Chunk, groups), i, seg);
  }

  lemma ChunkSound(group: seq<Segment>)
    requires group != [] && WithinBounds(group)
    ensures Sound(Chunk(group)) && Chunk(group).segments == group && Chunk(group).start == group[0].start
  {
  }

  lemma ShownChunksSound(groups: seq<seq<Segment>>, cur: seq<Segment>)
    requires Grouping(groups, cur, WithinBounds)
    ensures AllSound(Shown(Map(Chunk, groups)))
  {
    var chunks := Map(Chunk, groups);
    ShownMembers(chunks);
    forall s | s in chunks
      ensures Sound(s)
    {
      var i :| 0 <= i < |chunks| && chunks[i] == s;
      ChunkSound(groups[i]);
    }
  }

  lemma ShownChunksSorted(groups: seq<seq<Segment>>, cur: seq<Segment>)
    requires Grouping(groups, cur, WithinBounds) && SortedByStart(cur)
    ensures StartsSorted(Shown(Map(Chunk, groups)))
    ensures forall s :: s in Shown(Map(Chunk, groups)) ==> cur != [] && cur[0].start <= s.start <= cur[|cur| - 1].start
  {
    var chunks := Map(Chunk, groups);
    ShownMembers(chunks);
    GroupStartsSorted(groups, cur);
    forall i, j | 0 <= i < j < |chunks|
      ensures chunks[i].start <= chunks[j].start
    {
      ChunkSound(groups[i]);
      ChunkSound(groups[j]);
    }
    forall s | s in chunks
      ensures cur != [] && cur[0].start <= s.start <= cur[|cur| - 1].start
    {
      var i :| 0 <= i < |chunks| && chunks[i] == s;
      ChunkSound(groups[i]);
    }
  }

  lemma FlushedSplit(parts: seq<string>, cur: seq<Segment>)
    requires cur != [] && parts != [] && Ink(parts[0]) != [] && !FitsOneChunk(cur)
    ensures var out := FlushedSentences(parts, cur, Some(cur[0].start));
            && Grouping(Greedy(cur, WithinBounds), cur, WithinBounds)
            && out == Shown(Map(Chunk, Greedy(cur, WithinBounds)))
  {
    GreedyGroups(cur, WithinBounds);
    TextShows(parts);
  }

  lemma FlushedFacts(parts: seq<string>, cur: seq<Segment>)
    requires cur != [] && parts != [] && Ink(parts[0]) != []
    ensures var out := FlushedSentences(parts, cur, Some(cur[0].start));
            && AllSound(out)
            && (forall seg :: seg in cur && Ink(seg.text) != [] ==> InSome(seg, out))
            && (FitsOneChunk(cur) ==> |out| == 1 && Ink(out[0].text) == InkOf(parts))
            && (SortedByStart(cur) ==>
                  StartsSorted(out) && forall s :: s in out ==> cur[0].start <= s.start <= cur[|cur| - 1].start)
  {
    if FitsOneChunk(cur) {
      FlushedWhole(parts, cur);
      WholeFacts(cur, FlushedSentences(parts, cur, Some(cur[0].start)));
    } else {
      FlushedSplit(parts, cur);
      SplitFacts(cur, Greedy(cur, WithinBounds));
    }
  }

  lemma WholeFacts(cur: seq<Segment>, out: seq<Sentence>)
    requires cur != [] && |out| == 1 && Timed(out[0]) && out[0].segments == cur && WithinBounds(cur)
    ensures AllSound(out) && StartsSorted(out)
    ensures forall seg :: seg in cur && Ink(seg.text) != [] ==> InSome(seg, out)
    ensures SortedByStart(cur) ==> forall s :: s in out ==> cur[0].start <= s.start <= cur[|cur| - 1].start
  {
  }

  lemma SplitFacts(cur: seq<Segment>, groups: seq<seq<Segment>>)
    requires Grouping(groups, cur, WithinBounds) && cur != []
    ensures var out := Shown(Map(Chunk, groups));
            && AllSound(out)
            && (forall seg :: seg in cur && Ink(seg.text) != [] ==> InSome(seg, out))
            && (SortedByStart(cur) ==>
                  StartsSorted(out) && forall s :: s in out ==> cur[0].start <= s.start <= cur[|cur| - 1].start)
  {
    ShownChunksSound(groups, cur);
    if SortedByStart(cur) {
      ShownChunksSorted(groups, cur);
    }
    forall seg | seg in cur && Ink(seg.text) != []
      ensures InSome(seg, Shown(Map(Chunk, groups)))
    {
      ShownChunksCover(groups, cur, seg);
    }
  }

  /** Closing the open sentence. */
  lemma ClosingKeeps(m: Merging, done: seq<Segment>, flushes: seq<Flush>, ink: string)
    requires Kept(m, done, flushes, ink) && m.cur != []
    ensures Kept(Closed(m), done, flushes + [Flush(m.parts, m.cur)], ink)
  {
    ClosingBounds(m);
    ClosingOrder(m, done);
    ClosingCover(m, done);
    ClosingInk(m, flushes, ink);
    ClosingOutput(m, flushes);
    StretchesAdd(flushes, Flush(m.parts, m.cur), done);
  }

  lemma StretchesAdd(flushes: seq<Flush>, f: Flush, done: seq<Segment>)
    requires Stretches(flushes, done) && HasSuffixSegs(done, f.segments) && f.segments != []
    requires f.parts != [] && Ink(f.parts[0]) != []
    ensures Stretches(flushes + [f], done)
  {
    assert f.segments == done[|done| - |f.segments|..|done|];
    assert IsStretch(f, done);
  }

  lemma ClosingOutput(m: Merging, flushes: seq<Flush>)
    requires m.cur != [] && m.start == Some(m.cur[0].start) && m.merged == Output(flushes)
    ensures Closed(m).merged == Output(flushes + [Flush(m.parts, m.cur)])
  {
    assert (flushes + [Flush(m.parts, m.cur)])[..|flushes|] == flushes;
  }

  lemma ClosingInk(m: Merging, flushes: seq<Flush>, ink: string)
    requires InkKept(m, flushes, ink)
    ensures InkKept(Closed(m), flushes + [Flush(m.parts, m.cur)], ink)
  {
    assert (flushes + [Flush(m.parts, m.cur)])[..|flushes|] == flushes;
  }

  lemma ClosingBounds(m: Merging)
    requires m.cur != [] && m.parts != [] && Ink(m.parts[0]) != [] && m.start == Some(m.cur[0].start)
    requires AllSound(m.merged)
    ensures AllSound(Closed(m).merged)
  {
    FlushedFacts(m.parts, m.cur);
  }

  lemma ClosingOrder(m: Merging, done: seq<Segment>)
    requires OpenOk(m, done) && Ordered(m, done) && m.cur != []
    ensures Ordered(Closed(m), done)
  {
    if SortedByStart(done) {
      SortedSuffix(done, m.cur);
      FlushedStarts(m.parts, m.cur);
      StartsAppend(m.merged, FlushedSentences(m.parts, m.cur, m.start), m.cur[0].start);
    }
  }

  lemma {:induction false} FlushedStarts(parts: seq<string>, cur: seq<Segment>)
    requires cur != [] && parts != [] && Ink(parts[0]) != [] && SortedByStart(cur)
    ensures var out := FlushedSentences(parts, cur, Some(cur[0].start));
            StartsSorted(out) && forall i :: 0 <= i < |out| ==> cur[0].start <= out[i].start <= cur[|cur| - 1].start
  {
    FlushedFacts(parts, cur);
  }

  lemma StartsAppend(a: seq<Sentence>, b: seq<Sentence>, between: real)
    requires StartsSorted(a) && StartsSorted(b)
    requires forall i :: 0 <= i < |a| ==> a[i].start <= between
    requires forall i :: 0 <= i < |b| ==> between <= b[i].start
    ensures StartsSorted(a + b)
  {
  }

  lemma SortedSuffix(done: seq<Segment>, cur: seq<Segment>)
    requires HasSuffixSegs(done, cur) && SortedByStart(done)
    ensures SortedByStart(cur) && (cur != [] ==> cur[|cur| - 1] == done[|done| - 1])
  {
    assert forall i :: 0 <= i < |cur| ==> cur[i] == done[|done| - |cur| + i];
  }

  lemma ClosingCover(m: Merging, done: seq<Segment>)
    requires OpenOk(m, done) && Covered(m, done) && m.cur != []
    ensures Covered(Closed(m), done)
  {
    var out := FlushedSentences(m.parts, m.cur, m.start);
    FlushedFacts(m.parts, m.cur);
    forall i | 0 <= i < |done| && Ink(done[i].text) != []
      ensures InSome(done[i], m.merged + out)
    {
      InSomeOf(done[i], m.merged, out);
    }
  }

  lemma InSomeOf(seg: Segment, a: seq<Sentence>, b: seq<Sentence>)
    requires InSome(seg, a) || InSome(seg, b)
    ensures InSome(seg, a + b)
  {
    if InSome(seg, a) {
      var k :| 0 <= k < |a| && seg in a[k].segments;
      assert (a + b)[k] == a[k];
    } else {
      var k :| 0 <= k < |b| && seg in b[k].segments;
      assert (a + b)[|a| + k] == b[k];
    }
  }

  lemma {:induction false} SentenceTextsAppend(a: seq<Sentence>, b: seq<Sentence>)
    ensures SentenceTexts(a + b) == SentenceTexts(a) + SentenceTexts(b)
  {
    if a == [] {
      assert a + b == b;
    } else {
      calc {
        SentenceTexts(a + b);
        { assert (a + b)[1..] == a[1..] + b; }
        [a[0].text] + SentenceTexts(a[1..] + b);
        { SentenceTextsAppend(a[1..], b); }
        [a[0].text] + (SentenceTexts(a[1..]) + SentenceTexts(b));
        ([a[0].text] + SentenceTexts(a[1..])) + SentenceTexts(b);
      }
    }
  }

  // ----- The loop -----

  /** A segment just read, or, when an early split has closed a sentence with it, read before. */
  ghost predicate Reads(m: Merging, done: seq<Segment>, seg: Segment, done': seq<Segment>) {
    done' == done + [seg] || (done' == done && m.cur == [] && done != [] && done[|done| - 1] == seg)
  }

  lemma PlacingKeeps(m: Merging, done: seq<Segment>, part: string, seg: Segment, done': seq<Segment>,
                     flushes: seq<Flush>, ink: string)
    requires Kept(m, done, flushes, ink) && Ink(part) != [] && Reads(m, done, seg, done')
    ensures Kept(Opened(m, part, seg), done', flushes, ink + Ink(part))
  {
    if done' == done + [seg] {
      OpeningKeeps(m, done, part, seg, flushes, ink);
    } else {
      ReopeningKeeps(m, done, part, flushes, ink);
    }
  }

  lemma CutInk(text: string, pos: int)
    requires Stripped(text)
    requires pos == FindEarlySplit(text) || pos == FindLateSplit(text)
    requires 0 < pos
    ensures pos <= |text|
    ensures Ink(Strip(text[..pos])) != []
    ensures Ink(Strip(text[..pos])) + Ink(Strip(text[pos..])) == Ink(text)
  {
    StripOfStripped(text);
    CutShows(text, pos);
    SplitInk(text, pos);
  }

  /** A late cut: both parts, and what they add to the visible text read so far. */
  lemma CutAccounts(text: string, pos: int, ink: string)
    requires Stripped(text) && pos == FindLateSplit(text) && 0 < pos
    ensures pos <= |text| && Ink(Strip(text[..pos])) != []
    ensures Stripped(Strip(text[pos..])) && (Strip(text[pos..]) != [] ==> Ink(Strip(text[pos..])) != [])
    ensures ink + Ink(Strip(text[..pos])) + Ink(Strip(text[pos..])) == ink + Ink(text)
  {
    CutInk(text, pos);
    StripFacts(text[pos..]);
    Associates(ink, Ink(Strip(text[..pos])), Ink(Strip(text[pos..])));
  }

  lemma SplitInk(text: string, pos: nat)
    requires pos <= |text|
    ensures Ink(Strip(text[..pos])) == Ink(text[..pos])
    ensures Ink(Strip(text[..pos])) + Ink(Strip(text[pos..])) == Ink(text)
  {
    assert text == text[..pos] + text[pos..];
    InkOfHalves(text[..pos], text[pos..]);
  }

  lemma InkOfHalves(a: string, b: string)
    ensures Ink(Strip(a)) == Ink(a) && Ink(Strip(a)) + Ink(Strip(b)) == Ink(a + b)
  {
    InkConcat(a, b);
    InkStrip(a);
    InkStrip(b);
  }

  lemma PlacedKeeps(r: Reader, seg: Segment, text: string, done: seq<Segment>, done': seq<Segment>, ink: string)
    returns (ink': string)
    requires Stripped(text) && Ink(text) != [] && r.carry == []
    requires Kept(r.m, done, r.flushes, ink) && Reads(r.m, done, seg, done')
    ensures var r' := Placed(r, seg, text);
            && Kept(r'.m, done', r'.flushes, ink') && ink' + Ink(r'.carry) == ink + Ink(text) && CarryOk(r'.carry)
  {
    StripOfStripped(text);
    var late := FindLateSplit(text);
    if late > 0 {
      CutAccounts(text, late, ink);
      var before := Strip(text[..late]);
      PlacingKeeps(r.m, done, before, seg, done', r.flushes, ink);
      ink' := ink + Ink(before);
      ClosingKeeps(Opened(r.m, before, seg), done', r.flushes, ink');
    } else {
      PlacingKeeps(r.m, done, text, seg, done', r.flushes, ink);
      ink' := ink + Ink(text);
      assert ink' + Ink("") == ink';
      if EndsWithSentence(text) {
        ClosingKeeps(Opened(r.m, text, seg), done', r.flushes, ink');
      }
    }
  }

  /** A carried-over text shows something. */
  predicate CarryOk(carry: string) {
    Stripped(carry) && (carry != [] ==> Ink(carry) != [])
  }

  lemma StripFacts(s: string)
    ensures Stripped(Strip(s)) && (Strip(s) != [] ==> Ink(Strip(s)) != [])
  {
    var _ := StripCuts(s);
    StripEmptyIff(s);
    InkStrip(s);
  }

  lemma PlacedEarlyKeeps(r: Reader, seg: Segment, text: string, early: int, done: seq<Segment>, ink: string)
    returns (ink': string)
    requires Stripped(text) && early == FindEarlySplit(text) && 0 < early <= |text| && r.m.parts != [] && r.carry == []
    requires Kept(r.m, done, r.flushes, ink)
    ensures var r' := PlacedEarly(r, seg, text, early);
            && Kept(r'.m, done + [seg], r'.flushes, ink') && ink' + Ink(r'.carry) == ink + Ink(text)
            && CarryOk(r'.carry)
  {
    CutInk(text, early);
    StripFacts(text[early..]);
    var before, after := Strip(text[..early]), Strip(text[early..]);
    PlacingKeeps(r.m, done, before, seg, done + [seg], r.flushes, ink);
    var begun := Put(r, before, seg);
    ClosingKeeps(begun.m, done + [seg], r.flushes, ink + Ink(before));
    Associates(ink, Ink(before), Ink(after));
    ink' := ink + Ink(before);
    if after != [] {
      ink' := PlacedKeeps(Flushed(begun), seg, after, done + [seg], done + [seg], ink');
    }
  }

  function RawText(seg: Segment): string {
    seg.text
  }

  function RawTexts(segs: seq<Segment>): seq<string> {
    Map(RawText, segs)
  }

  lemma RawInkOfNext(segs: seq<Segment>, seg: Segment)
    ensures InkOf(RawTexts(segs + [seg])) == InkOf(RawTexts(segs)) + Ink(seg.text)
  {
    MapAppend(RawText, segs, seg);
    InkOfMore(RawTexts(segs), seg.text);
  }

  /** The carried-over end of one text in front of the next. */
  lemma CarriedInk(carry: string, text: string)
    ensures Ink(Strip(carry + " " + text)) == Ink(carry) + Ink(text)
  {
    InkStrip(carry + " " + text);
    InkConcat(carry + " ", text);
    InkConcat(carry, " ");
  }

  lemma NextTextInk(carry: string, seg: Segment)
    requires CarryOk(carry)
    ensures var text := NextText(carry, seg);
            Ink(text) == Ink(carry) + Ink(seg.text)
            && if text == [] then carry == [] && Ink(seg.text) == [] else Ink(text) != []
  {
    InkStrip(seg.text);
    StripFacts(seg.text);
    if carry != [] {
      CarriedInk(carry, Strip(seg.text));
      StripFacts(carry + " " + Strip(seg.text));
    }
  }

  /** The loop invariant. */
  ghost predicate Reading(r: Reader, done: seq<Segment>, ink: string) {
    Kept(r.m, done, r.flushes, ink) && CarryOk(r.carry) && ink + Ink(r.carry) == InkOf(RawTexts(done))
  }

  lemma ReadKeeps(r: Reader, seg: Segment, done: seq<Segment>, ink: string) returns (ink': string)
    requires Reading(r, done, ink)
    ensures Reading(Read(r, seg), done + [seg], ink')
  {
    RawInkOfNext(done, seg);
    NextTextInk(r.carry, seg);
    Associates(ink, Ink(r.carry), Ink(seg.text));
    var text, emptied := NextText(r.carry, seg), r.(carry := "");
    StripOfStripped(text);
    if text == [] {
      ink' := ink;
      if r.m.parts == [] {
        SkippingKeeps(r.m, done, seg, r.flushes, ink);
      } else {
        TimingKeeps(r.m, done, seg, r.flushes, ink);
      }
    } else if FindEarlySplit(text) > 0 && r.m.parts != [] {
      ink' := PlacedEarlyKeeps(emptied, seg, text, FindEarlySplit(text), done, ink);
    } else {
      ink' := PlacedKeeps(emptied, seg, text, done, done + [seg], ink);
    }
  }

  ghost predicate AllRead(r: Reader, done: seq<Segment>) {
    exists ink :: Reading(r, done, ink)
  }

  lemma ReadKeepsAll(r: Reader, seg: Segment, done: seq<Segment>)
    requires AllRead(r, done)
    ensures AllRead(Read(r, seg), done + [seg])
  {
    var ink :| Reading(r, done, ink);
    var ink' := ReadKeeps(r, seg, done, ink);
  }

  lemma ReadAllKeeps(all: seq<Segment>)
    ensures AllRead(ReadAll(all), all)
  {
    NothingReadKeeps();
    forall r, done, seg | AllRead(r, done)
      ensures AllRead(Read(r, seg), done + [seg])
    {
      ReadKeepsAll(r, seg, done);
    }
    FoldKeeps(Read, NOTHING_READ, all, (r, done) => AllRead(r, done));
  }

  lemma {:induction false} NothingReadKeeps()
    ensures AllRead(NOTHING_READ, [])
  {
    assert Reading(NOTHING_READ, [], "");
  }

  // ----- The result -----

  lemma EndedKeeps(all: seq<Segment>) returns (ink: string)
    ensures var r := Ended(all);
            && Kept(r.m, all, r.flushes, ink) && r.m.cur == [] && CarryOk(r.carry)
            && ink + Ink(r.carry) == InkOf(RawTexts(all))
  {
    ReadAllKeeps(all);
    var r := ReadAll(all);
    ink :| Reading(r, all, ink);
    if r.m.parts != [] {
      ClosingKeeps(r.m, all, r.flushes, ink);
    }
  }

  /** The result is the sentences of the flushes, each made of a stretch of the input, and at most one more. */
  lemma MergedIsOutput(all: seq<Segment>)
    ensures Merged(all) == Output(Flushes(all)) + CarriedSentence(all) && Stretches(Flushes(all), all)
  {
    var ink := EndedKeeps(all);
  }

  /** Every visible segment is in some sentence, every sentence is single or within bounds and timed by its
    * segments, and sentences follow the clock if the segments do. */
  lemma MergedCovers(all: seq<Segment>)
    ensures forall i :: 0 <= i < |all| && Ink(all[i].text) != [] ==> InSome(all[i], Merged(all))
    ensures AllSound(Merged(all))
    ensures SortedByStart(all) ==> StartsSorted(Merged(all))
  {
    var ink := EndedKeeps(all);
    var m, extra := Ended(all).m, CarriedSentence(all);
    forall i | 0 <= i < |all| && Ink(all[i].text) != []
      ensures InSome(all[i], m.merged + extra)
    {
      InSomeOf(all[i], m.merged, extra);
    }
    if extra != [] {
      ExtraIsSound(m.merged, extra[0]);
    }
  }

  lemma ExtraIsSound(merged: seq<Sentence>, extra: Sentence)
    requires AllSound(merged) && Sound(extra)
    ensures AllSound(merged + [extra])
  {
  }

  /** All visible text is in the flushed sentences or in the carried-over one, in order, whatever is split. */
  lemma FlushesConserveText(all: seq<Segment>)
    ensures FlushedInk(Flushes(all)) + InkOf(SentenceTexts(CarriedSentence(all))) == InkOf(RawTexts(all))
  {
    var ink := EndedKeeps(all);
    var carry := Ended(all).carry;
    assert InkOf(Ended(all).m.parts) == [] && FlushedInk(Flushes(all)) == ink;
    StripOfStripped(carry);
    if all != [] && carry != [] {
      InkOfOne(carry);
      assert SentenceTexts(CarriedSentence(all)) == [carry];
    } else if all == [] {
      assert Ended(all) == NOTHING_READ;
    }
  }

  /** A flushed sentence that fits shows exactly its texts. One that is split shows the raw texts of its
    * segments instead: every piece reads as the tidy texts of its segments. */
  lemma SentencesOfFlush(f: Flush)
    requires f.segments != [] && f.parts != [] && Ink(f.parts[0]) != []
    ensures FitsOneChunk(f.segments) ==>
              |SentencesOf(f)| == 1 && SentencesOf(f)[0].segments == f.segments
              && Ink(SentencesOf(f)[0].text) == InkOf(f.parts)
    ensures !FitsOneChunk(f.segments) ==>
              && (forall s :: s in SentencesOf(f) ==> s.text == Tidy(Texts(s.segments)))
              && InkOf(SentenceTexts(SentencesOf(f))) == InkOf(RawTexts(f.segments))
  {
    if FitsOneChunk(f.segments) {
      FlushedWhole(f.parts, f.segments);
    } else {
      FlushedSplit(f.parts, f.segments);
      SplitTexts(Greedy(f.segments, WithinBounds), f.segments);
    }
  }

  lemma SplitTexts(groups: seq<seq<Segment>>, cur: seq<Segment>)
    requires Grouping(groups, cur, WithinBounds)
    ensures forall s :: s in Shown(Map(Chunk, groups)) ==> s.text == Tidy(Texts(s.segments))
    ensures InkOf(SentenceTexts(Shown(Map(Chunk, groups)))) == InkOf(RawTexts(cur))
  {
    ShownMembers(Map(Chunk, groups));
    ChunkTexts(groups);
    ShownKeepInk(Map(Chunk, groups));
    ChunksInk(groups);
  }

  lemma ChunkTexts(groups: seq<seq<Segment>>)
    requires forall i :: 0 <= i < |groups| ==> groups[i] != []
    ensures forall s :: s in Map(Chunk, groups) ==> s.text == Tidy(Texts(s.segments))
  {
    forall s | s in Map(Chunk, groups)
      ensures s.text == Tidy(Texts(s.segments))
    {
      var i :| 0 <= i < |groups| && Map(Chunk, groups)[i] == s;
      assert s == Chunk(groups[i]);
    }
  }

  lemma {:induction false} ShownKeepInk(sentences: seq<Sentence>)
    ensures InkOf(SentenceTexts(Shown(sentences))) == InkOf(SentenceTexts(sentences))
    decreases |sentences|
  {
    if sentences != [] {
      var before, last := LastOf(sentences);
      ShownKeepInk(before);
      ShownKeepInkNext(before, last);
    }
  }

  lemma ShownKeepInkNext(before: seq<Sentence>, last: Sentence)
    requires InkOf(SentenceTexts(Shown(before))) == InkOf(SentenceTexts(before))
    ensures InkOf(SentenceTexts(Shown(before + [last]))) == InkOf(SentenceTexts(before + [last]))
  {
    OneMoreText(before, last);
    OneMoreShown(before, last);
  }

  lemma OneMoreShown(sentences: seq<Sentence>, extra: Sentence)
    ensures InkOf(SentenceTexts(Shown(sentences + [extra]))) == InkOf(SentenceTexts(Shown(sentences))) + Ink(extra.text)
  {
    assert (sentences + [extra])[..|sentences|] == sentences;
    if extra.text != [] {
      OneMoreText(Shown(sentences), extra);
    } else {
      assert Shown(sentences + [extra]) == Shown(sentences);
    }
  }

  lemma {:induction false} ChunksInk(groups: seq<seq<Segment>>)
    ensures InkOf(SentenceTexts(Map(Chunk, groups))) == InkOf(RawTexts(Flatten(groups)))
    decreases |groups|
  {
    if groups != [] {
      var before, last := LastOf(groups);
      ChunksInk(before);
      ChunksInkNext(before, last);
    }
  }

  lemma ChunksInkNext(before: seq<seq<Segment>>, last: seq<Segment>)
    requires InkOf(SentenceTexts(Map(Chunk, before))) == InkOf(RawTexts(Flatten(before)))
    ensures InkOf(SentenceTexts(Map(Chunk, before + [last]))) == InkOf(RawTexts(Flatten(before + [last])))
  {
    FlattenAppend(before, [last]);
    assert Flatten([last]) == last;
    MapAppend(Chunk, before, last);
    OneMoreText(Map(Chunk, before), Chunk(last));
    ChunkInk(last);
    RawTextsAppend(Flatten(before), last);
  }

  lemma ChunkInk(group: seq<Segment>)
    ensures Ink(Chunk(group).text) == InkOf(RawTexts(group))
  {
    InkTidy(Texts(group));
    TextsInkIsRaw(group);
  }

  lemma {:induction false} TextsInkIsRaw(segs: seq<Segment>)
    ensures InkOf(Texts(segs)) == InkOf(RawTexts(segs))
  {
    if segs != [] {
      TextsInkIsRaw(segs[1..]);
      InkStrip(segs[0].text);
      RawTextsAppend([segs[0]], segs[1..]);
      assert segs == [segs[0]] + segs[1..];
      assert RawTexts([segs[0]]) == [segs[0].text];
      InkOfOne(segs[0].text);
    }
  }

  lemma RawTextsAppend(a: seq<Segment>, b: seq<Segment>)
    ensures InkOf(RawTexts(a + b)) == InkOf(RawTexts(a)) + InkOf(RawTexts(b))
  {
    MapConcat(RawText, a, b);
    InkOfConcat(RawTexts(a), RawTexts(b));
  }

  /** What the result shows, whatever is split. */
  lemma MergedShows(all: seq<Segment>)
    ensures InkOf(SentenceTexts(Merged(all))) == ShownInk(Flushes(all)) + InkOf(SentenceTexts(CarriedSentence(all)))
  {
    MergedIsOutput(all);
    OutputShows(Flushes(all), all);
    SentenceTextsAppend(Output(Flushes(all)), CarriedSentence(all));
    InkOfConcat(SentenceTexts(Output(Flushes(all))), SentenceTexts(CarriedSentence(all)));
  }

  /** The visible text of the segments is the visible text of the sentences, in order, exactly if the split
    * flushes show in all what was meant. So it is if every flush is aligned, which every flush that fits one
    * chunk is; and all fit if the whole input keeps the bounds of one sentence. */
  lemma {:induction false} MergedConservesText(all: seq<Segment>)
    ensures InkOf(SentenceTexts(Merged(all))) == InkOf(RawTexts(all)) <==>
              ShownInk(Flushes(all)) == FlushedInk(Flushes(all))
    ensures AllAligned(Flushes(all)) ==> InkOf(SentenceTexts(Merged(all))) == InkOf(RawTexts(all))
    ensures AllFit(Flushes(all)) ==> AllAligned(Flushes(all))
    ensures WithinBounds(all) ==> AllFit(Flushes(all))
  {
    MergedShows(all);
    FlushesConserveText(all);
    SameEnd(ShownInk(Flushes(all)), FlushedInk(Flushes(all)), InkOf(SentenceTexts(CarriedSentence(all))));
    if AllAligned(Flushes(all)) {
      AlignedInk(Flushes(all));
    }
    if WithinBounds(all) {
      MergedIsOutput(all);
      NothingSplit(all, Flushes(all));
    }
  }

  lemma SameEnd(a: string, b: string, end: string)
    ensures a + end == b + end <==> a == b
  {
    if a + end == b + end {
      assert |a| == |b| && (a + end)[..|a|] == a && (b + end)[..|b|] == b;
    }
  }

  lemma {:induction false} AlignedInk(flushes: seq<Flush>)
    requires AllAligned(flushes)
    ensures ShownInk(flushes) == FlushedInk(flushes)
  {
    if flushes != [] {
      AlignedInk(flushes[..|flushes| - 1]);
    }
  }

  lemma ShownByFlush(f: Flush)
    requires f.segments != [] && f.parts != [] && Ink(f.parts[0]) != []
    ensures InkOf(SentenceTexts(SentencesOf(f))) == ShownBy(f)
  {
    SentencesOfFlush(f);
    if FitsOneChunk(f.segments) {
      OneSentence(SentencesOf(f));
    }
  }

  lemma OneSentence(sentences: seq<Sentence>)
    requires |sentences| == 1
    ensures InkOf(SentenceTexts(sentences)) == Ink(sentences[0].text)
  {
    assert sentences == [] + [sentences[0]] && SentenceTexts([]) == [];
    OneMoreText([], sentences[0]);
  }

  lemma {:induction false} OutputShows(flushes: seq<Flush>, all: seq<Segment>)
    requires Stretches(flushes, all)
    ensures InkOf(SentenceTexts(Output(flushes))) == ShownInk(flushes)
  {
    if flushes != [] {
      var before, f := flushes[..|flushes| - 1], flushes[|flushes| - 1];
      OutputShows(before, all);
      assert IsStretch(f, all);
      ShownByFlush(f);
      SentenceTextsAppend(Output(before), SentencesOf(f));
      InkOfSum(SentenceTexts(Output(before)), SentenceTexts(SentencesOf(f)), ShownInk(before), ShownBy(f));
    }
  }

  lemma {:induction false} OneStretchFits(cur: seq<Segment>)
    requires WithinBounds(cur)
    ensures FitsOneChunk(cur)
  {
    if cur != [] {
      BoundsAreHereditary();
      assert Flatten([cur]) == cur + Flatten([cur][1..]);
      GreedyIsFewest(cur, [cur], WithinBounds);
    }
  }

  /** The safety net splits exactly the sentences whose segments break the bounds. */
  lemma FitsIff(cur: seq<Segment>)
    requires cur != []
    ensures FitsOneChunk(cur) <==> WithinBounds(cur)
  {
    GreedyGroups(cur, WithinBounds);
    if FitsOneChunk(cur) {
      SingleGroup(Greedy(cur, WithinBounds), cur);
    }
    if WithinBounds(cur) {
      OneStretchFits(cur);
    }
  }

  /** If the whole input is within the bounds of one sentence, the safety net never splits. */
  lemma NothingSplit(segs: seq<Segment>, flushes: seq<Flush>)
    requires WithinBounds(segs) && Stretches(flushes, segs)
    ensures AllFit(flushes)
  {
    BoundsAreHereditary();
    forall i | 0 <= i < |flushes|
      ensures FitsOneChunk(flushes[i].segments)
    {
      assert IsStretch(flushes[i], segs);
      var a, b :| 0 <= a < b <= |segs| && flushes[i].segments == segs[a..b];
      OneStretchFits(flushes[i].segments);
    }
  }

  lemma OneMoreText(sentences: seq<Sentence>, extra: Sentence)
    ensures InkOf(SentenceTexts(sentences + [extra])) == InkOf(SentenceTexts(sentences)) + Ink(extra.text)
  {
    SentenceTextsAppend(sentences, [extra]);
    assert SentenceTexts([extra]) == [extra.text];
    InkOfMore(SentenceTexts(sentences), extra.text);
  }
}
