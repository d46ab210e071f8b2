/** Merging caption segments into sentences: _merge_segments_into_sentences. */
module Merge {
  import opened Common
  import opened Text
  import opened Punctuation
  import opened Partition
  import opened Sentences

  function NonEmpty(parts: seq<string>): seq<string> {
    if parts == [] then [] else (if parts[0] == [] then [] else [parts[0]]) + NonEmpty(parts[1..])
  }

  function Shown(sentences: seq<Sentence>): seq<Sentence> {
    if sentences == [] then []
    else Shown(sentences[..|sentences| - 1]) +
         (if sentences[|sentences| - 1].text != [] then [sentences[|sentences| - 1]] else [])
  }

  /** The sentence is not split by the safety net. */
  predicate FitsOneChunk(cur: seq<Segment>) {
    |Greedy(cur, WithinBounds)| <= 1
  }

  /** What flush_sentence appends to the result; a text always comes with a segment. */
  function FlushedSentences(parts: seq<string>, cur: seq<Segment>, start: Option<real>): seq<Sentence> {
    var text := Tidy(NonEmpty(parts));
    if text == [] || cur == [] then []
    else if FitsOneChunk(cur) then
      var from := if start.Some? then start.value else cur[0].start;
      [Sentence(from, EndOf(cur[|cur| - 1], from), text, cur)]
    else
      Shown(Map(Chunk, Greedy(cur, WithinBounds)))
  }

  /** The finished sentences, and the texts, the segments and the start of the open one. */
  datatype Merging = Merging(merged: seq<Sentence>, parts: seq<string>, cur: seq<Segment>, start: Option<real>)

  function Opened(m: Merging, part: string, seg: Segment): Merging {
    Merging(m.merged, m.parts + [part], m.cur + [seg], if m.start.None? then Some(seg.start) else m.start)
  }

  function Closed(m: Merging): Merging {
    Merging(m.merged + FlushedSentences(m.parts, m.cur, m.start), [], [], None)
  }

  // ----- The loop as a fold -----

  /** The texts and segments of a sentence when it was flushed. */
  datatype Flush = Flush(parts: seq<string>, segments: seq<Segment>)

  /** The loop's state after some segments: the open sentence, the carried-over text, and what was flushed. */
  datatype Reader = Reader(m: Merging, carry: string, flushes: seq<Flush>)

  const NOTHING_READ := Reader(Merging([], [], [], None), "", [])

  function Put(r: Reader, part: string, seg: Segment): Reader {
    r.(m := Opened(r.m, part, seg))
  }

  function Flushed(r: Reader): Reader {
    r.(m := Closed(r.m), flushes := r.flushes + [Flush(r.m.parts, r.m.cur)])
  }

  /** The segment's text behind the carried-over end of the last. */
  function NextText(carry: string, seg: Segment): (r: string)
    ensures Stripped(r)
  {
    StripIsStripped(seg.text);
    StripIsStripped(carry + " " + Strip(seg.text));
    if carry == [] then Strip(seg.text) else Strip(carry + " " + Strip(seg.text))
  }

  lemma StripIsStripped(s: string)
    ensures Stripped(Strip(s))
  {
    var _ := StripCuts(s);
  }

  /** The lower half of the loop body: a late cut carries its rest over, a sentence end flushes. */
  function Placed(r: Reader, seg: Segment, text: string): Reader
    requires Stripped(text)
  {
    StripOfStripped(text);
    var late := FindLateSplit(text);
    if late > 0 then Flushed(Put(r, Strip(text[..late]), seg)).(carry := Strip(text[late..]))
    else if EndsWithSentence(text) then Flushed(Put(r, text, seg))
    else Put(r, text, seg)
  }

  /** An early cut flushes the open sentence with the part before it. */
  function PlacedEarly(r: Reader, seg: Segment, text: string, early: int): Reader
    requires Stripped(text) && 0 < early <= |text|
  {
    var after := Strip(text[early..]);
    StripIsStripped(text[early..]);
    var closed := Flushed(Put(r, Strip(text[..early]), seg));
    if after == [] then closed else Placed(closed, seg, after)
  }

  /** The loop body. */
  function Read(r: Reader, seg: Segment): Reader {
    var text := NextText(r.carry, seg);
    var emptied := r.(carry := "");
    StripOfStripped(text);
    if text == [] then (if r.m.parts == [] then emptied else emptied.(m := r.m.(cur := r.m.cur + [seg])))
    else if FindEarlySplit(text) > 0 && r.m.parts != [] then PlacedEarly(emptied, seg, text, FindEarlySplit(text))
    else Placed(emptied, seg, text)
  }

  function ReadAll(all: seq<Segment>): Reader {
    Fold(Read, NOTHING_READ, all)
  }

  lemma ReadAllNext(all: seq<Segment>, i: nat)
    requires i < |all|
    ensures ReadAll(all[..i + 1]) == Read(ReadAll(all[..i]), all[i])
  {
    FoldNext(Read, NOTHING_READ, all, i);
  }

  /** After the loop: the open sentence is flushed. */
  function Ended(all: seq<Segment>): Reader {
    var r := ReadAll(all);
    if r.m.parts == [] then r else Flushed(r)
  }

  /** Every sentence flushed on the way, in order. */
  function Flushes(all: seq<Segment>): seq<Flush> {
    Ended(all).flushes
  }

  /** A text still carried over at the end becomes a sentence of its own, on the last segment. */
  function CarriedSentence(all: seq<Segment>): seq<Sentence> {
    var carry := Strip(Ended(all).carry);
    if all == [] || carry == [] then []
    else
      var last := all[|all| - 1];
      [Sentence(last.start, last.end, carry, [last])]
  }

  /** The result of the merge. */
  function Merged(all: seq<Segment>): seq<Sentence> {
    Ended(all).m.merged + CarriedSentence(all)
  }

  // ----- The code -----

  /** flush_sentence: close the open sentence, splitting it where it is too long. */
  method FlushSentence(m: Merging) returns (r: Merging)
    ensures r == Closed(m)
  {
    var text := Tidy(NonEmpty(m.parts));
    if text == [] || m.cur == [] {
      return m.(parts := [], cur := [], start := None);
    }
    var from := if m.start.Some? then m.start.value else m.cur[0].start;
    var chunks := SplitLongSentence(m.cur);
    var merged;
    if |chunks| <= 1 {
      merged := m.merged + [Sentence(from, EndOf(m.cur[|m.cur| - 1], from), text, m.cur)];
    } else {
      merged := AppendShown(m.merged, chunks);
    }
    r := Merging(merged, [], [], None);
  }

  method AppendShown(merged: seq<Sentence>, chunks: seq<Sentence>) returns (r: seq<Sentence>)
    ensures r == merged + Shown(chunks)
  {
    r := merged;
    for i := 0 to |chunks|
      invariant r == merged + Shown(chunks[..i])
    {
      assert chunks[..i + 1][..i] == chunks[..i];
      if chunks[i].text != [] {
        r := r + [chunks[i]];
      }
    }
    assert chunks[..|chunks|] == chunks;
  }

  /** The lower half of the loop body: put `text` into the open sentence, closing it where it ends. */
  method PlaceText(m: Merging, seg: Segment, text: string, ghost flushes: seq<Flush>)
    returns (r: Merging, carry: string, ghost flushes': seq<Flush>)
    requires Stripped(text)
    ensures Reader(r, carry, flushes') == Placed(Reader(m, "", flushes), seg, text)
  {
    StripOfStripped(text);
    flushes' := flushes;
    var late := FindLateSplit(text);
    if late > 0 {
      r := Opened(m, Strip(text[..late]), seg);
      flushes' := flushes + [Flush(r.parts, r.cur)];
      r := FlushSentence(r);
      carry := Strip(text[late..]);
      return;
    }
    r, carry := Opened(m, text, seg), "";
    if EndsWithSentence(text) {
      flushes' := flushes + [Flush(r.parts, r.cur)];
      r := FlushSentence(r);
    }
  }

  /** A text that begins with the end of the open sentence. */
  method MergeEarly(m: Merging, seg: Segment, text: string, early: int, ghost flushes: seq<Flush>)
    returns (r: Merging, carry: string, ghost flushes': seq<Flush>)
    requires Stripped(text) && 0 < early <= |text|
    ensures Reader(r, carry, flushes') == PlacedEarly(Reader(m, "", flushes), seg, text, early)
  {
    var before, after := Strip(text[..early]), Strip(text[early..]);
    StripIsStripped(text[early..]);
    r, carry := Opened(m, before, seg), "";
    flushes' := flushes + [Flush(r.parts, r.cur)];
    r := FlushSentence(r);
    if after != [] {
      r, carry, flushes' := PlaceText(r, seg, after, flushes');
    }
  }

  /** One pass of the loop body. */
  method MergeOne(m: Merging, carry: string, seg: Segment, ghost flushes: seq<Flush>)
    returns (r: Merging, carry': string, ghost flushes': seq<Flush>)
    ensures Reader(r, carry', flushes') == Read(Reader(m, carry, flushes), seg)
  {
    var text := NextText(carry, seg);
    StripOfStripped(text);
    r, carry', flushes' := m, "", flushes;
    if text == [] {
      if m.parts != [] {
        r := m.(cur := m.cur + [seg]);
      }
      return;
    }
    var early := FindEarlySplit(text);
    if early > 0 && m.parts != [] {
      r, carry', flushes' := MergeEarly(m, seg, text, early, flushes);
    } else {
      r, carry', flushes' := PlaceText(m, seg, text, flushes);
    }
  }

  /** The loop over the segments. */
  method ReadSegments(all: seq<Segment>) returns (m: Merging, carry: string, ghost flushes: seq<Flush>)
    ensures Reader(m, carry, flushes) == ReadAll(all)
  {
    m, carry, flushes := Merging([], [], [], None), "", [];
    for i := 0 to |all|
      invariant Reader(m, carry, flushes) == ReadAll(all[..i])
    {
      ReadAllNext(all, i);
      m, carry, flushes := MergeOne(m, carry, all[i], flushes);
    }
    assert all[..|all|] == all;
  }

  /** _merge_segments_into_sentences */
  method MergeSegmentsIntoSentences(all: seq<Segment>) returns (merged: seq<Sentence>)
    ensures merged == Merged(all)
  {
    if all == [] {
      return [];
    }
    var m, carry;
    ghost var flushes;
    m, carry, flushes := ReadSegments(all);
    if m.parts != [] {
      m := FlushSentence(m);
    }
    merged := m.merged;
    if Strip(carry) != "" {
      var last := all[|all| - 1];
      merged := merged + [Sentence(last.start, last.end, Strip(carry), [last])];
    }
  }
}
