/** Where a caption text may be cut into sentences. */
module Punctuation {
  import opened Text

  const COMMON_TLDS: seq<string> := [
    "com", "org", "net", "edu", "gov", "co", "io", "ai", "dev",
    "txt", "pdf", "jpg", "png", "gif", "doc", "zip", "html", "js", "ts"]
  const COMMON_ABBREVS: seq<string> := ["dr", "mr", "mrs", "ms", "vs", "etc", "inc", "ltd", "jr", "sr"]

  /** Sentence-ending characters other than the period. */
  predicate EndsByItself(c: char) {
    c == '!' || c == '?' || c == '\U{3002}' || c == '\U{ff01}' || c == '\U{ff1f}' ||
    c == '\U{203c}' || c == '\U{2047}' || c == '\U{2048}'
  }

  /** Python's s[a:b], which clips its bounds. */
  function Slice(s: string, a: int, b: int): string {
    var lo := if a < 0 then 0 else if a > |s| then |s| else a;
    var hi := if b > |s| then |s| else b;
    if lo <= hi then s[lo..hi] else []
  }

  predicate IsSentenceEndingPeriod(s: string, i: nat)
    requires i < |s|
  {
    && !(0 < i && i + 1 < |s| && IsDigit(s[i - 1]) && IsDigit(s[i + 1]))
    && (forall t :: t in COMMON_TLDS && t <= Lower(Slice(s, i + 1, i + 5)) ==>
          var next := Slice(s, i + 1 + |t|, i + 2 + |t|);
          next != [] && !IsSpace(next[0]) && next[0] !in [',', ';', '!', '?'])
    && (forall a :: a in COMMON_ABBREVS ==> !EndsWith(Lower(Slice(s, i - 3, i)), a))
  }

  predicate EndsSentenceAt(s: string, i: nat)
    requires i < |s|
  {
    EndsByItself(s[i]) || (s[i] == '.' && IsSentenceEndingPeriod(s, i))
  }

  predicate EndsWithSentence(text: string) {
    var s := Strip(text);
    s != [] && EndsSentenceAt(s, |s| - 1)
  }

  /** find_true_sentence_punct_positions, from position `i` on. */
  function TruePositions(s: string, i: nat): (r: seq<nat>)
    ensures forall k :: 0 <= k < |r| ==> i <= r[k] < |s|
    decreases |s| - i
  {
    if i >= |s| then []
    else (if EndsSentenceAt(s, i) then [i] else []) + TruePositions(s, i + 1)
  }

  /** Cut after the first sentence end if at most two units precede it; -1 for no cut. */
  function FindEarlySplit(text: string): (r: int)
    ensures r == -1 || 0 < r <= |Strip(text)|
  {
    var s := Strip(text);
    var ends := TruePositions(s, 0);
    if ends == [] then -1
    else if CountUnits(Strip(s[..ends[0]])) <= 2 then ends[0] + 1 else -1
  }

  /** Cut after the last sentence end if one or two units follow it; -1 for no cut. */
  function FindLateSplit(text: string): (r: int)
    ensures r == -1 || 0 < r <= |Strip(text)|
  {
    var s := Strip(text);
    var ends := TruePositions(s, 0);
    if ends == [] then -1
    else
      var last := ends[|ends| - 1];
      if 1 <= CountUnits(Strip(s[last + 1..])) <= 2 then last + 1 else -1
  }

  /** Exactly the sentence ends, in order. */
  lemma {:induction false} TruePositionsExact(s: string, i: nat)
    ensures forall p :: p in TruePositions(s, i) <==> i <= p < |s| && EndsSentenceAt(s, p)
    ensures forall j, k :: 0 <= j < k < |TruePositions(s, i)| ==> TruePositions(s, i)[j] < TruePositions(s, i)[k]
    decreases |s| - i
  {
    if i < |s| {
      TruePositionsExact(s, i + 1);
    }
  }

  predicate FirstEnd(s: string, p: int) {
    0 <= p < |s| && EndsSentenceAt(s, p) && forall q :: 0 <= q < p ==> !EndsSentenceAt(s, q)
  }

  predicate LastEnd(s: string, p: int) {
    0 <= p < |s| && EndsSentenceAt(s, p) && forall q :: p < q < |s| ==> !EndsSentenceAt(s, q)
  }

  lemma FirstOfPositions(s: string, p: int)
    ensures FirstEnd(s, p) <==> TruePositions(s, 0) != [] && TruePositions(s, 0)[0] == p
  {
    TruePositionsExact(s, 0);
    LeastAndGreatest(TruePositions(s, 0), p);
  }

  lemma LastOfPositions(s: string, p: int)
    ensures LastEnd(s, p) <==> TruePositions(s, 0) != [] && TruePositions(s, 0)[|TruePositions(s, 0)| - 1] == p
  {
    TruePositionsExact(s, 0);
    LeastAndGreatest(TruePositions(s, 0), p);
  }

  lemma LeastAndGreatest(xs: seq<nat>, p: int)
    requires forall j, k :: 0 <= j < k < |xs| ==> xs[j] < xs[k]
    ensures xs != [] && xs[0] == p <==> p in xs && forall q :: q in xs ==> p <= q
    ensures xs != [] && xs[|xs| - 1] == p <==> p in xs && forall q :: q in xs ==> q <= p
  {
    if xs != [] {
      assert xs[0] in xs && xs[|xs| - 1] in xs;
    }
  }

  /** An early cut is made right after the first sentence end, if at most two units stand before it. */
  lemma EarlySplitIff(text: string, r: int)
    requires r > 0
    ensures FindEarlySplit(text) == r <==> FirstEnd(Strip(text), r - 1) && CountUnits(Strip(Strip(text)[..r - 1])) <= 2
  {
    FirstOfPositions(Strip(text), r - 1);
  }

  /** A late cut is made right after the last sentence end, if one or two units stand after it. */
  lemma LateSplitIff(text: string, r: int)
    requires r > 0
    ensures FindLateSplit(text) == r <==> LastEnd(Strip(text), r - 1) && 1 <= CountUnits(Strip(Strip(text)[r..])) <= 2
  {
    LastOfPositions(Strip(text), r - 1);
  }

  lemma VisibleEnd(s: string, p: nat)
    requires 0 < p <= |s| && EndsSentenceAt(s, p - 1)
    ensures Ink(s[..p]) != []
  {
    assert !IsSpace(s[p - 1]);
    InkEmptyIff(s[..p]);
    assert s[..p][p - 1] == s[p - 1];
  }

  /** What precedes a cut is visible: it ends in the punctuation mark. */
  lemma CutShows(text: string, pos: int)
    requires pos == FindEarlySplit(text) || pos == FindLateSplit(text)
    requires 0 < pos
    ensures pos <= |Strip(text)| && Ink(Strip(text)[..pos]) != []
  {
    if pos == FindEarlySplit(text) {
      EarlySplitIff(text, pos);
    } else {
      LateSplitIff(text, pos);
    }
    VisibleEnd(Strip(text), pos);
  }
}
