/** KeypointMatcher.inject_keypoint_timestamps: anchoring keypoints in the transcript. Scores are exact reals. */
module Keypoints {
  import opened Common
  import opened Text

  /** A "start" or "end" entry: missing, null, not convertible to float, or a number. */
  datatype Seconds = Missing | Null | Unreadable | Number(value: real)

  datatype Passage = Passage(start: Seconds, end: Seconds, text: string)

  /** One entry of the keypoint list; `startSeconds` is Some when it already holds a number. */
  datatype Keypoint =
    | NotADict
    | Keypoint(evidence: string, title: string, detail: string, startSeconds: Option<real>, endSeconds: Option<real>)

  /** The configured threshold and the text functions of the matcher. */
  datatype Matcher = Matcher(normalize: string -> string, tokens: string -> set<string>, threshold: real)

  datatype Version = Falsy | NotAnInt | Int(value: int)

  // ----- Scores -----

  function Query(kp: Keypoint): string
    requires kp.Keypoint?
  {
    var evidence, title := Strip(kp.evidence), Strip(kp.title);
    if |evidence| > 5 then Strip(evidence + " " + title)
    else
      var detail := Strip(kp.detail);
      Strip(title + " " + detail[..Min(100, |detail|)])
  }

  function RMin(a: real, b: real): real {
    if a < b then a else b
  }

  function Overlap(query: set<string>, segment: set<string>): real {
    if query == {} || segment == {} then 0.0
    else
      var inter := |query * segment| as real;
      12.0 * (inter / Max(1, |query|) as real) + RMin(8.0, inter)
  }

  predicate Verbatim(m: Matcher, query: string, text: string) {
    var qn, sn := m.normalize(query), m.normalize(text);
    text != "" && qn != "" && sn != "" && |qn| >= 8 && Contains(sn, qn)
  }

  function Score(m: Matcher, query: string, text: string): real {
    if text == "" || m.normalize(query) == "" || m.normalize(text) == "" then 0.0
    else
      (if Verbatim(m, query, text) then 30.0 else 0.0)
      + Overlap(m.tokens(query), m.tokens(text))
      - RMin(3.0, |m.normalize(text)| as real / 280.0)
  }

  function Scores(m: Matcher, query: string, segments: seq<Passage>): (r: seq<real>)
    ensures |r| == |segments|
    ensures forall i :: 0 <= i < |r| ==> r[i] == Score(m, query, segments[i].text)
  {
    seq(|segments|, i requires 0 <= i < |segments| => Score(m, query, segments[i].text))
  }

  lemma OverlapBounds(query: set<string>, segment: set<string>)
    ensures 0.0 <= Overlap(query, segment) <= 20.0
  {
    if query != {} && segment != {} {
      SubsetSize(query * segment, query);
      var inter, all := |query * segment| as real, |query| as real;
      assert 0.0 <= inter <= all && all >= 1.0;
      FractionBounds(inter, all);
    }
  }

  lemma FractionBounds(a: real, b: real)
    requires 0.0 <= a <= b && b > 0.0
    ensures 0.0 <= a / b <= 1.0
  {
  }

  /** A verbatim quotation outweighs everything else, and no score comes near the search's starting value. */
  lemma ScoreBounds(m: Matcher, query: string, text: string)
    ensures Verbatim(m, query, text) ==> 27.0 <= Score(m, query, text) <= 50.0
    ensures !Verbatim(m, query, text) ==> -3.0 <= Score(m, query, text) <= 20.0
  {
    OverlapBounds(m.tokens(query), m.tokens(text));
  }

  // ----- The window -----

  predicate EarliestBest(scores: seq<real>, b: int) {
    && 0 <= b < |scores|
    && (forall i :: 0 <= i < |scores| ==> scores[i] <= scores[b])
    && forall i :: 0 <= i < b ==> scores[i] < scores[b]
  }

  predicate Strong(score: real, best: real, threshold: real) {
    score >= best * 0.6 || score > threshold * 0.8
  }

  /** The largest stretch around the earliest best score whose neighbours of the best are all strong. */
  ghost predicate IsWindow(scores: seq<real>, threshold: real, lo: int, hi: int) {
    exists b :: WindowAround(scores, threshold, b, lo, hi)
  }

  predicate WindowAround(scores: seq<real>, threshold: real, b: int, lo: int, hi: int) {
    && EarliestBest(scores, b) && scores[b] >= threshold
    && 0 <= lo <= b <= hi < |scores|
    && (forall i :: lo <= i <= hi && i != b ==> Strong(scores[i], scores[b], threshold))
    && (lo > 0 ==> !Strong(scores[lo - 1], scores[b], threshold))
    && (hi < |scores| - 1 ==> !Strong(scores[hi + 1], scores[b], threshold))
  }

  ghost predicate HasWindow(scores: seq<real>, threshold: real) {
    exists i :: 0 <= i < |scores| && scores[i] >= threshold
  }

  lemma BestIsUnique(scores: seq<real>, b: int, b': int)
    requires EarliestBest(scores, b) && EarliestBest(scores, b')
    ensures b == b'
  {
    assert scores[b] <= scores[b'] && scores[b'] <= scores[b];
  }

  lemma WindowIsUnique(scores: seq<real>, threshold: real, lo: int, hi: int, lo': int, hi': int)
    requires IsWindow(scores, threshold, lo, hi) && IsWindow(scores, threshold, lo', hi')
    ensures lo == lo' && hi == hi'
  {
    var b :| WindowAround(scores, threshold, b, lo, hi);
    var b' :| WindowAround(scores, threshold, b', lo', hi');
    BestIsUnique(scores, b, b');
    SameEnds(scores, threshold, b, lo, hi, lo', hi');
    SameEnds(scores, threshold, b, lo', hi', lo, hi);
  }

  lemma SameEnds(scores: seq<real>, threshold: real, b: int, lo: int, hi: int, lo': int, hi': int)
    requires WindowAround(scores, threshold, b, lo, hi) && WindowAround(scores, threshold, b, lo', hi')
    ensures lo <= lo' && hi' <= hi
  {
  }

  method FindBest(scores: seq<real>) returns (bestIdx: int, bestScore: real)
    ensures bestIdx == -1 ==> bestScore == -1000000000.0 && forall i :: 0 <= i < |scores| ==> scores[i] <= bestScore
    ensures bestIdx != -1 ==> EarliestBest(scores, bestIdx) && bestScore == scores[bestIdx] > -1000000000.0
  {
    bestIdx, bestScore := -1, -1000000000.0;
    for i := 0 to |scores|
      invariant -1 <= bestIdx < i && bestScore >= -1000000000.0
      invariant forall k :: 0 <= k < i ==> scores[k] <= bestScore
      invariant bestIdx == -1 ==> bestScore == -1000000000.0
      invariant bestIdx != -1 ==>
                  bestScore == scores[bestIdx] > -1000000000.0
                  && forall k :: 0 <= k < bestIdx ==> scores[k] < bestScore
    {
      if scores[i] > bestScore {
        bestScore, bestIdx := scores[i], i;
      }
    }
  }

  /** Argmax and both expansion loops. */
  method FindWindow(scores: seq<real>, threshold: real) returns (found: bool, startIdx: int, endIdx: int)
    requires forall i :: 0 <= i < |scores| ==> scores[i] > -1000000000.0
    ensures found <==> HasWindow(scores, threshold)
    ensures found ==> IsWindow(scores, threshold, startIdx, endIdx)
  {
    var bestIdx, bestScore := FindBest(scores);
    if bestIdx == -1 || bestScore < threshold {
      return false, 0, 0;
    }
    assert scores[bestIdx] >= threshold;
    startIdx, endIdx := bestIdx, bestIdx;
    var minExpansion := threshold * 0.8;
    while startIdx > 0 && (scores[startIdx - 1] >= bestScore * 0.6 || scores[startIdx - 1] > minExpansion)
      invariant 0 <= startIdx <= bestIdx
      invariant forall i :: startIdx <= i < bestIdx ==> Strong(scores[i], bestScore, threshold)
    {
      startIdx := startIdx - 1;
    }
    while endIdx < |scores| - 1 && (scores[endIdx + 1] >= bestScore * 0.6 || scores[endIdx + 1] > minExpansion)
      invariant bestIdx <= endIdx < |scores|
      invariant forall i :: bestIdx < i <= endIdx ==> Strong(scores[i], bestScore, threshold)
    {
      endIdx := endIdx + 1;
    }
    assert WindowAround(scores, threshold, bestIdx, startIdx, endIdx);
    found := true;
  }

  // ----- Anchoring -----

  /** float(segment.get("start", 0.0)), None where it raises. */
  function StartOf(s: Passage): Option<real> {
    match s.start
    case Missing => Some(0.0)
    case Number(v) => Some(v)
    case _ => None
  }

  /** float(segment.get("end", startSeconds) or 0.0) */
  function EndOf(s: Passage, startSeconds: real): Option<real> {
    match s.end
    case Missing => Some(startSeconds)
    case Null => Some(0.0)
    case Number(v) => Some(v)
    case Unreadable => None
  }

  predicate WantsAnchor(kp: Keypoint) {
    kp.Keypoint? && kp.startSeconds.None? && Query(kp) != ""
  }

  /** What one pass makes of a keypoint. An unreadable end leaves the start written. */
  ghost predicate Anchored(kp: Keypoint, kp': Keypoint, segments: seq<Passage>, m: Matcher) {
    if !WantsAnchor(kp) || !HasWindow(Scores(m, Query(kp), segments), m.threshold) then kp' == kp
    else exists lo, hi ::
           IsWindow(Scores(m, Query(kp), segments), m.threshold, lo, hi) && AnchoredAt(kp, kp', segments, lo, hi)
  }

  predicate AnchoredAt(kp: Keypoint, kp': Keypoint, segments: seq<Passage>, lo: int, hi: int)
    requires kp.Keypoint?
  {
    && 0 <= lo <= hi < |segments|
    && var start := StartOf(segments[lo]);
       if start.None? then kp' == kp
       else
         var end := EndOf(segments[hi], start.value);
         kp' == kp.(startSeconds := start, endSeconds := if end.Some? then end else kp.endSeconds)
  }

  method AnchorKeypoint(kp: Keypoint, segments: seq<Passage>, m: Matcher) returns (kp': Keypoint)
    ensures Anchored(kp, kp', segments, m)
  {
    kp' := kp;
    if kp.NotADict? || kp.startSeconds.Some? {
      return;
    }
    var query := Query(kp);
    if query == "" {
      return;
    }
    var scores := Scores(m, query, segments);
    forall i | 0 <= i < |scores|
      ensures scores[i] > -1000000000.0
    {
      ScoreBounds(m, query, segments[i].text);
    }
    var found, lo, hi := FindWindow(scores, m.threshold);
    if !found {
      return;
    }
    var start := StartOf(segments[lo]);
    if start.Some? {
      kp' := kp'.(startSeconds := start);
      var end := EndOf(segments[hi], start.value);
      if end.Some? {
        kp' := kp'.(endSeconds := end);
      }
    }
    assert AnchoredAt(kp, kp', segments, lo, hi);
  }

  lemma NoSegments(kp: Keypoint, m: Matcher)
    ensures Anchored(kp, kp, [], m)
  {
    if WantsAnchor(kp) {
      assert Scores(m, Query(kp), []) == [];
    }
  }

  ghost predicate AnchoredUpTo(before: seq<Keypoint>, now: seq<Keypoint>, n: nat, segments: seq<Passage>, m: Matcher) {
    && |now| == |before| && n <= |now|
    && (forall i :: 0 <= i < n ==> Anchored(before[i], now[i], segments, m))
    && now[n..] == before[n..]
  }

  lemma AnchoredNext(before: seq<Keypoint>, now: seq<Keypoint>, kp: Keypoint, n: nat, segments: seq<Passage>,
                     m: Matcher)
    requires AnchoredUpTo(before, now, n, segments, m) && n < |now|
    requires Anchored(before[n], kp, segments, m)
    ensures AnchoredUpTo(before, now[n := kp], n + 1, segments, m)
  {
    assert now[n := kp][n + 1..] == now[n..][1..];
  }

  /** The keypoint loop and the version mark; without segments nothing is touched. */
  method InjectKeypointTimestamps(keypoints: array<Keypoint>, version: Version, segments: seq<Passage>, m: Matcher)
    returns (version': Version)
    modifies keypoints
    ensures segments == [] ==> keypoints[..] == old(keypoints[..]) && version' == version
    ensures segments != [] ==> version' == Int(if version.Int? && version.value > 2 then version.value else 2)
    ensures forall i :: 0 <= i < keypoints.Length ==> Anchored(old(keypoints[i]), keypoints[i], segments, m)
  {
    if segments == [] {
      forall i | 0 <= i < keypoints.Length
        ensures Anchored(keypoints[i], keypoints[i], segments, m)
      {
        NoSegments(keypoints[i], m);
      }
      return version;
    }
    ghost var before := keypoints[..];
    for k := 0 to keypoints.Length
      invariant AnchoredUpTo(before, keypoints[..], k, segments, m)
    {
      assert keypoints[k] == before[k];
      var kp := AnchorKeypoint(keypoints[k], segments, m);
      AnchoredNext(before, keypoints[..], kp, k, segments, m);
      keypoints[k] := kp;
    }
    version' := Int(if version.NotAnInt? then 2 else Max(if version.Falsy? then 1 else version.value, 2));
  }

  /** A pass has one outcome only. */
  lemma AnchoredIsUnique(kp: Keypoint, a: Keypoint, b: Keypoint, segments: seq<Passage>, m: Matcher)
    requires Anchored(kp, a, segments, m) && Anchored(kp, b, segments, m)
    ensures a == b
  {
    if WantsAnchor(kp) && HasWindow(Scores(m, Query(kp), segments), m.threshold) {
      var scores := Scores(m, Query(kp), segments);
      var lo, hi :| IsWindow(scores, m.threshold, lo, hi) && AnchoredAt(kp, a, segments, lo, hi);
      var lo', hi' :| IsWindow(scores, m.threshold, lo', hi') && AnchoredAt(kp, b, segments, lo', hi');
      WindowIsUnique(scores, m.threshold, lo, hi, lo', hi');
      SameAnchor(kp, a, b, segments, lo, hi);
    }
  }

  lemma SameAnchor(kp: Keypoint, a: Keypoint, b: Keypoint, segments: seq<Passage>, lo: int, hi: int)
    requires kp.Keypoint? && AnchoredAt(kp, a, segments, lo, hi) && AnchoredAt(kp, b, segments, lo, hi)
    ensures a == b
  {
  }

  /** Injecting twice equals injecting once. */
  lemma AnchoringTwice(kp: Keypoint, once: Keypoint, twice: Keypoint, segments: seq<Passage>, m: Matcher)
    requires Anchored(kp, once, segments, m) && Anchored(once, twice, segments, m)
    ensures twice == once
  {
    if WantsAnchor(once) {
      assert once == kp;
      AnchoredIsUnique(kp, once, twice, segments, m);
    }
  }

  predicate AllReach(scores: seq<real>, lo: int, hi: int, bound: real) {
    0 <= lo <= hi < |scores| && forall i :: lo <= i <= hi ==> scores[i] >= bound
  }

  /** The window's promise: every score in it reaches 0.6 of the threshold. */
  ghost predicate WindowsReach(threshold: real) {
    forall m: Matcher, query, segments, lo, hi ::
      m.threshold == threshold && IsWindow(Scores(m, query, segments), threshold, lo, hi) ==>
        AllReach(Scores(m, query, segments), lo, hi, 0.6 * threshold)
  }

  /** The score of a segment of `length` characters that shares `inter` of the `all` tokens of the query and does
    * not quote it. */
  function TokenScore(inter: nat, all: nat, length: nat): real
    requires all > 0
  {
    (if inter == 0 then 0.0 else 12.0 * (inter as real / all as real) + RMin(8.0, inter as real))
    - RMin(3.0, length as real / 280.0)
  }

  /** Some segment can score at least the threshold, and yet less than 0.6 of it. */
  ghost predicate FallsShort(threshold: real) {
    exists inter: nat, all: nat, length: nat :: Short(inter, all, length, threshold)
  }

  predicate Short(inter: nat, all: nat, length: nat, threshold: real) {
    0 < all && inter <= all && 0 < length && threshold <= TokenScore(inter, all, length) < 0.6 * threshold
  }

  /** Exactly when the promise holds: no such score exists. It does hold for thresholds of at least 0 and of at
    * most -5. */
  lemma WindowScoresIff(threshold: real)
    ensures WindowsReach(threshold) <==> !FallsShort(threshold)
    ensures threshold >= 0.0 || threshold <= -5.0 ==> WindowsReach(threshold)
  {
    if threshold >= 0.0 || threshold <= -5.0 {
      NoneShort(threshold);
    }
    if FallsShort(threshold) {
      var inter: nat, all: nat, length: nat :| Short(inter, all, length, threshold);
      ScoreOccurs(inter, all, length, threshold);
    } else {
      AllWindowsReach(threshold);
    }
  }

  lemma AllWindowsReach(threshold: real)
    requires !FallsShort(threshold)
    ensures WindowsReach(threshold)
  {
    forall m: Matcher, query, segments, lo, hi |
      m.threshold == threshold && IsWindow(Scores(m, query, segments), threshold, lo, hi)
      ensures AllReach(Scores(m, query, segments), lo, hi, 0.6 * threshold)
    {
      WindowReaches(m, query, segments, lo, hi);
    }
  }

  lemma NoneShort(threshold: real)
    requires threshold >= 0.0 || threshold <= -5.0
    ensures !FallsShort(threshold)
  {
    forall inter: nat, all: nat, length: nat
      ensures !Short(inter, all, length, threshold)
    {
      if 0 < all && inter <= all {
        FractionBounds(inter as real, all as real);
        assert TokenScore(inter, all, length) >= -3.0;
      }
    }
  }

  lemma WindowReaches(m: Matcher, query: string, segments: seq<Passage>, lo: int, hi: int)
    requires IsWindow(Scores(m, query, segments), m.threshold, lo, hi) && !FallsShort(m.threshold)
    ensures AllReach(Scores(m, query, segments), lo, hi, 0.6 * m.threshold)
  {
    var scores, t := Scores(m, query, segments), m.threshold;
    var b :| WindowAround(scores, t, b, lo, hi);
    forall i | lo <= i <= hi
      ensures scores[i] >= 0.6 * t
    {
      assert i == b || Strong(scores[i], scores[b], t);
      if scores[i] < 0.6 * t {
        assert t <= scores[i] < 0.0;
        var inter, all, length := NegativeScore(m, query, segments[i].text);
        assert Short(inter, all, length, t);
      }
    }
  }

  /** A negative score is the score of its tokens and its length. */
  lemma NegativeScore(m: Matcher, query: string, text: string) returns (inter: nat, all: nat, length: nat)
    requires Score(m, query, text) < 0.0
    ensures 0 < all && inter <= all && 0 < length && Score(m, query, text) == TokenScore(inter, all, length)
  {
    ScoreBounds(m, query, text);
    var q, s := m.tokens(query), m.tokens(text);
    length := |m.normalize(text)|;
    if q == {} {
      inter, all := 0, 1;
    } else {
      SubsetSize(q * s, q);
      inter, all := |q * s|, |q|;
      assert s == {} ==> q * s == {};
    }
  }

  function Repeat(c: char, n: nat): (s: string)
    ensures |s| == n
  {
    seq(n, _ => c)
  }

  function Words(n: nat): set<string> {
    set i | 0 <= i < n :: Repeat('x', i)
  }

  lemma {:induction false} WordCount(n: nat)
    ensures |Words(n)| == n
  {
    if n > 0 {
      WordCount(n - 1);
      forall i | 0 <= i < n - 1
        ensures Repeat('x', i) != Repeat('x', n - 1)
      {
        assert |Repeat('x', i)| != |Repeat('x', n - 1)|;
      }
      assert Words(n) == Words(n - 1) + {Repeat('x', n - 1)};
    }
  }

  /** A matcher under which the query has `all` words, `inter` of them in a segment of `length` characters. */
  function CountMatcher(inter: nat, all: nat, length: nat, threshold: real): Matcher {
    Matcher(s => if s == "q" then s else Repeat('a', length),
            s => if s == "q" then Words(all) else Words(inter), threshold)
  }

  lemma {:induction false} CountOverlap(inter: nat, all: nat)
    requires 0 < all && inter <= all
    ensures Overlap(Words(all), Words(inter)) ==
              if inter == 0 then 0.0 else 12.0 * (inter as real / all as real) + RMin(8.0, inter as real)
  {
    WordCount(all);
    WordCount(inter);
    assert Words(all) * Words(inter) == Words(inter);
  }

  lemma CountScore(inter: nat, all: nat, length: nat, threshold: real)
    requires 0 < all && inter <= all && 0 < length
    ensures Score(CountMatcher(inter, all, length, threshold), "q", "s") == TokenScore(inter, all, length)
  {
    CountOverlap(inter, all);
  }

  /** A single segment with any such score is a window of its own. */
  lemma {:induction false} ScoreOccurs(inter: nat, all: nat, length: nat, threshold: real)
    requires Short(inter, all, length, threshold)
    ensures !WindowsReach(threshold)
  {
    var m := CountMatcher(inter, all, length, threshold);
    CountScore(inter, all, length, threshold);
    var scores := Scores(m, "q", [Passage(Missing, Missing, "s")]);
    SingleWindow(scores, threshold);
  }

  lemma SingleWindow(scores: seq<real>, threshold: real)
    requires |scores| == 1 && threshold <= scores[0]
    ensures IsWindow(scores, threshold, 0, 0)
  {
    assert WindowAround(scores, threshold, 0, 0, 0);
  }

  /** A matcher that treats words of lower-case letters as the real one does. */
  function WordMatcher(threshold: real): Matcher {
    Matcher(s => s, s => if |s| < 2 then {} else {s}, threshold)
  }

  /** For all thresholds from -1/140 down to -5 the promise is broken by one segment of one long word. */
  lemma WindowFallsShort(threshold: real) returns (length: nat)
    requires -5.0 < threshold <= -1.0 / 140.0
    ensures length > 0
    ensures var scores := Scores(WordMatcher(threshold), "zz", [Passage(Missing, Missing, Repeat('a', length))]);
            IsWindow(scores, threshold, 0, 0) && scores[0] < 0.6 * threshold
  {
    length := if threshold <= -3.0 then 840 else (-threshold * 280.0).Floor;
    var text, m := Repeat('a', length), WordMatcher(threshold);
    assert text[0] == 'a' && "zz"[0] == 'z';
    assert m.tokens("zz") * m.tokens(text) == {};
    var scores := Scores(m, "zz", [Passage(Missing, Missing, text)]);
    assert scores[0] == -RMin(3.0, length as real / 280.0);
    SingleWindow(scores, threshold);
  }

  /** If any segment quotes the query verbatim, the segment the window grows from does, and thresholds up to 27 let it
    * in. */
  lemma VerbatimWins(m: Matcher, query: string, segments: seq<Passage>, i: nat, b: int)
    requires i < |segments| && Verbatim(m, query, segments[i].text)
    requires EarliestBest(Scores(m, query, segments), b)
    ensures Verbatim(m, query, segments[b].text)
    ensures m.threshold <= 27.0 ==> HasWindow(Scores(m, query, segments), m.threshold)
  {
    var scores := Scores(m, query, segments);
    ScoreBounds(m, query, segments[i].text);
    ScoreBounds(m, query, segments[b].text);
    assert scores[i] <= scores[b];
  }
}
