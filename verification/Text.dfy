/** Python's string operations the transcript code uses, and what they keep of the visible text. */
module Text {

  /** str.isspace, which is also what the pattern \s matches. */
  predicate IsSpace(c: char) {
    c == ' ' || '\t' <= c <= '\r' || '\U{001c}' <= c <= '\U{001f}' || c == '\U{0085}' || c == '\U{00a0}' ||
    c == '\U{1680}' || '\U{2000}' <= c <= '\U{200a}' || c == '\U{2028}' || c == '\U{2029}' || c == '\U{202f}' ||
    c == '\U{205f}' || c == '\U{3000}'
  }

  predicate IsDigit(c: char) {
    '0' <= c <= '9'
  }

  function Digit(d: int): char
    requires 0 <= d < 10
  {
    ('0' as int + d) as char
  }

  /** str.lower() on ASCII letters. */
  function Lower(s: string): string {
    seq(|s|, i requires 0 <= i < |s| => if 'A' <= s[i] <= 'Z' then (s[i] as int + 32) as char else s[i])
  }

  predicate At(s: string, t: string, i: int) {
    0 <= i <= |s| - |t| && s[i..i + |t|] == t
  }

  predicate Contains(s: string, t: string) {
    exists i :: 0 <= i <= |s| - |t| && At(s, t, i)
  }

  predicate EndsWith(s: string, t: string) {
    |t| <= |s| && s[|s| - |t|..] == t
  }

  function LStrip(s: string): string {
    if s != [] && IsSpace(s[0]) then LStrip(s[1..]) else s
  }

  function RStrip(s: string): string {
    if s != [] && IsSpace(s[|s| - 1]) then RStrip(s[..|s| - 1]) else s
  }

  function Strip(s: string): string {
    RStrip(LStrip(s))
  }

  /** re.sub(r"\s+", " ", s) */
  function Collapse(s: string): string
    decreases |s|
  {
    if s == [] then []
    else if IsSpace(s[0]) then LStripShrinks(s); " " + Collapse(LStrip(s))
    else [s[0]] + Collapse(s[1..])
  }

  function Join(sep: string, parts: seq<string>): string {
    if parts == [] then []
    else if |parts| == 1 then parts[0]
    else parts[0] + sep + Join(sep, parts[1..])
  }

  function Ink1(c: char): string {
    if IsSpace(c) then [] else [c]
  }

  /** The visible characters, in order. */
  function Ink(s: string): string {
    if s == [] then []
    else Ink1(s[0]) + Ink(s[1..])
  }

  function InkOf(parts: seq<string>): string {
    if parts == [] then [] else Ink(parts[0]) + InkOf(parts[1..])
  }

  // ----- Units -----

  function DropWord(s: string): (r: string)
    ensures |r| <= |s|
    ensures s != [] && !IsSpace(s[0]) ==> |r| < |s|
  {
    if s != [] && !IsSpace(s[0]) then DropWord(s[1..]) else s
  }

  function WordCount(s: string): nat
    decreases |s|
  {
    if s == [] then 0
    else if IsSpace(s[0]) then WordCount(s[1..])
    else 1 + WordCount(DropWord(s))
  }

  /** count_words_or_units: words if the text has spaces, visible characters otherwise. */
  function CountUnits(text: string): nat {
    var s := Strip(text);
    if ' ' in s || '\t' in s || '\n' in s then WordCount(s) else |Ink(s)|
  }

  // ----- Facts -----

  lemma {:induction false} LStripShrinks(s: string)
    ensures |LStrip(s)| <= |s|
    ensures s != [] && IsSpace(s[0]) ==> |LStrip(s)| < |s|
  {
    if s != [] && IsSpace(s[0]) {
      LStripShrinks(s[1..]);
    }
  }

  lemma {:induction false} InkConcat(a: string, b: string)
    ensures Ink(a + b) == Ink(a) + Ink(b)
  {
    if a == [] {
      assert a + b == b;
    } else {
      var head := Ink1(a[0]);
      calc {
        Ink(a + b);
        { assert (a + b)[1..] == a[1..] + b; }
        head + Ink(a[1..] + b);
        { InkConcat(a[1..], b); }
        head + (Ink(a[1..]) + Ink(b));
        (head + Ink(a[1..])) + Ink(b);
      }
    }
  }

  lemma {:induction false} InkOfConcat(a: seq<string>, b: seq<string>)
    ensures InkOf(a + b) == InkOf(a) + InkOf(b)
  {
    if a == [] {
      assert a + b == b;
    } else {
      var head := Ink(a[0]);
      calc {
        InkOf(a + b);
        { assert (a + b)[1..] == a[1..] + b; }
        head + InkOf(a[1..] + b);
        { InkOfConcat(a[1..], b); }
        head + (InkOf(a[1..]) + InkOf(b));
        (head + InkOf(a[1..])) + InkOf(b);
      }
    }
  }

  lemma InkOfOne(part: string)
    ensures InkOf([part]) == Ink(part)
  {
    assert InkOf([part][1..]) == [];
  }

  lemma InkOfMore(parts: seq<string>, part: string)
    ensures InkOf(parts + [part]) == InkOf(parts) + Ink(part)
  {
    InkOfConcat(parts, [part]);
    InkOfOne(part);
  }

  lemma InkOfSum(a: seq<string>, b: seq<string>, ink: string, ink': string)
    requires InkOf(a) == ink && InkOf(b) == ink'
    ensures InkOf(a + b) == ink + ink'
  {
    InkOfConcat(a, b);
  }

  lemma {:induction false} InkLStrip(s: string)
    ensures Ink(LStrip(s)) == Ink(s)
  {
    if s != [] && IsSpace(s[0]) {
      InkLStrip(s[1..]);
    }
  }

  lemma InkOfSpace(c: char)
    requires IsSpace(c)
    ensures Ink([c]) == []
  {
    assert Ink([c][1..]) == [];
  }

  lemma {:induction false} InkRStrip(s: string)
    ensures Ink(RStrip(s)) == Ink(s)
  {
    if s != [] && IsSpace(s[|s| - 1]) {
      var t, last := s[..|s| - 1], s[|s| - 1];
      InkRStrip(t);
      InkConcat(t, [last]);
      assert s == t + [last];
      InkOfSpace(last);
    }
  }

  lemma InkStrip(s: string)
    ensures Ink(Strip(s)) == Ink(s)
  {
    InkLStrip(s);
    InkRStrip(LStrip(s));
  }

  lemma {:induction false} InkCollapse(s: string)
    ensures Ink(Collapse(s)) == Ink(s)
    decreases |s|
  {
    if s != [] {
      if IsSpace(s[0]) {
        LStripShrinks(s);
        InkCollapse(LStrip(s));
        InkLStrip(s);
        InkConcat(" ", Collapse(LStrip(s)));
      } else {
        InkCollapse(s[1..]);
      }
    }
  }

  lemma {:induction false} InkJoinWith(sep: string, parts: seq<string>)
    requires Ink(sep) == []
    ensures Ink(Join(sep, parts)) == InkOf(parts)
  {
    if parts != [] {
      InkJoinWith(sep, parts[1..]);
      if |parts| == 1 {
        assert InkOf(parts[1..]) == [];
      } else {
        InkConcat(parts[0] + sep, Join(sep, parts[1..]));
        InkConcat(parts[0], sep);
      }
    }
  }

  lemma InkJoin(parts: seq<string>)
    ensures Ink(Join(" ", parts)) == InkOf(parts)
  {
    InkOfSpace(' ');
    InkJoinWith(" ", parts);
  }

  /** The readable form the formatter gives every text: joined, stripped, collapsed, stripped. */
  function Tidy(parts: seq<string>): string {
    Strip(Collapse(Strip(Join(" ", parts))))
  }

  lemma InkTidy(parts: seq<string>)
    ensures Ink(Tidy(parts)) == InkOf(parts)
  {
    var joined := Join(" ", parts);
    InkJoin(parts);
    InkStrip(joined);
    InkCollapse(Strip(joined));
    InkStrip(Collapse(Strip(joined)));
  }

  lemma {:induction false} LStripBefore(p: string, w: string)
    requires w != [] && !IsSpace(w[0])
    ensures LStrip(p + w) == LStrip(p) + w
  {
    if p != [] {
      assert (p + w)[0] == p[0];
      if IsSpace(p[0]) {
        assert (p + w)[1..] == p[1..] + w;
        LStripBefore(p[1..], w);
      }
    } else {
      assert p + w == w;
    }
  }

  lemma {:induction false} RStripAfter(w: string, t: string)
    requires w != [] && !IsSpace(w[|w| - 1])
    ensures RStrip(w + t) == w + RStrip(t)
  {
    if t != [] {
      assert (w + t)[|w + t| - 1] == t[|t| - 1];
      if IsSpace(t[|t| - 1]) {
        assert (w + t)[..|w + t| - 1] == w + t[..|t| - 1];
        RStripAfter(w, t[..|t| - 1]);
      }
    } else {
      assert w + t == w;
    }
  }

  predicate Stripped(s: string) {
    s != [] ==> !IsSpace(s[0]) && !IsSpace(s[|s| - 1])
  }

  lemma {:induction false} LStripPart(s: string)
    ensures LStrip(s) != [] ==> !IsSpace(LStrip(s)[0])
    ensures |LStrip(s)| <= |s| && s[|s| - |LStrip(s)|..] == LStrip(s)
    ensures forall k :: 0 <= k < |s| - |LStrip(s)| ==> IsSpace(s[k])
  {
    if s != [] && IsSpace(s[0]) {
      var t, n := s[1..], |LStrip(s)|;
      LStripPart(t);
      assert s[|s| - n..] == t[|t| - n..];
      forall k | 0 <= k < |s| - n
        ensures IsSpace(s[k])
      {
        assert k == 0 || s[k] == t[k - 1];
      }
    }
  }

  lemma {:induction false} RStripPart(s: string)
    ensures RStrip(s) != [] ==> !IsSpace(RStrip(s)[|RStrip(s)| - 1])
    ensures RStrip(s) <= s
    ensures forall k :: |RStrip(s)| <= k < |s| ==> IsSpace(s[k])
  {
    if s != [] && IsSpace(s[|s| - 1]) {
      var t := s[..|s| - 1];
      RStripPart(t);
      assert t <= s;
      assert forall k :: 0 <= k < |t| ==> s[k] == t[k];
    }
  }

  /** Strip cuts the text down to the stretch from the first to the last visible character. */
  lemma StripCuts(s: string) returns (i: nat)
    ensures i + |Strip(s)| <= |s| && s[i..i + |Strip(s)|] == Strip(s)
    ensures Stripped(Strip(s))
    ensures forall k :: 0 <= k < i || i + |Strip(s)| <= k < |s| ==> IsSpace(s[k])
  {
    var l := LStrip(s);
    LStripPart(s);
    RStripPart(l);
    i := |s| - |l|;
  }

  lemma StripOfStripped(s: string)
    requires Stripped(s)
    ensures Strip(s) == s
  {
  }

  lemma {:induction false} InkEmptyIff(s: string)
    ensures Ink(s) == [] <==> forall k :: 0 <= k < |s| ==> IsSpace(s[k])
  {
    if s != [] {
      InkEmptyIff(s[1..]);
      assert forall k :: 1 <= k < |s| ==> s[k] == s[1..][k - 1];
    }
  }

  /** A text strips to nothing exactly when it shows nothing. */
  lemma StripEmptyIff(s: string)
    ensures Strip(s) == [] <==> Ink(s) == []
  {
    var i := StripCuts(s);
    InkEmptyIff(s);
    InkEmptyIff(Strip(s));
    InkStrip(s);
  }

  /** Stripping a stretch of a text leaves no more than stripping the text. */
  lemma StripMonotone(a: string, b: string, c: string)
    ensures |Strip(b)| <= |Strip(a + b + c)|
  {
    var s := a + b + c;
    var i := StripCuts(b);
    var j := StripCuts(s);
    var n := |Strip(b)|;
    if n > 0 {
      assert b[i] == Strip(b)[0] && b[i + n - 1] == Strip(b)[n - 1];
      assert s[|a| + i] == b[i] && s[|a| + i + n - 1] == b[i + n - 1];
    }
  }

  lemma {:induction false} JoinAppend(sep: string, a: seq<string>, b: seq<string>)
    ensures Join(sep, a + b) ==
              if a == [] then Join(sep, b) else if b == [] then Join(sep, a) else Join(sep, a) + sep + Join(sep, b)
  {
    if a == [] {
      assert a + b == b;
    } else if b == [] {
      assert a + b == a;
    } else {
      JoinAppend(sep, a[1..], b);
      assert (a + b)[1..] == a[1..] + b;
      assert |a| > 1 ==> Join(sep, a) == a[0] + sep + Join(sep, a[1..]);
      assert |a| == 1 ==> (a + b)[1..] == b;
      assert Join(sep, a + b) == a[0] + sep + Join(sep, a[1..] + b);
    }
  }

  lemma JoinStretch(sep: string, a: seq<string>, b: seq<string>, c: seq<string>) returns (pre: string, post: string)
    requires b != []
    ensures Join(sep, a + b + c) == pre + Join(sep, b) + post
  {
    pre := if a == [] then "" else Join(sep, a) + sep;
    post := if c == [] then "" else sep + Join(sep, c);
    assert Join(sep, a + b) == pre + Join(sep, b) by {
      JoinAppend(sep, a, b);
    }
    JoinAppend(sep, a + b, c);
  }

  /** Only blanks survive collapsing as whitespace. */
  lemma {:induction false} CollapseHasOnlyBlanks(s: string)
    ensures forall k :: 0 <= k < |Collapse(s)| && IsSpace(Collapse(s)[k]) ==> Collapse(s)[k] == ' '
    decreases |s|
  {
    if s != [] {
      if IsSpace(s[0]) {
        LStripShrinks(s);
        CollapseHasOnlyBlanks(LStrip(s));
      } else {
        CollapseHasOnlyBlanks(s[1..]);
      }
    }
  }

  /** Tidy texts are stripped and fit on one line. */
  lemma TidyIsLine(parts: seq<string>)
    ensures Stripped(Tidy(parts))
    ensures forall k :: 0 <= k < |Tidy(parts)| && IsSpace(Tidy(parts)[k]) ==> Tidy(parts)[k] == ' '
  {
    var s := Collapse(Strip(Join(" ", parts)));
    CollapseHasOnlyBlanks(Strip(Join(" ", parts)));
    var i := StripCuts(s);
    assert forall k :: 0 <= k < |Strip(s)| ==> Strip(s)[k] == s[i + k];
  }
}
