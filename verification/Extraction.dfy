/** extract_first_json_object: the first brace-balanced stretch of a model's reply. */
module Extraction {
  import opened Common
  import opened Text
  import opened Json

  // ----- Cleaning the reply -----

  predicate OpensWithJson(s: string) {
    |s| >= 4 && s[0] in "jJ" && s[1] in "sS\U{017f}" && s[2] in "oO" && s[3] in "nN"
  }

  function DropOpeningFence(s: string): string {
    if |s| < 3 || s[..3] != "```" then s
    else if OpensWithJson(s[3..]) then LStrip(s[7..])
    else LStrip(s[3..])
  }

  function DropClosingFence(s: string): string {
    if |s| < 3 || s[|s| - 3..] != "```" then s else RStrip(s[..|s| - 3])
  }

  function Clean(text: string): string {
    Strip(DropClosingFence(DropOpeningFence(Strip(text))))
  }

  // ----- The scanner -----

  datatype Scan = Scan(depth: int, inString: bool, escaped: bool)

  function Scanned(st: Scan, c: char): Scan {
    if st.escaped then st.(escaped := false)
    else if c == '\\' && st.inString then st.(escaped := true)
    else if c == '"' then st.(inString := !st.inString)
    else if st.inString then st
    else if c == '{' then st.(depth := st.depth + 1)
    else if c == '}' then st.(depth := st.depth - 1)
    else st
  }

  predicate Closes(st: Scan, c: char) {
    !st.escaped && !st.inString && c == '}' && st.depth == 1
  }

  /** How many characters the scanner reads until the first brace is closed. */
  function Close(st: Scan, s: string): Option<nat>
    decreases |s|
  {
    if s == [] then None
    else if Closes(st, s[0]) then Some(1)
    else Later(1, Close(Scanned(st, s[0]), s[1..]))
  }

  function Later(n: nat, o: Option<nat>): Option<nat> {
    if o.Some? then Some(n + o.value) else None
  }

  /** The state after reading all of `s`, unless the first brace is closed on the way. */
  function Read(st: Scan, s: string): Option<Scan>
    decreases |s|
  {
    if s == [] then Some(st)
    else if Closes(st, s[0]) then None
    else Read(Scanned(st, s[0]), s[1..])
  }

  function Find(c: char, s: string): (r: Option<nat>)
    ensures r.Some? ==> r.value < |s| && s[r.value] == c && c !in s[..r.value]
    ensures r.None? <==> c !in s
  {
    if s == [] then None
    else if s[0] == c then Some(0)
    else Later(1, Find(c, s[1..]))
  }

  function FindLast(c: char, s: string): (r: Option<nat>)
    ensures r.Some? ==> r.value < |s| && s[r.value] == c && c !in s[r.value + 1..]
    ensures r.None? <==> c !in s
  {
    if s == [] then None
    else if s[|s| - 1] == c then Some(|s| - 1)
    else FindLast(c, s[..|s| - 1])
  }

  lemma {:induction false} CloseInRange(st: Scan, s: string)
    ensures Close(st, s).Some? ==> 0 < Close(st, s).value <= |s| && s[Close(st, s).value - 1] == '}'
    decreases |s|
  {
    if s != [] && !Closes(st, s[0]) {
      CloseInRange(Scanned(st, s[0]), s[1..]);
    }
  }

  function Extract(text: string, isJson: string -> bool): Option<string> {
    Found(Clean(text), isJson)
  }

  /** What is found in the cleaned text. */
  function Found(s: string, isJson: string -> bool): Option<string> {
    var start := Find('{', s);
    if start.None? then None else Object(s[start.value..], isJson)
  }

  /** The text starts with a brace. */
  function Object(s: string, isJson: string -> bool): Option<string> {
    CloseInRange(Scan(0, false, false), s);
    var close := Close(Scan(0, false, false), s);
    if close.Some? then Some(s[..close.value])
    else
      var end := FindLast('}', s);
      if end.Some? && end.value > 0 && isJson(s[..end.value + 1]) then Some(s[..end.value + 1]) else None
  }

  lemma CloseNext(st: Scan, s: string, i: nat)
    requires i < |s|
    ensures Close(st, s[i..]) == if Closes(st, s[i]) then Some(1) else Later(1, Close(Scanned(st, s[i]), s[i + 1..]))
  {
    assert s[i..][1..] == s[i + 1..];
  }

  /** The loop over depth, in_string and escape_next: where the first brace of `s` is closed. */
  method FindClose(s: string) returns (end: Option<nat>)
    ensures end == Close(Scan(0, false, false), s)
  {
    var depth, inString, escapeNext := 0, false, false;
    for i := 0 to |s|
      invariant Close(Scan(0, false, false), s) == Later(i, Close(Scan(depth, inString, escapeNext), s[i..]))
    {
      CloseNext(Scan(depth, inString, escapeNext), s, i);
      var c := s[i];
      if escapeNext {
        escapeNext := false;
      } else if c == '\\' && inString {
        escapeNext := true;
      } else if c == '"' {
        inString := !inString;
      } else if inString {
      } else if c == '{' {
        depth := depth + 1;
      } else if c == '}' {
        depth := depth - 1;
        if depth == 0 {
          return Some(i + 1);
        }
      }
    }
    return None;
  }

  method ExtractFirstJsonObject(text: string, isJson: string -> bool) returns (r: Option<string>)
    ensures r == Extract(text, isJson)
  {
    if text == [] {
      return None;
    }
    var s := Clean(text);
    var start := Find('{', s);
    if start.None? {
      return None;
    }
    var body := s[start.value..];
    var close := FindClose(body);
    CloseInRange(Scan(0, false, false), body);
    if close.Some? {
      return Some(body[..close.value]);
    }
    var end := FindLast('}', body);
    if end.Some? && end.value > 0 && isJson(body[..end.value + 1]) {
      return Some(body[..end.value + 1]);
    }
    return None;
  }

  // ----- The scanner reads every value without closing -----

  lemma {:induction false} ReadConcat(st: Scan, a: string, b: string)
    ensures Read(st, a + b) == if Read(st, a).None? then None else Read(Read(st, a).value, b)
    decreases |a|
  {
    if a == [] {
      assert a + b == b;
    } else {
      assert (a + b)[0] == a[0] && (a + b)[1..] == a[1..] + b;
      ReadConcat(Scanned(st, a[0]), a[1..], b);
    }
  }

  /** Reading `s` leaves the scanner in the state it was in. */
  predicate Neutral(st: Scan, s: string) {
    Read(st, s) == Some(st)
  }

  lemma NeutralConcat(st: Scan, a: string, b: string)
    requires Neutral(st, a) && Neutral(st, b)
    ensures Neutral(st, a + b)
  {
    ReadConcat(st, a, b);
  }

  predicate Inert(s: string) {
    forall i :: 0 <= i < |s| ==> s[i] !in "\"\\{}"
  }

  lemma {:induction false} InertIsNeutral(d: int, s: string)
    requires Inert(s)
    ensures Neutral(Scan(d, false, false), s)
  {
    if s != [] {
      InertIsNeutral(d, s[1..]);
    }
  }

  lemma CharIsNeutral(d: int, c: Char)
    requires ValidChar(c)
    ensures Neutral(Scan(d, true, false), PrintChar(c))
  {
    var st := Scan(d, true, false);
    match c
    case Plain(x) =>
      assert [x][1..] == [];
      assert Read(Scanned(st, x), []) == Some(st);
    case Short(x) =>
      assert ['\\', x][1..] == [x] && [x][1..] == [];
      assert Read(Scanned(Scanned(st, '\\'), x), []) == Some(st);
    case Unicode(digits) =>
      var s := PrintChar(c);
      assert s == ['\\', 'u'] + digits;
      assert ['\\', 'u'][1..] == ['u'] && ['u'][1..] == [];
      assert Read(Scanned(Scanned(st, '\\'), 'u'), []) == Some(st);
      InsideIsNeutral(d, digits);
      NeutralConcat(st, ['\\', 'u'], digits);
  }

  lemma {:induction false} InsideIsNeutral(d: int, s: string)
    requires forall i :: 0 <= i < |s| ==> s[i] !in "\"\\"
    ensures Neutral(Scan(d, true, false), s)
  {
    if s != [] {
      InsideIsNeutral(d, s[1..]);
    }
  }

  lemma {:induction false} CharsAreNeutral(d: int, cs: seq<Char>)
    requires ValidChars(cs)
    ensures Neutral(Scan(d, true, false), PrintChars(cs))
  {
    if cs != [] {
      CharIsNeutral(d, cs[0]);
      CharsAreNeutral(d, cs[1..]);
      NeutralConcat(Scan(d, true, false), PrintChar(cs[0]), PrintChars(cs[1..]));
    }
  }

  lemma QuotedIsNeutral(d: int, cs: seq<Char>)
    requires ValidChars(cs)
    ensures Neutral(Scan(d, false, false), Quoted(cs))
  {
    var st, inside := Scan(d, false, false), Scan(d, true, false);
    CharsAreNeutral(d, cs);
    assert Read(st, "\"") == Some(inside) by { assert "\""[1..] == []; }
    assert Read(inside, "\"") == Some(st) by { assert "\""[1..] == []; }
    ReadConcat(st, "\"", PrintChars(cs));
    ReadConcat(st, "\"" + PrintChars(cs), "\"");
  }

  lemma ArrayIsNeutral(d: int, blank: string, body: string)
    requires IsBlank(blank) && Neutral(Scan(d, false, false), body)
    ensures Neutral(Scan(d, false, false), "[" + (blank + body) + "]")
  {
    var st := Scan(d, false, false);
    InertIsNeutral(d, "[");
    InertIsNeutral(d, "]");
    InertIsNeutral(d, blank);
    NeutralConcat(st, blank, body);
    NeutralConcat(st, "[", blank + body);
    NeutralConcat(st, "[" + (blank + body), "]");
  }

  lemma ObjectIsNeutral(d: int, body: string)
    requires d >= 1 && Neutral(Scan(d + 1, false, false), body)
    ensures Neutral(Scan(d, false, false), "{" + body + "}")
  {
    var st, inner := Scan(d, false, false), Scan(d + 1, false, false);
    assert Read(st, "{") == Some(inner) by { assert "{"[1..] == []; }
    assert Read(inner, "}") == Some(st) by { assert "}"[1..] == []; }
    ReadConcat(st, "{", body);
    ReadConcat(st, "{" + body, "}");
  }

  lemma {:induction false} ValueIsNeutral(d: int, v: Json)
    requires d >= 1 && Valid(v)
    ensures Neutral(Scan(d, false, false), Print(v))
    decreases v, 2
  {
    match v
    case String(chars) => QuotedIsNeutral(d, chars);
    case Array(blank, items) =>
      ItemsAreNeutral(d, items);
      ArrayIsNeutral(d, blank, PrintItems(items));
    case Object(blank, members) =>
      BodyIsNeutral(d + 1, blank, members);
      ObjectIsNeutral(d, blank + PrintMembers(members));
    case _ => ScalarIsNeutral(d, v);
  }

  lemma ScalarIsNeutral(d: int, v: Json)
    requires Valid(v) && (v.Null? || v.True? || v.False? || v.Number?)
    ensures Neutral(Scan(d, false, false), Print(v))
  {
    if v.Number? {
      NumberIsInert(v.text);
    }
    InertIsNeutral(d, Print(v));
  }

  lemma NumberIsInert(s: string)
    requires IsNumber(s)
    ensures Inert(s)
  {
    forall i | 0 <= i < |s|
      ensures s[i] !in "\"\\{}"
    {
      NumberCharIsInert(s[i]);
    }
  }

  lemma NumberCharIsInert(c: char)
    requires c in "0123456789+-.eE" || c in "NaInfity"
    ensures c !in "\"\\{}"
  {
  }

  lemma {:induction false} BodyIsNeutral(d: int, blank: string, members: Members)
    requires d >= 1 && IsBlank(blank) && ValidMembers(members)
    ensures Neutral(Scan(d, false, false), blank + PrintMembers(members))
    decreases members, 1
  {
    InertIsNeutral(d, blank);
    MembersAreNeutral(d, members);
    NeutralConcat(Scan(d, false, false), blank, PrintMembers(members));
  }

  lemma {:induction false} ItemsAreNeutral(d: int, items: Items)
    requires d >= 1 && ValidItems(items)
    ensures Neutral(Scan(d, false, false), PrintItems(items))
    decreases items, 0
  {
    if items.Item? {
      ValueIsNeutral(d, items.value);
      SurroundedIsNeutral(d, items.before, Print(items.value), items.after, Comma(items.rest.Item?));
      ItemsAreNeutral(d, items.rest);
      NeutralConcat(Scan(d, false, false), items.before + Print(items.value) + items.after + Comma(items.rest.Item?),
                    PrintItems(items.rest));
    }
  }

  lemma SurroundedIsNeutral(d: int, before: string, text: string, after: string, end: string)
    requires IsBlank(before) && IsBlank(after) && Inert(end) && Neutral(Scan(d, false, false), text)
    ensures Neutral(Scan(d, false, false), before + text + after + end)
  {
    var st := Scan(d, false, false);
    InertIsNeutral(d, before);
    InertIsNeutral(d, after);
    InertIsNeutral(d, end);
    NeutralConcat(st, before, text);
    NeutralConcat(st, before + text, after);
    NeutralConcat(st, before + text + after, end);
  }

  lemma {:induction false} MembersAreNeutral(d: int, ms: Members)
    requires d >= 1 && ValidMembers(ms)
    ensures Neutral(Scan(d, false, false), PrintMembers(ms))
    decreases ms, 0
  {
    if ms.Member? {
      var st, comma := Scan(d, false, false), Comma(ms.rest.Member?);
      var name := ms.before + Quoted(ms.key) + ms.beforeColon + ":";
      var value := ms.afterColon + Print(ms.value) + ms.after + comma;
      QuotedIsNeutral(d, ms.key);
      SurroundedIsNeutral(d, ms.before, Quoted(ms.key), ms.beforeColon, ":");
      ValueIsNeutral(d, ms.value);
      SurroundedIsNeutral(d, ms.afterColon, Print(ms.value), ms.after, comma);
      MembersAreNeutral(d, ms.rest);
      NeutralConcat(st, name, value);
      NeutralConcat(st, name + value, PrintMembers(ms.rest));
    }
  }

  lemma {:induction false} CloseAfter(st: Scan, a: string, b: string)
    requires Read(st, a).Some?
    ensures Close(st, a + b) == Later(|a|, Close(Read(st, a).value, b))
    decreases |a|
  {
    if a == [] {
      assert a + b == b;
    } else {
      assert (a + b)[0] == a[0] && (a + b)[1..] == a[1..] + b;
      CloseAfter(Scanned(st, a[0]), a[1..], b);
    }
  }

  lemma ClosesAfterBody(body: string, suffix: string)
    requires Neutral(Scan(1, false, false), body)
    ensures Close(Scan(0, false, false), "{" + body + "}" + suffix) == Some(|body| + 2)
  {
    var st, inner := Scan(0, false, false), Scan(1, false, false);
    assert Read(st, "{") == Some(inner) by { assert "{"[1..] == []; }
    ReadConcat(st, "{", body);
    CloseAfter(st, "{" + body, "}" + suffix);
    assert Close(inner, "}" + suffix) == Some(1);
    assert "{" + body + "}" + suffix == ("{" + body) + ("}" + suffix);
  }

  /** The scanner stops exactly at the end of an object, whatever follows. */
  lemma ClosesAtEnd(v: Json, suffix: string)
    requires v.Object? && Valid(v)
    ensures Close(Scan(0, false, false), Print(v) + suffix) == Some(|Print(v)|)
  {
    BodyIsNeutral(1, v.blank, v.members);
    ClosesAfterBody(v.blank + PrintMembers(v.members), suffix);
  }

  // ----- Cleaning cuts off no brace -----

  predicate IsBrace(c: char) {
    c == '{' || c == '}'
  }

  /** `t` is the stretch of `s` from `n` on, and no brace was cut off around it. */
  predicate CutOf(s: string, t: string, n: nat) {
    && n + |t| <= |s| && s[n..n + |t|] == t
    && forall k :: 0 <= k < |s| && !(n <= k < n + |t|) ==> !IsBrace(s[k])
  }

  lemma CutOfCut(s: string, t: string, u: string, n: nat, m: nat)
    requires CutOf(s, t, n) && CutOf(t, u, m)
    ensures CutOf(s, u, n + m)
  {
    assert forall k :: 0 <= k < |t| ==> t[k] == s[n + k];
    assert forall k :: n <= k < n + |t| ==> s[k] == t[k - n];
    assert s[n + m..n + m + |u|] == t[m..m + |u|];
  }

  lemma StripIsCut(s: string) returns (n: nat)
    ensures CutOf(s, Strip(s), n)
  {
    n := StripCuts(s);
  }

  lemma LStripIsCut(s: string)
    ensures |LStrip(s)| <= |s| && CutOf(s, LStrip(s), |s| - |LStrip(s)|)
  {
    LStripPart(s);
  }

  lemma RStripIsCut(s: string)
    ensures CutOf(s, RStrip(s), 0)
  {
    RStripPart(s);
  }

  lemma DropIsCut(s: string, k: nat)
    requires k <= |s| && forall i :: 0 <= i < k ==> !IsBrace(s[i])
    ensures CutOf(s, s[k..], k)
  {
  }

  lemma FenceHasNoBrace(s: string)
    requires |s| >= 3 && s[..3] == "```"
    ensures forall i :: 0 <= i < (if OpensWithJson(s[3..]) then 7 else 3) ==> !IsBrace(s[i])
  {
    var head, tail := s[..3], s[3..];
    assert s[0] == head[0] && s[1] == head[1] && s[2] == head[2];
    if OpensWithJson(tail) {
      assert s[3] == tail[0] && s[4] == tail[1] && s[5] == tail[2] && s[6] == tail[3];
    }
  }

  lemma OpeningIsCut(s: string) returns (n: nat)
    ensures CutOf(s, DropOpeningFence(s), n)
  {
    n := 0;
    if |s| >= 3 && s[..3] == "```" {
      var k := if OpensWithJson(s[3..]) then 7 else 3;
      FenceHasNoBrace(s);
      DropIsCut(s, k);
      LStripIsCut(s[k..]);
      n := k + (|s[k..]| - |LStrip(s[k..])|);
      CutOfCut(s, s[k..], LStrip(s[k..]), k, n - k);
    }
  }

  lemma ClosingIsCut(s: string)
    ensures CutOf(s, DropClosingFence(s), 0)
  {
    if |s| >= 3 && s[|s| - 3..] == "```" {
      var k := |s| - 3;
      assert forall i :: k <= i < |s| ==> s[i] == s[k..][i - k];
      RStripIsCut(s[..k]);
      CutOfCut(s, s[..k], RStrip(s[..k]), 0, 0);
    }
  }

  /** Stripping and the fences take no brace away. */
  lemma CleanCutsNoBrace(text: string) returns (n: nat)
    ensures CutOf(text, Clean(text), n)
  {
    var a := Strip(text);
    var b := DropOpeningFence(a);
    var c := DropClosingFence(b);
    var i := StripIsCut(text);
    var j := OpeningIsCut(a);
    ClosingIsCut(b);
    var k := StripIsCut(c);
    FourCuts(text, a, b, c, Strip(c), i, j, k);
    n := i + j + k;
  }

  lemma FourCuts(s: string, a: string, b: string, c: string, d: string, i: nat, j: nat, k: nat)
    requires CutOf(s, a, i) && CutOf(a, b, j) && CutOf(b, c, 0) && CutOf(c, d, k)
    ensures CutOf(s, d, i + j + k)
  {
    CutOfCut(s, a, b, i, j);
    CutOfCut(s, b, c, i + j, 0);
    CutOfCut(s, c, d, i + j, k);
  }

  lemma {:induction false} FindBehind(c: char, p: string, u: string)
    requires c !in p
    ensures Find(c, p + u) == Later(|p|, Find(c, u))
  {
    if p == [] {
      assert p + u == u;
    } else {
      assert (p + u)[0] == p[0] && (p + u)[1..] == p[1..] + u;
      FindBehind(c, p[1..], u);
    }
  }

  lemma {:induction false} FindBefore(c: char, u: string, q: string)
    requires c !in q
    ensures Find(c, u + q) == Find(c, u)
  {
    if u == [] {
      assert u + q == q;
    } else {
      assert (u + q)[0] == u[0] && (u + q)[1..] == u[1..] + q;
      FindBefore(c, u[1..], q);
    }
  }

  lemma CutParts(s: string, t: string, n: nat)
    requires CutOf(s, t, n)
    ensures s == s[..n] + (t + s[n + |t|..]) && '{' !in s[..n] && '{' !in s[n + |t|..]
  {
  }

  /** The first brace of the cleaned text is the first brace of the text. */
  lemma {:induction false} FirstBrace(s: string, t: string, n: nat)
    requires CutOf(s, t, n)
    ensures Find('{', s) == Later(n, Find('{', t))
  {
    var p, q := s[..n], s[n + |t|..];
    CutParts(s, t, n);
    FindBehind('{', p, t + q);
    FindBefore('{', t, q);
  }

  // ----- Where the result stands -----

  /** The result is the stretch of the text that starts at `pos`, and `pos` is the text's first brace. */
  predicate ExtractedAt(text: string, isJson: string -> bool, pos: nat, r: string) {
    && Extract(text, isJson) == Some(r)
    && Find('{', text) == Some(pos) && pos + |r| <= |text| && text[pos..pos + |r|] == r
  }

  lemma ObjectIsPrefix(s: string, isJson: string -> bool)
    requires Object(s, isJson).Some?
    ensures Object(s, isJson).value <= s
  {
    CloseInRange(Scan(0, false, false), s);
  }

  lemma {:induction false} PrefixOfCut(s: string, t: string, n: nat, pos: nat, r: string)
    requires CutOf(s, t, n) && n <= pos <= n + |t| && r <= t[pos - n..]
    ensures pos + |r| <= |s| && s[pos..pos + |r|] == r
  {
    forall k | 0 <= k < |r|
      ensures s[pos + k] == r[k]
    {
      assert t[pos - n..][k] == t[pos - n + k] && s[n..n + |t|][pos - n + k] == s[pos + k];
    }
  }

  lemma {:induction false} FoundIsPrefix(s: string, isJson: string -> bool, r: string) returns (i: nat)
    requires Found(s, isJson) == Some(r)
    ensures i < |s| && Find('{', s) == Some(i) && r <= s[i..]
  {
    i := Find('{', s).value;
    ObjectIsPrefix(s[i..], isJson);
  }

  lemma {:induction false} FoundInCut(text: string, s: string, n: nat, i: nat, r: string) returns (pos: nat)
    requires CutOf(text, s, n) && Find('{', s) == Some(i) && i < |s| && r <= s[i..]
    ensures Find('{', text) == Some(pos) && pos + |r| <= |text| && text[pos..pos + |r|] == r
  {
    pos := BraceInCut(text, s, n, i);
    PrefixOfCut(text, s, n, pos, r);
  }

  lemma {:induction false} BraceInCut(text: string, s: string, n: nat, i: nat) returns (pos: nat)
    requires CutOf(text, s, n) && Find('{', s) == Some(i)
    ensures Find('{', text) == Some(pos) && pos == n + i
  {
    FirstBrace(text, s, n);
    pos := n + i;
  }

  /** Every result stands at the first brace of the text. */
  lemma {:induction false} ExtractedAtFirstBrace(text: string, isJson: string -> bool) returns (pos: nat)
    requires Extract(text, isJson).Some?
    ensures ExtractedAt(text, isJson, pos, Extract(text, isJson).value)
  {
    pos := ExtractStands(text, isJson, Extract(text, isJson).value);
  }

  lemma {:induction false} ExtractStands(text: string, isJson: string -> bool, r: string) returns (pos: nat)
    requires Extract(text, isJson) == Some(r)
    ensures Find('{', text) == Some(pos) && pos + |r| <= |text| && text[pos..pos + |r|] == r
  {
    var s, n, i := ExtractIsPrefix(text, isJson, r);
    pos := FoundInCut(text, s, n, i, r);
  }

  /** The result begins at the first brace of what is left of the text. */
  lemma ExtractIsPrefix(text: string, isJson: string -> bool, r: string) returns (s: string, n: nat, i: nat)
    requires Extract(text, isJson) == Some(r)
    ensures CutOf(text, s, n) && Find('{', s) == Some(i) && i < |s| && r <= s[i..]
  {
    s := Clean(text);
    n := CleanCutsNoBrace(text);
    i := FoundIsPrefix(s, isJson, r);
  }

  /** What is cut out around a braced stretch holds it whole. */
  lemma CutAround(prefix: string, w: string, suffix: string, s: string, n: nat) returns (t: string)
    requires |w| > 1 && w[0] == '{' && w[|w| - 1] == '}' && CutOf(prefix + w + suffix, s, n)
    ensures n <= |prefix| && |prefix| - n <= |s| && s[|prefix| - n..] == w + t
  {
    var text, end := prefix + w + suffix, |prefix| + |w|;
    assert text[|prefix|] == w[0] && text[end - 1] == w[|w| - 1];
    t := text[end..n + |s|];
    assert s[|prefix| - n..] == text[|prefix|..n + |s|];
    assert text[|prefix|..end] == w;
  }

  lemma FirstBraceIsAt(prefix: string, w: string, suffix: string)
    requires '{' !in prefix && w != [] && w[0] == '{'
    ensures Find('{', prefix + w + suffix) == Some(|prefix|)
  {
    FindBehind('{', prefix, w + suffix);
    assert prefix + w + suffix == prefix + (w + suffix);
  }

  /** What the scanner starts on: the rest of the text from its first brace, up to where it was cut. */
  lemma ScannedText(prefix: string, w: string, suffix: string, s: string, n: nat) returns (i: nat, t: string)
    requires '{' !in prefix && |w| > 1 && w[0] == '{' && w[|w| - 1] == '}' && CutOf(prefix + w + suffix, s, n)
    ensures Find('{', prefix + w + suffix) == Some(|prefix|) && Find('{', s) == Some(i) && s[i..] == w + t
  {
    FirstBraceIsAt(prefix, w, suffix);
    FirstBrace(prefix + w + suffix, s, n);
    t := CutAround(prefix, w, suffix, s, n);
    i := |prefix| - n;
  }

  lemma PrintedObjectIsBraced(v: Json)
    requires v.Object?
    ensures |Print(v)| > 1 && Print(v)[0] == '{' && Print(v)[|Print(v)| - 1] == '}'
  {
  }

  /** Scanner and printer agree: an object is found whole behind any brace-free text, whatever follows. */
  lemma ExtractFindsObject(prefix: string, v: Json, suffix: string, isJson: string -> bool)
    requires v.Object? && Valid(v) && '{' !in prefix
    ensures Extract(prefix + Print(v) + suffix, isJson) == Some(Print(v))
    ensures Find('{', prefix + Print(v) + suffix) == Some(|prefix|)
  {
    PrintedObjectIsBraced(v);
    var text := prefix + Print(v) + suffix;
    var n := CleanCutsNoBrace(text);
    var i, t := ScannedText(prefix, Print(v), suffix, Clean(text), n);
    ClosesAtEnd(v, t);
  }

  /** An object in a text is what comes out exactly if no brace stands before it. */
  lemma ExtractFindsObjectIff(prefix: string, v: Json, suffix: string, isJson: string -> bool)
    requires v.Object? && Valid(v)
    ensures ExtractedAt(prefix + Print(v) + suffix, isJson, |prefix|, Print(v)) <==> '{' !in prefix
  {
    var text := prefix + Print(v) + suffix;
    assert text[..|prefix|] == prefix;
    if '{' !in prefix {
      ExtractFindsObject(prefix, v, suffix, isJson);
      assert text[|prefix|..|prefix| + |Print(v)|] == Print(v);
    }
  }

  /** Whatever is returned is a braced stretch of the reply that the scanner balanced or the parser accepted. */
  lemma ExtractedIsBraced(text: string, isJson: string -> bool)
    ensures var r := Extract(text, isJson);
            r.Some? ==> r.value != [] && r.value[0] == '{' && r.value[|r.value| - 1] == '}' &&
                        (Close(Scan(0, false, false), r.value) == Some(|r.value|) || isJson(r.value))
    ensures '{' !in Clean(text) ==> Extract(text, isJson) == None
  {
    var s := Clean(text);
    var start := Find('{', s);
    if start.Some? {
      var body := s[start.value..];
      CloseInRange(Scan(0, false, false), body);
      var close := Close(Scan(0, false, false), body);
      if close.Some? {
        CloseOfPrefix(Scan(0, false, false), body);
      }
    }
  }

  lemma {:induction false} CloseOfPrefix(st: Scan, s: string)
    requires Close(st, s).Some?
    ensures Close(st, s).value <= |s| && Close(st, s[..Close(st, s).value]) == Close(st, s)
    decreases |s|
  {
    CloseInRange(st, s);
    var n := Close(st, s).value;
    if !Closes(st, s[0]) {
      CloseOfPrefix(Scanned(st, s[0]), s[1..]);
      assert s[..n][0] == s[0] && s[..n][1..] == s[1..][..n - 1];
    }
  }
}
