/** VideoProcessor._parse_vtt against documents in the layout of W3C WebVTT section 4.1. Times are milliseconds. */
module WebVtt {
  import opened Common
  import opened Text

  datatype CueText = CueText(start: nat, end: nat, text: string)

  datatype Times = Times(start: nat, end: nat)

  // ----- Lines -----

  /** What str.splitlines splits at; "\r\n" counts once. */
  predicate IsBreak(c: char) {
    '\n' <= c <= '\r' || '\U{001c}' <= c <= '\U{001e}' || c == '\U{0085}' || c == '\U{2028}' || c == '\U{2029}'
  }

  function LineLength(s: string): (n: nat)
    ensures n <= |s|
  {
    if s == [] || IsBreak(s[0]) then 0 else 1 + LineLength(s[1..])
  }

  function SplitLines(s: string): seq<string>
    decreases |s|
  {
    var n := LineLength(s);
    if s == [] then []
    else if n == |s| then [s]
    else [s[..n]] + SplitLines(s[n + (if s[n] == '\r' && n + 1 < |s| && s[n + 1] == '\n' then 2 else 1)..])
  }

  // ----- Timing lines -----

  function Value(c: char): nat
    requires IsDigit(c)
  {
    c as int - '0' as int
  }

  /** \d{2}:\d{2}\.\d{3} at the start of `s` */
  predicate IsShort(s: string) {
    && |s| >= 9
    && IsDigit(s[0]) && IsDigit(s[1]) && s[2] == ':' && IsDigit(s[3]) && IsDigit(s[4]) && s[5] == '.'
    && IsDigit(s[6]) && IsDigit(s[7]) && IsDigit(s[8])
  }

  function ShortValue(s: string): nat
    requires IsShort(s)
  {
    (10 * Value(s[0]) + Value(s[1])) * 60000 + (10 * Value(s[3]) + Value(s[4])) * 1000
    + 100 * Value(s[6]) + 10 * Value(s[7]) + Value(s[8])
  }

  predicate IsLong(s: string) {
    |s| >= 12 && IsDigit(s[0]) && IsDigit(s[1]) && s[2] == ':' && IsShort(s[3..])
  }

  datatype Stamp = Stamp(value: nat, length: nat)

  /** One timestamp at the start of `s`, the hours tried first. */
  function ReadStamp(s: string): (r: Option<Stamp>)
    ensures r.Some? ==> r.value.length <= |s|
  {
    if IsLong(s) then Some(Stamp((10 * Value(s[0]) + Value(s[1])) * 3600000 + ShortValue(s[3..]), 12))
    else if IsShort(s) then Some(Stamp(ShortValue(s), 9))
    else None
  }

  /** The time pattern at the start of `s`. */
  function MatchTiming(s: string): Option<Times> {
    var start := ReadStamp(s);
    if start.None? then None
    else
      var tail := AfterArrow(s[start.value.length..]);
      var end := if tail.Some? then ReadStamp(tail.value) else None;
      if end.None? then None else Some(Times(start.value.value, end.value.value))
  }

  /** What follows \s-->\s at the start of `s`. */
  function AfterArrow(s: string): Option<string> {
    if |s| < 5 || !IsSpace(s[0]) || s[1..4] != "-->" || !IsSpace(s[4]) then None else Some(s[5..])
  }

  /** time_pattern.search: the leftmost match. */
  function SearchTiming(s: string): Option<Times> {
    var here := MatchTiming(s);
    if here.Some? || s == [] then here else SearchTiming(s[1..])
  }

  // ----- Tags -----

  function Position(c: char, s: string): (r: Option<nat>)
    ensures r.Some? ==> r.value < |s|
  {
    if s == [] then None
    else if s[0] == c then Some(0)
    else
      var r := Position(c, s[1..]);
      if r.Some? then Some(1 + r.value) else None
  }

  /** re.sub(r"<[^>]+>", "", s) */
  function StripTags(s: string): string
    decreases |s|
  {
    if s == [] then []
    else
      var close := Position('>', s[1..]);
      if s[0] == '<' && close.Some? && close.value > 0 then StripTags(s[close.value + 2..])
      else [s[0]] + StripTags(s[1..])
  }

  // ----- The cue loop -----

  datatype State = State(cue: Option<Times>, text: seq<string>, segments: seq<CueText>)

  /** The segments once the cue being read is finished. */
  function Finished(st: State): seq<CueText> {
    if st.cue.Some? && st.text != []
    then st.segments + [CueText(st.cue.value.start, st.cue.value.end, Join(" ", st.text))]
    else st.segments
  }

  function Cleaned(line: string): Option<string> {
    if StripTags(Strip(line)) == [] then None else Some(StripTags(Strip(line)))
  }

  function ReadLine(st: State, raw: string): State {
    var line := Strip(raw);
    var times := SearchTiming(line);
    if line == [] then State(None, [], Finished(st))
    else if times.Some? then st.(cue := times)
    else if st.cue.Some? then st.(text := st.text + ToSeq(Cleaned(raw)))
    else st
  }

  function ReadLines(st: State, lines: seq<string>): State {
    if lines == [] then st else ReadLine(ReadLines(st, lines[..|lines| - 1]), lines[|lines| - 1])
  }

  const NOTHING_READ := State(None, [], [])

  predicate IsHeader(line: string) {
    "WEBVTT" <= Strip(line)
  }

  function Parse(content: string): seq<CueText> {
    var lines := SplitLines(content);
    Finished(ReadLines(NOTHING_READ, if lines != [] && IsHeader(lines[0]) then lines[1..] else lines))
  }

  method ParseVtt(content: string) returns (segments: seq<CueText>)
    ensures segments == Parse(content)
  {
    var lines := SplitLines(content);
    if lines != [] && IsHeader(lines[0]) {
      lines := lines[1..];
    }
    segments := [];
    var current: Option<Times>, currentText: seq<string> := None, [];
    for i := 0 to |lines|
      invariant ReadLines(NOTHING_READ, lines[..i]) == State(current, currentText, segments)
    {
      assert lines[..i + 1][..i] == lines[..i];
      current, currentText, segments := ParseLine(lines[i], current, currentText, segments);
    }
    assert lines[..|lines|] == lines;
    if current.Some? && currentText != [] {
      segments := segments + [CueText(current.value.start, current.value.end, Join(" ", currentText))];
    }
  }

  /** The body of the line loop. */
  method ParseLine(raw: string, current: Option<Times>, currentText: seq<string>, segments: seq<CueText>)
    returns (current': Option<Times>, currentText': seq<string>, segments': seq<CueText>)
    ensures State(current', currentText', segments') == ReadLine(State(current, currentText, segments), raw)
  {
    current', currentText', segments' := current, currentText, segments;
    var line := Strip(raw);
    if line == [] {
      if current.Some? && currentText != [] {
        segments' := segments + [CueText(current.value.start, current.value.end, Join(" ", currentText))];
      }
      current', currentText' := None, [];
      return;
    }
    var times := SearchTiming(line);
    if times.Some? {
      current' := times;
      return;
    }
    if current.Some? {
      var clean := StripTags(line);
      if clean != [] {
        currentText' := currentText + [clean];
      }
    }
  }

  // ----- Documents -----

  /** A timestamp as written; `hours` may be left out. */
  datatype Clock = Clock(hours: Option<nat>, minutes: nat, seconds: nat, millis: nat) {
    predicate Valid() {
      (hours.Some? ==> hours.value < 100) && minutes < 100 && seconds < 100 && millis < 1000
    }

    function Value(): nat {
      (if hours.Some? then hours.value else 0) * 3600000 + minutes * 60000 + seconds * 1000 + millis
    }
  }

  /** A cue with an optional identifier and settings, or a block the parser must pass over. */
  datatype Block =
    | Note(lines: seq<string>)
    | Cue(id: Option<string>, start: Clock, end: Clock, settings: string, text: seq<string>)

  /** A block and the blank lines after it. */
  datatype Part = Part(block: Block, gap: seq<string>)

  function Two(n: nat): string
    requires n < 100
  {
    [Digit(n / 10), Digit(n % 10)]
  }

  function PrintShort(c: Clock): string
    requires c.Valid()
  {
    Two(c.minutes) + ":" + Two(c.seconds) + "." + [Digit(c.millis / 100)] + Two(c.millis % 100)
  }

  function PrintClock(c: Clock): string
    requires c.Valid()
  {
    (if c.hours.Some? then Two(c.hours.value) + ":" else "") + PrintShort(c)
  }

  function TimingLine(b: Block): string
    requires b.Cue? && b.start.Valid() && b.end.Valid()
  {
    PrintClock(b.start) + " --> " + PrintClock(b.end) + b.settings
  }

  /** No timing pattern, so the line is text, an identifier or a remark. */
  predicate Quiet(line: string) {
    SearchTiming(Strip(line)).None?
  }

  predicate AllQuiet(lines: seq<string>) {
    forall i :: 0 <= i < |lines| ==> Quiet(lines[i])
  }

  predicate NoneBlank(lines: seq<string>) {
    forall i :: 0 <= i < |lines| ==> Strip(lines[i]) != []
  }

  predicate AllBlank(lines: seq<string>) {
    forall i :: 0 <= i < |lines| ==> Strip(lines[i]) == []
  }

  predicate ValidBlock(b: Block) {
    match b
    case Note(lines) => AllQuiet(lines)
    case Cue(id, start, end, settings, text) =>
      AllQuiet(ToSeq(id)) && start.Valid() && end.Valid() && AllQuiet(text) && NoneBlank(text)
  }

  function BlockLines(b: Block): seq<string>
    requires ValidBlock(b)
  {
    match b
    case Note(lines) => lines
    case Cue(id, _, _, _, text) => ToSeq(id) + [TimingLine(b)] + text
  }

  /** Blocks are set apart by blank lines; after the last one they may be missing. */
  predicate ValidParts(parts: seq<Part>) {
    forall i :: 0 <= i < |parts| ==>
      ValidBlock(parts[i].block) && AllBlank(parts[i].gap) && (i < |parts| - 1 ==> parts[i].gap != [])
  }

  function PartLines(parts: seq<Part>): seq<string>
    requires ValidParts(parts)
  {
    if parts == [] then []
    else
      var last := parts[|parts| - 1];
      PartLines(parts[..|parts| - 1]) + (BlockLines(last.block) + last.gap)
  }

  /** What the parser should make of a block: its times and its cleaned lines, if any line has text. */
  function Expected(p: Part): Option<CueText> {
    if p.block.Note? || Collect(Cleaned, p.block.text) == [] then None
    else Some(CueText(p.block.start.Value(), p.block.end.Value(), Join(" ", Collect(Cleaned, p.block.text))))
  }

  predicate BreakFree(s: string) {
    forall i :: 0 <= i < |s| ==> !IsBreak(s[i])
  }

  predicate AllBreakFree(lines: seq<string>) {
    forall i :: 0 <= i < |lines| ==> BreakFree(lines[i])
  }

  /** The lines as a file, with or without a line end after the last. */
  function FileText(lines: seq<string>, eol: string, final: bool): string {
    if lines == [] then ""
    else if |lines| == 1 && !final then lines[0]
    else lines[0] + (eol + FileText(lines[1..], eol, final))
  }

  // ----- Splitting undoes the file layout -----

  lemma {:induction false} LineLengthIs(line: string, rest: string)
    requires BreakFree(line) && (rest != [] ==> IsBreak(rest[0]))
    ensures LineLength(line + rest) == |line|
  {
    if line == [] {
      assert line + rest == rest;
    } else {
      assert (line + rest)[0] == line[0] && (line + rest)[1..] == line[1..] + rest;
      LineLengthIs(line[1..], rest);
    }
  }

  lemma SplitFirst(line: string, eol: string, rest: string)
    requires BreakFree(line) && (eol == "\n" || eol == "\r\n" || eol == "\r")
    requires eol == "\r" && rest != [] ==> rest[0] != '\n'
    ensures SplitLines(line + (eol + rest)) == [line] + SplitLines(rest)
  {
    var s := line + (eol + rest);
    LineLengthIs(line, eol + rest);
    assert s[|line|] == eol[0] && s[..|line|] == line;
    assert |line| + 1 < |s| ==> s[|line| + 1] == (eol + rest)[1];
    assert s[|line| + |eol|..] == rest;
  }

  lemma SplitLast(line: string)
    requires BreakFree(line) && line != []
    ensures SplitLines(line) == [line]
  {
    LineLengthIs(line, []);
    assert line + [] == line;
  }

  lemma NoLineFeedFirst(lines: seq<string>, eol: string, final: bool)
    requires AllBreakFree(lines) && (eol == "\n" || eol == "\r\n" || eol == "\r")
    ensures var text := FileText(lines, eol, final); eol == "\r" && text != [] ==> text[0] != '\n'
  {
    if lines != [] && lines[0] != [] {
      assert !IsBreak(lines[0][0]);
    }
  }

  lemma {:induction false} SplitUndoesLayout(lines: seq<string>, eol: string, final: bool)
    requires AllBreakFree(lines)
    requires eol == "\n" || eol == "\r\n" || eol == "\r"
    requires lines != [] && !final ==> lines[|lines| - 1] != []
    ensures SplitLines(FileText(lines, eol, final)) == lines
  {
    if lines == [] {
    } else if |lines| == 1 && !final {
      SplitLast(lines[0]);
    } else {
      SplitUndoesLayout(lines[1..], eol, final);
      LayoutNext(lines[0], lines[1..], eol, final);
      assert [lines[0]] + lines[1..] == lines;
    }
  }

  lemma LayoutNext(first: string, rest: seq<string>, eol: string, final: bool)
    requires BreakFree(first) && AllBreakFree(rest) && (rest != [] || final)
    requires eol == "\n" || eol == "\r\n" || eol == "\r"
    requires SplitLines(FileText(rest, eol, final)) == rest
    ensures SplitLines(FileText([first] + rest, eol, final)) == [first] + rest
  {
    NoLineFeedFirst(rest, eol, final);
    SplitFirst(first, eol, FileText(rest, eol, final));
    assert ([first] + rest)[1..] == rest;
  }

  // ----- Reading a timing line -----

  lemma ReadPrinted(c: Clock, rest: string)
    requires c.Valid()
    ensures ReadStamp(PrintClock(c) + rest) == Some(Stamp(c.Value(), |PrintClock(c)|))
  {
    var s := PrintClock(c) + rest;
    ShortPrinted(c, rest);
    if c.hours.Some? {
      assert s[3..] == PrintShort(c) + rest;
      assert s[0] == Digit(c.hours.value / 10) && s[1] == Digit(c.hours.value % 10) && s[2] == ':';
    } else {
      assert s == PrintShort(c) + rest;
      assert !IsLong(s) by { assert s[5] == '.'; }
    }
  }

  lemma ShortPrinted(c: Clock, rest: string)
    requires c.Valid()
    ensures var s := PrintShort(c) + rest;
            |PrintShort(c)| == 9 && IsShort(s) && ShortValue(s) == c.minutes * 60000 + c.seconds * 1000 + c.millis
  {
    var s := PrintShort(c) + rest;
    assert s[0] == Digit(c.minutes / 10) && s[1] == Digit(c.minutes % 10);
    assert s[3] == Digit(c.seconds / 10) && s[4] == Digit(c.seconds % 10);
    assert s[6] == Digit(c.millis / 100) && s[7] == Digit(c.millis % 100 / 10) && s[8] == Digit(c.millis % 100 % 10);
  }

  lemma TimingLineMatches(b: Block, rest: string)
    requires b.Cue? && b.start.Valid() && b.end.Valid()
    ensures SearchTiming(PrintClock(b.start) + " --> " + PrintClock(b.end) + rest) ==
              Some(Times(b.start.Value(), b.end.Value()))
  {
    var tail := PrintClock(b.end) + rest;
    ReadPrinted(b.start, " --> " + tail);
    ReadPrinted(b.end, rest);
    var start := PrintClock(b.start);
    AfterArrowIs(tail);
    assert (start + (" --> " + tail))[|start|..] == " --> " + tail;
    MatchIs(start + (" --> " + tail), Stamp(b.start.Value(), |start|), tail, Stamp(b.end.Value(), |PrintClock(b.end)|));
    Regroup(PrintClock(b.start), PrintClock(b.end), rest);
  }

  lemma Regroup(start: string, end: string, rest: string)
    ensures start + (" --> " + (end + rest)) == start + " --> " + end + rest
  {
  }

  lemma MatchIs(s: string, start: Stamp, tail: string, end: Stamp)
    requires ReadStamp(s) == Some(start) && start.length <= |s| && AfterArrow(s[start.length..]) == Some(tail)
             && ReadStamp(tail) == Some(end)
    ensures SearchTiming(s) == Some(Times(start.value, end.value))
  {
  }

  lemma AfterArrowIs(tail: string)
    ensures AfterArrow(" --> " + tail) == Some(tail)
  {
    var s := " --> " + tail;
    assert s[1..4] == "-->" && s[5..] == tail;
  }

  lemma TimingLineIsFound(b: Block)
    requires b.Cue? && b.start.Valid() && b.end.Valid()
    ensures SearchTiming(Strip(TimingLine(b))) == Some(Times(b.start.Value(), b.end.Value()))
    ensures Strip(TimingLine(b)) != []
  {
    var times := PrintClock(b.start) + " --> " + PrintClock(b.end);
    ShortPrinted(b.end, "");
    ShortPrinted(b.start, "");
    assert PrintShort(b.end) + "" == PrintShort(b.end) && PrintShort(b.start) + "" == PrintShort(b.start);
    assert times[|times| - 1] == PrintShort(b.end)[8];
    assert IsDigit(times[0]);
    assert LStrip(TimingLine(b)) == TimingLine(b);
    RStripAfter(times, b.settings);
    TimingLineMatches(b, RStrip(b.settings));
  }

  /** Only a line with an arrow can be taken for a timing line. */
  lemma {:induction false} TimingHasArrow(s: string)
    requires SearchTiming(s).Some?
    ensures exists i :: At(s, "-->", i)
  {
    if MatchTiming(s).Some? {
      var n := ReadStamp(s).value.length;
      assert s[n..][1..4] == s[n + 1..n + 4];
      assert At(s, "-->", n + 1);
    } else {
      TimingHasArrow(s[1..]);
      var i :| At(s[1..], "-->", i);
      assert s[1..][i..i + 3] == s[i + 1..i + 4];
      assert At(s, "-->", i + 1);
    }
  }

  lemma ArrowFreeIsQuiet(line: string)
    requires forall i :: !At(line, "-->", i)
    ensures Quiet(line)
  {
    if SearchTiming(Strip(line)).Some? {
      TimingHasArrow(Strip(line));
      var i :| At(Strip(line), "-->", i);
      var j := ArrowBeforeStrip(line, i);
    }
  }

  lemma ArrowBeforeStrip(line: string, i: nat) returns (j: nat)
    requires At(Strip(line), "-->", i)
    ensures At(line, "-->", j)
  {
    var at := StripCuts(line);
    CutAgain(line, at, |Strip(line)|, i);
    j := at + i;
  }

  lemma CutAgain(s: string, at: nat, n: nat, i: nat)
    requires at + n <= |s| && i + 3 <= n && At(s[at..at + n], "-->", i)
    ensures At(s, "-->", at + i)
  {
    var t, j := s[at..at + n], at + i;
    assert t[i] == s[j] && t[i + 1] == s[j + 1] && t[i + 2] == s[j + 2];
    assert s[j..j + 3] == t[i..i + 3];
  }

  // ----- Running over a document -----

  lemma {:induction false} RunConcat(st: State, a: seq<string>, b: seq<string>)
    ensures ReadLines(st, a + b) == ReadLines(ReadLines(st, a), b)
  {
    if b == [] {
      assert a + b == a;
    } else {
      assert (a + b)[..|a + b| - 1] == a + b[..|b| - 1];
      RunConcat(st, a, b[..|b| - 1]);
    }
  }

  lemma {:induction false} RunQuiet(st: State, lines: seq<string>)
    requires AllQuiet(lines) && st.cue.None? && st.text == []
    ensures ReadLines(st, lines) == st
  {
    if lines != [] {
      RunQuiet(st, lines[..|lines| - 1]);
    }
  }

  lemma {:induction false} RunText(st: State, lines: seq<string>)
    requires AllQuiet(lines) && NoneBlank(lines) && st.cue.Some?
    ensures ReadLines(st, lines) == st.(text := st.text + Collect(Cleaned, lines))
  {
    if lines != [] {
      RunText(st, lines[..|lines| - 1]);
    }
  }

  lemma {:induction false} RunGap(st: State, gap: seq<string>)
    requires AllBlank(gap)
    ensures ReadLines(st, gap) == if gap == [] then st else State(None, [], Finished(st))
  {
    if gap != [] {
      RunGap(st, gap[..|gap| - 1]);
    }
  }

  lemma RunCue(st: State, b: Block)
    requires ValidBlock(b) && b.Cue? && st.cue.None? && st.text == []
    ensures ReadLines(st, BlockLines(b)) ==
              State(Some(Times(b.start.Value(), b.end.Value())), Collect(Cleaned, b.text), st.segments)
  {
    var id, timing := ToSeq(b.id), [TimingLine(b)];
    RunQuiet(st, id);
    TimingLineIsFound(b);
    var timed := st.(cue := Some(Times(b.start.Value(), b.end.Value())));
    assert ReadLines(st, timing) == timed by { assert timing[..0] == []; }
    RunConcat(st, id, timing);
    RunText(timed, b.text);
    RunConcat(st, id + timing, b.text);
  }

  lemma RunPart(st: State, p: Part)
    requires ValidBlock(p.block) && AllBlank(p.gap) && st.cue.None? && st.text == []
    ensures var end := ReadLines(st, BlockLines(p.block) + p.gap);
            && Finished(end) == st.segments + ToSeq(Expected(p))
            && (p.gap != [] ==> end == State(None, [], st.segments + ToSeq(Expected(p))))
  {
    RunConcat(st, BlockLines(p.block), p.gap);
    RunGap(ReadLines(st, BlockLines(p.block)), p.gap);
    if p.block.Note? {
      RunQuiet(st, p.block.lines);
    } else {
      RunCue(st, p.block);
    }
  }

  lemma {:induction false} RunParts(parts: seq<Part>)
    requires ValidParts(parts)
    ensures Finished(ReadLines(NOTHING_READ, PartLines(parts))) == Collect(Expected, parts)
    ensures parts != [] && parts[|parts| - 1].gap != [] ==>
              ReadLines(NOTHING_READ, PartLines(parts)) == State(None, [], Collect(Expected, parts))
  {
    if parts != [] {
      var before, last := parts[..|parts| - 1], parts[|parts| - 1];
      RunParts(before);
      var st := ReadLines(NOTHING_READ, PartLines(before));
      assert before != [] ==> before[|before| - 1].gap != [];
      RunConcat(NOTHING_READ, PartLines(before), BlockLines(last.block) + last.gap);
      RunPart(st, last);
    }
  }

  /** Parsing a printed document gives every cue that has text, with its times and its cleaned lines, in order;
    * headers, identifiers, settings and notes leave no trace, and the end of the file needs no blank line. */
  lemma ParseUndoesPrint(header: seq<string>, parts: seq<Part>, eol: string, final: bool)
    requires header != [] && IsHeader(header[0]) && AllQuiet(header[1..]) && ValidParts(parts)
    requires eol == "\n" || eol == "\r\n" || eol == "\r"
    requires var lines := header + PartLines(parts);
             AllBreakFree(lines) && (!final ==> lines[|lines| - 1] != [])
    ensures Parse(FileText(header + PartLines(parts), eol, final)) == Collect(Expected, parts)
  {
    var lines := header + PartLines(parts);
    SplitUndoesLayout(lines, eol, final);
    BodyOf(header, PartLines(parts));
    RunBody(header[1..], parts);
  }

  lemma BodyOf(header: seq<string>, rest: seq<string>)
    requires header != []
    ensures (header + rest)[0] == header[0] && (header + rest)[1..] == header[1..] + rest
  {
  }

  lemma RunBody(remarks: seq<string>, parts: seq<Part>)
    requires AllQuiet(remarks) && ValidParts(parts)
    ensures Finished(ReadLines(NOTHING_READ, remarks + PartLines(parts))) == Collect(Expected, parts)
  {
    RunQuiet(NOTHING_READ, remarks);
    RunConcat(NOTHING_READ, remarks, PartLines(parts));
    RunParts(parts);
  }

  // ----- Plain cues -----

  lemma {:induction false} NoTags(s: string)
    requires '<' !in s
    ensures StripTags(s) == s
  {
    if s != [] {
      NoTags(s[1..]);
    }
  }

  /** A cue of plain lines comes back as its stripped lines, joined. */
  lemma {:induction false} PlainLines(lines: seq<string>)
    requires NoneBlank(lines) && forall i :: 0 <= i < |lines| ==> '<' !in lines[i]
    ensures Collect(Cleaned, lines) == Map(Strip, lines)
  {
    if lines != [] {
      var last := lines[|lines| - 1];
      PlainLines(lines[..|lines| - 1]);
      var i := StripCuts(last);
      assert '<' !in Strip(last);
      NoTags(Strip(last));
    }
  }

  lemma PlainCue(p: Part)
    requires p.block.Cue? && p.block.text != [] && NoneBlank(p.block.text)
    requires forall i :: 0 <= i < |p.block.text| ==> '<' !in p.block.text[i]
    ensures Expected(p) ==
              Some(CueText(p.block.start.Value(), p.block.end.Value(), Join(" ", Map(Strip, p.block.text))))
  {
    PlainLines(p.block.text);
  }

  /** Every time below 100 hours can be written. */
  lemma ClockFor(t: nat) returns (c: Clock)
    requires t < 360000000
    ensures c.Valid() && c.Value() == t
  {
    var minutes, seconds := t / 60000, t / 1000;
    c := Clock(Some(minutes / 60), minutes % 60, seconds % 60, t % 1000);
  }
}
