/** The processing graph of one task: check_cache, ingest, cognition, cleanup. */
module Workflow {
  import opened Common
  import opened Text

  datatype Status = Pending | Processing | Completed | Error

  datatype Kind = Script | ScriptRaw | Summary | Audio

  /** A row of task_outputs. */
  datatype Output = Output(kind: Kind, locale: Option<string>, status: Status, content: Option<string>)

  /** How a database call fails: not carried out, or carried out without an answer. */
  datatype Fault = Fine | Refused | Unanswered

  /** Whether a payload names a language, that language or "unknown", whether it parses, whether it meets the
    * catalog's rules for a language, and the form in which it is stored again. */
  datatype Rules = Rules(names: string -> bool, language: string -> string, parses: string -> bool,
                         catalogOk: (string, string) -> bool, stored: string -> string) {
    predicate Accepts(content: string, language: string, catalog: bool) {
      parses(content) && this.language(content) == language && (catalog ==> catalogOk(content, language))
    }

    ghost predicate StoringKeeps() {
      forall c, l, catalog :: Accepts(c, l, catalog) ==> stored(c) != "" && Accepts(stored(c), l, catalog)
    }
  }

  type Judge = r: Rules | r.StoringKeeps()
    witness Rules(s => false, s => "unknown", s => false, (s, l) => false, s => s)

  const EN := "en"
  const ZH := "zh"

  // ----- Rows -----

  /** The locale a statement asks for; an empty one asks for null. */
  function Wanted(locale: Option<string>): Option<string> {
    if locale.None? || locale.value == "" then None else Some(Lower(locale.value))
  }

  function Held(locale: Option<string>): Option<string> {
    if locale.None? then None else Some(Lower(locale.value))
  }

  predicate Matches(o: Output, kind: Kind, locale: Option<string>) {
    o.kind == kind && Held(o.locale) == Wanted(locale)
  }

  function FindRow(outputs: seq<Output>, kind: Kind, locale: Option<string>): (i: nat)
    ensures i <= |outputs| && (i < |outputs| ==> Matches(outputs[i], kind, locale))
  {
    if outputs == [] then 0
    else if Matches(outputs[0], kind, locale) then 0
    else 1 + FindRow(outputs[1..], kind, locale)
  }

  /** upsert_completed_task_output */
  function Upsert(outputs: seq<Output>, kind: Kind, content: string, locale: Option<string>): seq<Output> {
    var i := FindRow(outputs, kind, locale);
    if i < |outputs| then outputs[i := outputs[i].(status := Completed, content := Some(content))]
    else outputs + [Output(kind, locale, Completed, Some(content))]
  }

  predicate DoneAt(outputs: seq<Output>, i: int, kind: Kind) {
    && 0 <= i < |outputs| && outputs[i].kind == kind && outputs[i].status == Completed
    && outputs[i].content.Some? && outputs[i].content.value != ""
  }

  ghost predicate HasScript(outputs: seq<Output>) {
    exists i :: DoneAt(outputs, i, Script)
  }

  ghost predicate HasAnySummary(outputs: seq<Output>) {
    exists i :: DoneAt(outputs, i, Summary)
  }

  predicate SummaryAt(outputs: seq<Output>, i: int, language: string, catalog: bool, judge: Judge) {
    DoneAt(outputs, i, Summary) && Held(outputs[i].locale) == Some(language)
    && judge.Accepts(outputs[i].content.value, language, catalog)
  }

  ghost predicate HasSummary(outputs: seq<Output>, language: string, catalog: bool, judge: Judge) {
    exists i :: SummaryAt(outputs, i, language, catalog, judge)
  }

  /** What a completed task owes its reader. */
  ghost predicate Complete(outputs: seq<Output>, catalog: bool, judge: Judge) {
    && HasScript(outputs)
    && if catalog then HasSummary(outputs, EN, true, judge) && HasSummary(outputs, ZH, true, judge)
       else HasAnySummary(outputs)
  }

  // ----- check_cache -----

  /** The graph's state; "" stands for a missing text. */
  datatype State = State(cacheHit: bool, transcript: string, language: string, summary: string, errors: seq<string>)

  /** The copying loop between two rows. `escaped` once an exception has left it. */
  datatype Copying = Copying(state: State, cached: set<string>, outputs: seq<Output>, escaped: bool)

  function ContentOf(content: Option<string>): string {
    if content.Some? then content.value else ""
  }

  /** str() of a column. */
  function Shown(content: Option<string>): string {
    if content.Some? then content.value else "None"
  }

  function LanguageOf(content: Option<string>, judge: Judge): string {
    if ContentOf(content) == "" then "unknown" else judge.language(ContentOf(content))
  }

  /** A raw transcript that names a language, be it "unknown", sets the language of the transcript. */
  predicate SetsLanguage(row: Output, judge: Judge) {
    row.kind == ScriptRaw && ContentOf(row.content) != "" && judge.names(ContentOf(row.content))
  }

  function CopyRow(c: Copying, row: Output, fault: Fault, catalog: bool, judge: Judge): Copying {
    var language := LanguageOf(row.content, judge);
    if row.status != Completed then c
    else if row.kind != Summary then
      // a failure here is logged and passed over
      var outputs := if fault == Refused then c.outputs
                     else Upsert(c.outputs, row.kind, Shown(row.content), row.locale);
      if fault != Fine then c.(outputs := outputs)
      else if row.kind == Script then c.(outputs := outputs, state := c.state.(transcript := ContentOf(row.content)))
      else if SetsLanguage(row, judge) then
        c.(outputs := outputs, state := c.state.(language := language))
      else c.(outputs := outputs)
    else if catalog
         && ((language != EN && language != ZH) || !judge.Accepts(ContentOf(row.content), language, true)) then c
    else if !catalog && c.state.language != "unknown" && language != c.state.language then c
    else
      var locale := if catalog then Some(language) else row.locale;
      var outputs := if fault == Refused then c.outputs else Upsert(c.outputs, Summary, Shown(row.content), locale);
      if fault != Fine then c.(outputs := outputs, escaped := true)
      else c.(outputs := outputs, cached := c.cached + {language}, state := c.state.(summary := ContentOf(row.content)))
  }

  function CopyAll(c: Copying, rows: seq<Output>, faults: nat -> Fault, catalog: bool, judge: Judge): Copying {
    if rows == [] then c
    else
      var before := CopyAll(c, rows[..|rows| - 1], faults, catalog, judge);
      if before.escaped then before else CopyRow(before, rows[|rows| - 1], faults(|rows| - 1), catalog, judge)
  }

  /** What follows the loop; an escaped exception skips it. */
  function Concluded(c: Copying, catalog: bool): State {
    if c.escaped then c.state
    else
      var summary := if catalog && !({EN, ZH} <= c.cached) then "" else c.state.summary;
      c.state.(summary := summary, cacheHit := c.state.transcript != "")
  }

  const MISS := State(false, "", "unknown", "", [])

  function Hit(outputs: seq<Output>): Copying {
    Copying(MISS.(cacheHit := true), {}, outputs, false)
  }

  datatype Node = ToIngest | ToCognition | ToCleanup

  function RouteAfterCache(s: State): Node {
    if !s.cacheHit then ToIngest else if s.summary == "" then ToCognition else ToCleanup
  }

  // ----- Copying keeps its promises -----

  /** The written row holds the content, and all other rows stay. */
  lemma UpsertWrites(outputs: seq<Output>, kind: Kind, content: string, locale: Option<string>) returns (i: nat)
    ensures var after := Upsert(outputs, kind, content, locale);
            && i < |after| && after[i].kind == kind && after[i].status == Completed && after[i].content == Some(content)
            && (if i < |outputs| then Held(after[i].locale) == Wanted(locale) && Matches(outputs[i], kind, locale)
               else after[i].locale == locale)
            && |outputs| <= |after| && |after| == Max(|outputs|, i + 1)
            && forall k :: 0 <= k < |outputs| && k != i ==> after[k] == outputs[k]
  {
    i := FindRow(outputs, kind, locale);
  }

  // No two completed scripts of one task differ in the case of their locale only.
  ghost predicate DistinctScripts(rows: seq<Output>) {
    forall i, j :: 0 <= i < j < |rows| && rows[i].kind == Script && rows[j].kind == Script ==>
      Wanted(rows[i].locale) != Wanted(rows[j].locale)
  }

  /** The transcript in the state is the content of a completed script, copied from row `from`. */
  predicate ScriptFrom(c: Copying, rows: seq<Output>, from: int, at: int) {
    && 0 <= from < |rows| && rows[from].kind == Script
    && DoneAt(c.outputs, at, Script) && c.outputs[at].content == Some(c.state.transcript)
    && (Held(c.outputs[at].locale) == Wanted(rows[from].locale) || Held(c.outputs[at].locale) == Some(""))
  }

  ghost predicate TranscriptHeld(c: Copying, rows: seq<Output>) {
    c.state.transcript != "" ==> exists from, at :: ScriptFrom(c, rows, from, at)
  }

  lemma ScriptSurvives(c: Copying, rows: seq<Output>, row: Output, kind: Kind, content: string, locale: Option<string>,
                       from: int, at: int)
    requires ScriptFrom(c, rows, from, at)
    requires kind == Script ==> Wanted(locale) != Wanted(rows[from].locale)
    ensures ScriptFrom(c.(outputs := Upsert(c.outputs, kind, content, locale)), rows + [row], from, at)
  {
    var i := UpsertWrites(c.outputs, kind, content, locale);
    assert (rows + [row])[from] == rows[from];
  }

  lemma ScriptStays(c: Copying, rows: seq<Output>, row: Output)
    requires TranscriptHeld(c, rows)
    ensures TranscriptHeld(c, rows + [row])
  {
    if c.state.transcript != "" {
      var from, at :| ScriptFrom(c, rows, from, at);
      assert (rows + [row])[from] == rows[from];
      assert ScriptFrom(c, rows + [row], from, at);
    }
  }

  lemma CopyKeepsTranscript(c: Copying, rows: seq<Output>, row: Output, fault: Fault, catalog: bool, judge: Judge)
    requires TranscriptHeld(c, rows) && DistinctScripts(rows + [row])
    ensures TranscriptHeld(CopyRow(c, row, fault, catalog, judge), rows + [row])
  {
    var c' := CopyRow(c, row, fault, catalog, judge);
    if c'.outputs == c.outputs && c'.state.transcript == c.state.transcript {
      ScriptStays(c, rows, row);
      if c.state.transcript != "" {
        var from, at :| ScriptFrom(c, rows + [row], from, at);
        assert ScriptFrom(c', rows + [row], from, at);
      }
    } else if row.kind == Script && fault == Fine {
      var at := UpsertWrites(c.outputs, Script, Shown(row.content), row.locale);
      assert (rows + [row])[|rows|] == row && Lower("") == "";
      assert c'.state.transcript != "" ==> ScriptFrom(c', rows + [row], |rows|, at);
    } else if c.state.transcript != "" {
      var from, at :| ScriptFrom(c, rows, from, at);
      var locale := if row.kind == Summary && catalog then Some(LanguageOf(row.content, judge)) else row.locale;
      assert (rows + [row])[from] == rows[from] && (rows + [row])[|rows|] == row;
      ScriptSurvives(c, rows, row, row.kind, Shown(row.content), locale, from, at);
      assert ScriptFrom(c', rows + [row], from, at);
    }
  }

  lemma {:induction false} TranscriptIsHeld(outputs: seq<Output>, rows: seq<Output>, faults: nat -> Fault,
                                            catalog: bool, judge: Judge)
    requires DistinctScripts(rows)
    ensures TranscriptHeld(CopyAll(Hit(outputs), rows, faults, catalog, judge), rows)
  {
    if rows != [] {
      var before, last := rows[..|rows| - 1], rows[|rows| - 1];
      assert rows == before + [last];
      TranscriptIsHeld(outputs, before, faults, catalog, judge);
      var c := CopyAll(Hit(outputs), before, faults, catalog, judge);
      if c.escaped {
        ScriptStays(c, before, last);
      } else {
        CopyKeepsTranscript(c, before, last, faults(|rows| - 1), catalog, judge);
      }
    }
  }

  /** As long as nothing escaped, every summary noted as cached is there. */
  ghost predicate SummariesHeld(c: Copying, catalog: bool, judge: Judge) {
    !c.escaped ==>
      if catalog then forall l :: l in c.cached ==> (l == EN || l == ZH) && HasSummary(c.outputs, l, true, judge)
      else c.state.summary != "" ==> HasAnySummary(c.outputs)
  }

  lemma OtherKindsStay(outputs: seq<Output>, kind: Kind, content: string, locale: Option<string>, i: int)
    requires kind != Summary && DoneAt(outputs, i, Summary)
    ensures var after := Upsert(outputs, kind, content, locale); DoneAt(after, i, Summary) && after[i] == outputs[i]
  {
    var w := UpsertWrites(outputs, kind, content, locale);
  }

  lemma LocalesAreLower()
    ensures Lower(EN) == EN && Lower(ZH) == ZH
  {
  }

  /** Storing an accepted summary under its language keeps every summary that was there. */
  lemma CatalogUpsert(outputs: seq<Output>, content: string, language: string, judge: Judge)
    requires (language == EN || language == ZH) && content != "" && judge.Accepts(content, language, true)
    ensures var after := Upsert(outputs, Summary, content, Some(language));
            && HasSummary(after, language, true, judge)
            && forall l :: HasSummary(outputs, l, true, judge) ==> HasSummary(after, l, true, judge)
  {
    LocalesAreLower();
    var after := Upsert(outputs, Summary, content, Some(language));
    var w := UpsertWrites(outputs, Summary, content, Some(language));
    assert SummaryAt(after, w, language, true, judge);
    forall l | HasSummary(outputs, l, true, judge)
      ensures HasSummary(after, l, true, judge)
    {
      var i :| SummaryAt(outputs, i, l, true, judge);
      assert SummaryAt(after, i, l, true, judge) || (i == w && l == language);
    }
  }

  lemma CopyKeepsSummaries(c: Copying, row: Output, fault: Fault, catalog: bool, judge: Judge)
    requires SummariesHeld(c, catalog, judge) && !c.escaped
    ensures SummariesHeld(CopyRow(c, row, fault, catalog, judge), catalog, judge)
  {
    var c' := CopyRow(c, row, fault, catalog, judge);
    if row.kind != Summary {
      if catalog {
        forall l | l in c'.cached
          ensures HasSummary(c'.outputs, l, true, judge)
        {
          var i :| SummaryAt(c.outputs, i, l, true, judge);
          OtherKindsStay(c.outputs, row.kind, Shown(row.content), row.locale, i);
          assert SummaryAt(c'.outputs, i, l, true, judge);
        }
      } else if c.state.summary != "" {
        var i :| DoneAt(c.outputs, i, Summary);
        OtherKindsStay(c.outputs, row.kind, Shown(row.content), row.locale, i);
        assert DoneAt(c'.outputs, i, Summary);
      }
    } else if c' != c && !c'.escaped {
      if catalog {
        CatalogUpsert(c.outputs, ContentOf(row.content), LanguageOf(row.content, judge), judge);
      } else if c'.state.summary != "" {
        var w := UpsertWrites(c.outputs, Summary, Shown(row.content), row.locale);
        assert DoneAt(c'.outputs, w, Summary);
      }
    }
  }

  lemma {:induction false} SummariesAreHeld(outputs: seq<Output>, rows: seq<Output>, faults: nat -> Fault,
                                            catalog: bool, judge: Judge)
    ensures SummariesHeld(CopyAll(Hit(outputs), rows, faults, catalog, judge), catalog, judge)
  {
    if rows != [] {
      SummariesAreHeld(outputs, rows[..|rows| - 1], faults, catalog, judge);
      var c := CopyAll(Hit(outputs), rows[..|rows| - 1], faults, catalog, judge);
      if !c.escaped {
        CopyKeepsSummaries(c, rows[|rows| - 1], faults(|rows| - 1), catalog, judge);
      }
    }
  }

  /** The cache path: a transcript means a completed script, and unless an exception escaped, skipping to cleanup
    * means all is there. Reuse.SkipsIff says what an exception can do. */
  lemma CacheIsSound(outputs: seq<Output>, rows: seq<Output>, faults: nat -> Fault, catalog: bool, judge: Judge)
    requires DistinctScripts(rows)
    ensures var c := CopyAll(Hit(outputs), rows, faults, catalog, judge);
            var s := Concluded(c, catalog);
            && (s.transcript != "" ==> HasScript(c.outputs))
            && (RouteAfterCache(s) == ToIngest ==> s.transcript == "")
            && (RouteAfterCache(s) == ToCleanup && !c.escaped ==> Complete(c.outputs, catalog, judge))
  {
    var c := CopyAll(Hit(outputs), rows, faults, catalog, judge);
    TranscriptIsHeld(outputs, rows, faults, catalog, judge);
    SummariesAreHeld(outputs, rows, faults, catalog, judge);
    if c.state.transcript != "" {
      var from, at :| ScriptFrom(c, rows, from, at);
    }
    CacheHitKept(outputs, rows, faults, catalog, judge);
  }

  lemma {:induction false} CacheHitKept(outputs: seq<Output>, rows: seq<Output>, faults: nat -> Fault, catalog: bool,
                                        judge: Judge)
    ensures CopyAll(Hit(outputs), rows, faults, catalog, judge).state.cacheHit
  {
    if rows != [] {
      CacheHitKept(outputs, rows[..|rows| - 1], faults, catalog, judge);
    }
  }
}
