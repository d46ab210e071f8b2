/** When reusing earlier outputs completes a task that lacks some: the exact condition on the reused rows, the
  * faults of copying them and the rows that were there. */
module Reuse {
  import opened Common
  import opened Text
  import opened Workflow

  /** A task whose outputs are reused: the rows copied, the fault of each copy, and the rows that are there. */
  datatype Case = Case(rows: seq<Output>, faults: nat -> Fault, prior: seq<Output>, catalog: bool, judge: Judge) {
    function Copied(n: nat): Copying
      requires n <= |rows|
    {
      CopyAll(Hit(prior), rows[..n], faults, catalog, judge)
    }

    /** The transcript language known after `n` rows: that of the last raw transcript copied that names one. */
    function Language(n: nat): string
      requires n <= |rows|
    {
      if n == 0 then "unknown"
      else
        var row := rows[n - 1];
        if row.status == Completed && SetsLanguage(row, judge) && faults(n - 1) == Fine
        then LanguageOf(row.content, judge) else Language(n - 1)
    }

    /** Row `i` is a summary worth copying. */
    predicate Wants(i: nat)
      requires i < |rows|
    {
      var row, l := rows[i], LanguageOf(rows[i].content, judge);
      && row.status == Completed && row.kind == Summary
      && if catalog then (l == EN || l == ZH) && judge.Accepts(ContentOf(row.content), l, true)
         else Language(i) == "unknown" || l == Language(i)
    }

    /** The last summary copied among the first `n` rows. */
    function LastSummary(n: nat): string
      requires n <= |rows|
    {
      if n == 0 then "" else if Wants(n - 1) then ContentOf(rows[n - 1].content) else LastSummary(n - 1)
    }

    /** Copying summary `k` is the first one to fail. */
    predicate FirstFault(k: nat) {
      k < |rows| && Wants(k) && faults(k) != Fine && forall i :: 0 <= i < k && Wants(i) ==> faults(i) == Fine
    }

    /** Script `i` is written over. */
    predicate WritesScript(i: nat)
      requires i < |rows|
    {
      rows[i].status == Completed && rows[i].kind == Script && faults(i) != Refused
    }

    /** After `n` rows there is a script: one that was copied, or one that was there and not written over. */
    ghost predicate ScriptStored(n: nat)
      requires n <= |rows|
    {
      || (exists i :: 0 <= i < n && WritesScript(i) && Shown(rows[i].content) != "")
      || exists j :: DoneAt(prior, j, Script) && Untouched(j, n)
    }

    predicate Untouched(j: int, n: nat)
      requires n <= |rows|
    {
      forall i :: 0 <= i < n && WritesScript(i) ==> FindRow(prior, Script, rows[i].locale) != j
    }

    /** After `n` rows there is a catalog summary in `language`: one that was copied, or one that was there. */
    ghost predicate SummaryStored(language: string, n: nat)
      requires n <= |rows|
    {
      || HasSummary(prior, language, true, judge)
      || exists i :: 0 <= i < n && Wants(i) && faults(i) != Refused && LanguageOf(rows[i].content, judge) == language
    }

    /** The copying of summary `k` fails first, another summary was copied before it, and the script or a
      * catalog summary is missing by then. */
    ghost predicate LosesAt(k: nat) {
      && FirstFault(k) && LastSummary(k) != ""
      && (!ScriptStored(k + 1) || (catalog && !(SummaryStored(EN, k + 1) && SummaryStored(ZH, k + 1))))
    }

    ghost predicate Loses() {
      exists k :: LosesAt(k)
    }
  }

  /** No two rows of a kind differ in the case of their locale only. */
  ghost predicate DistinctKeys(rows: seq<Output>) {
    forall i, j ::
      0 <= i < j < |rows| && rows[i].kind == rows[j].kind ==> Wanted(rows[i].locale) != Wanted(rows[j].locale)
  }

  lemma CopiedNext(c: Case, n: nat)
    requires n < |c.rows| && !c.Copied(n).escaped
    ensures c.Copied(n + 1) == CopyRow(c.Copied(n), c.rows[n], c.faults(n), c.catalog, c.judge)
  {
    assert c.rows[..n + 1][..n] == c.rows[..n];
  }

  // ----- State and escape -----

  ghost predicate NoFaultBefore(c: Case, n: nat)
    requires n <= |c.rows|
  {
    forall i :: 0 <= i < n && c.Wants(i) ==> c.faults(i) == Fine
  }

  /** Until a summary fails, the state is what was copied last. */
  lemma {:induction false} StateAfter(c: Case, n: nat)
    requires n <= |c.rows| && NoFaultBefore(c, n)
    ensures var copied := c.Copied(n);
            !copied.escaped && copied.state.language == c.Language(n) && copied.state.summary == c.LastSummary(n)
  {
    if n > 0 {
      StateAfter(c, n - 1);
      CopiedNext(c, n - 1);
      StateNext(c, n - 1, c.Copied(n - 1));
    }
  }

  lemma StateNext(c: Case, n: nat, copied: Copying)
    requires n < |c.rows| && (c.Wants(n) ==> c.faults(n) == Fine)
    requires !copied.escaped && copied.state.language == c.Language(n) && copied.state.summary == c.LastSummary(n)
    ensures var next := CopyRow(copied, c.rows[n], c.faults(n), c.catalog, c.judge);
            !next.escaped && next.state.language == c.Language(n + 1) && next.state.summary == c.LastSummary(n + 1)
  {
  }

  lemma {:induction false} EscapedStays(c: Copying, rows: seq<Output>, i: nat, faults: nat -> Fault, catalog: bool,
                                        judge: Judge)
    requires i <= |rows|
    ensures CopyAll(c, rows[..i], faults, catalog, judge).escaped ==>
              CopyAll(c, rows, faults, catalog, judge) == CopyAll(c, rows[..i], faults, catalog, judge)
    ensures i == |rows| ==> CopyAll(c, rows, faults, catalog, judge) == CopyAll(c, rows[..i], faults, catalog, judge)
  {
    if i < |rows| {
      var before := rows[..|rows| - 1];
      EscapedStays(c, before, i, faults, catalog, judge);
      assert before[..i] == rows[..i];
    } else {
      assert rows[..i] == rows;
    }
  }

  /** The first failing summary is where the copying ends. */
  lemma EscapesAt(c: Case, k: nat)
    requires c.FirstFault(k)
    ensures c.Copied(|c.rows|) == c.Copied(k + 1) && c.Copied(k + 1).escaped
    ensures c.Copied(k + 1) == c.Copied(k).(outputs := c.Copied(k + 1).outputs, escaped := true)
    ensures c.Copied(k).state.summary == c.LastSummary(k)
  {
    StateAfter(c, k);
    CopiedNext(c, k);
    EscapedStays(Hit(c.prior), c.rows, k + 1, c.faults, c.catalog, c.judge);
    assert c.rows[..|c.rows|] == c.rows;
  }

  /** Copying ends early exactly if some summary fails. */
  lemma EscapesIff(c: Case)
    ensures c.Copied(|c.rows|).escaped <==> exists k :: c.FirstFault(k)
  {
    if k :| c.FirstFault(k) {
      EscapesAt(c, k);
    } else {
      NoFaultAtAll(c, |c.rows|);
      StateAfter(c, |c.rows|);
    }
  }

  lemma {:induction false} NoFaultAtAll(c: Case, n: nat)
    requires n <= |c.rows| && forall k :: !c.FirstFault(k)
    ensures NoFaultBefore(c, n)
  {
    if n > 0 {
      NoFaultAtAll(c, n - 1);
      assert !c.FirstFault(n - 1);
    }
  }

  // ----- Where scripts go -----

  /** Rows are only added, and kinds and locales stay. */
  predicate Extends(prior: seq<Output>, now: seq<Output>) {
    |prior| <= |now|
    && forall j :: 0 <= j < |prior| ==> now[j].kind == prior[j].kind && now[j].locale == prior[j].locale
  }

  lemma {:induction false} FindRowInExtension(prior: seq<Output>, now: seq<Output>, kind: Kind, locale: Option<string>)
    requires Extends(prior, now)
    ensures FindRow(prior, kind, locale) < |prior| ==> FindRow(now, kind, locale) == FindRow(prior, kind, locale)
    ensures FindRow(prior, kind, locale) == |prior| ==> FindRow(now, kind, locale) >= |prior|
  {
    if prior != [] && !Matches(prior[0], kind, locale) {
      assert forall j :: 0 <= j < |prior[1..]| ==> prior[1..][j] == prior[j + 1] && now[1..][j] == now[j + 1];
      FindRowInExtension(prior[1..], now[1..], kind, locale);
    }
  }

  lemma UpsertExtends(outputs: seq<Output>, kind: Kind, content: string, locale: Option<string>)
    ensures Extends(outputs, Upsert(outputs, kind, content, locale))
  {
  }

  /** Row `at` holds what row `row` was copied with. */
  predicate HoldsCopy(outputs: seq<Output>, at: int, row: Output) {
    && 0 <= at < |outputs| && outputs[at].kind == row.kind && outputs[at].status == Completed
    && outputs[at].content == Some(Shown(row.content))
    && (Held(outputs[at].locale) == Wanted(row.locale) || Held(outputs[at].locale) == Some(""))
  }

  ghost predicate ScriptAt(c: Case, n: nat, outputs: seq<Output>, at: int)
    requires n <= |c.rows|
  {
    || (exists i :: 0 <= i < n && c.WritesScript(i) && HoldsCopy(outputs, at, c.rows[i]))
    || (0 <= at < |c.prior| && at < |outputs| && outputs[at] == c.prior[at] && c.Untouched(at, n))
  }

  /** After `n` rows, every script row holds a copied script or is a prior row not written over, and every copied
    * script and every such old row is there. */
  ghost predicate ScriptsKnown(c: Case, n: nat, outputs: seq<Output>)
    requires n <= |c.rows|
  {
    && Extends(c.prior, outputs)
    && (forall at :: 0 <= at < |outputs| && outputs[at].kind == Script ==> ScriptAt(c, n, outputs, at))
    && (forall i :: 0 <= i < n && c.WritesScript(i) ==> CopyKept(outputs, c.rows[i]))
    && forall j :: 0 <= j < |c.prior| && c.prior[j].kind == Script && c.Untouched(j, n) ==> outputs[j] == c.prior[j]
  }

  ghost predicate CopyKept(outputs: seq<Output>, row: Output) {
    exists at :: HoldsCopy(outputs, at, row)
  }

  /** A row that is no script to write changes nothing about the scripts. */
  lemma NoScriptNext(c: Case, n: nat, outputs: seq<Output>)
    requires n < |c.rows| && ScriptsKnown(c, n, outputs) && !c.WritesScript(n)
    ensures ScriptsKnown(c, n + 1, outputs)
  {
    forall at | 0 <= at < |outputs| && outputs[at].kind == Script
      ensures ScriptAt(c, n + 1, outputs, at)
    {
      assert ScriptAt(c, n, outputs, at);
      UntouchedNext(c, at, n);
    }
    forall j | 0 <= j < |c.prior| && c.prior[j].kind == Script && c.Untouched(j, n + 1)
      ensures outputs[j] == c.prior[j]
    {
      assert c.Untouched(j, n);
    }
  }

  lemma OtherKindsKeepScripts(c: Case, n: nat, outputs: seq<Output>, kind: Kind, content: string,
                              locale: Option<string>)
    requires n <= |c.rows| && ScriptsKnown(c, n, outputs) && kind != Script
    ensures ScriptsKnown(c, n, Upsert(outputs, kind, content, locale))
  {
    var after := Upsert(outputs, kind, content, locale);
    var w := UpsertWrites(outputs, kind, content, locale);
    UpsertExtends(outputs, kind, content, locale);
    forall at | 0 <= at < |after| && after[at].kind == Script
      ensures ScriptAt(c, n, after, at)
    {
      assert after[at] == outputs[at];
      SameRowSameScript(c, n, outputs, after, at);
    }
    forall i | 0 <= i < n && c.WritesScript(i)
      ensures CopyKept(after, c.rows[i])
    {
      assert CopyKept(outputs, c.rows[i]);
      var at :| HoldsCopy(outputs, at, c.rows[i]);
      assert HoldsCopy(after, at, c.rows[i]);
    }
  }

  lemma UntouchedNext(c: Case, j: int, n: nat)
    requires n < |c.rows| && !c.WritesScript(n)
    ensures c.Untouched(j, n) ==> c.Untouched(j, n + 1)
  {
  }

  lemma SameRowSameScript(c: Case, n: nat, outputs: seq<Output>, after: seq<Output>, at: int)
    requires n <= |c.rows| && ScriptAt(c, n, outputs, at) && 0 <= at < |outputs| <= |after| && after[at] == outputs[at]
    ensures ScriptAt(c, n, after, at)
  {
    if i :| 0 <= i < n && c.WritesScript(i) && HoldsCopy(outputs, at, c.rows[i]) {
      assert HoldsCopy(after, at, c.rows[i]);
    }
  }

  /** Copying script `n` leaves what earlier scripts were copied to. */
  lemma EarlierCopiesStay(c: Case, n: nat, outputs: seq<Output>, i: nat, at: int)
    requires i < n < |c.rows| && c.WritesScript(n) && c.WritesScript(i) && DistinctKeys(c.rows)
             && HoldsCopy(outputs, at, c.rows[i])
    ensures at != FindRow(outputs, Script, c.rows[n].locale)
    ensures HoldsCopy(Upsert(outputs, Script, Shown(c.rows[n].content), c.rows[n].locale), at, c.rows[i])
  {
    assert Wanted(c.rows[i].locale) != Wanted(c.rows[n].locale);
  }

  lemma ScriptAtNext(c: Case, n: nat, outputs: seq<Output>, at: int)
    requires n < |c.rows| && c.WritesScript(n) && DistinctKeys(c.rows) && Extends(c.prior, outputs)
    requires 0 <= at < |outputs| && at != FindRow(outputs, Script, c.rows[n].locale) && ScriptAt(c, n, outputs, at)
    ensures ScriptAt(c, n + 1, Upsert(outputs, Script, Shown(c.rows[n].content), c.rows[n].locale), at)
  {
    if i :| 0 <= i < n && c.WritesScript(i) && HoldsCopy(outputs, at, c.rows[i]) {
      EarlierCopiesStay(c, n, outputs, i, at);
    } else {
      OldScriptNext(c, n, outputs, at);
    }
  }

  lemma OldScriptNext(c: Case, n: nat, outputs: seq<Output>, at: int)
    requires n < |c.rows| && c.WritesScript(n) && Extends(c.prior, outputs)
    requires 0 <= at < |c.prior| && outputs[at] == c.prior[at] && c.Untouched(at, n)
    requires at != FindRow(outputs, Script, c.rows[n].locale)
    ensures Upsert(outputs, Script, Shown(c.rows[n].content), c.rows[n].locale)[at] == c.prior[at]
    ensures c.Untouched(at, n + 1)
  {
    FindRowInExtension(c.prior, outputs, Script, c.rows[n].locale);
  }

  /** The row that was written holds the copy, and all others what they held. */
  lemma ScriptsAtNext(c: Case, n: nat, outputs: seq<Output>)
    requires n < |c.rows| && ScriptsKnown(c, n, outputs) && c.WritesScript(n) && DistinctKeys(c.rows)
    ensures var after := Upsert(outputs, Script, Shown(c.rows[n].content), c.rows[n].locale);
            && HoldsCopy(after, FindRow(outputs, Script, c.rows[n].locale), c.rows[n])
            && forall at :: 0 <= at < |after| && after[at].kind == Script ==> ScriptAt(c, n + 1, after, at)
  {
    var after := Upsert(outputs, Script, Shown(c.rows[n].content), c.rows[n].locale);
    var w := FindRow(outputs, Script, c.rows[n].locale);
    assert Lower("") == "";
    assert HoldsCopy(after, w, c.rows[n]);
    forall at | 0 <= at < |after| && after[at].kind == Script
      ensures ScriptAt(c, n + 1, after, at)
    {
      if at != w {
        assert ScriptAt(c, n, outputs, at);
        ScriptAtNext(c, n, outputs, at);
      }
    }
  }

  lemma ScriptKeepsScripts(c: Case, n: nat, outputs: seq<Output>)
    requires n < |c.rows| && ScriptsKnown(c, n, outputs) && c.WritesScript(n) && DistinctKeys(c.rows)
    ensures ScriptsKnown(c, n + 1, Upsert(outputs, Script, Shown(c.rows[n].content), c.rows[n].locale))
  {
    var row := c.rows[n];
    var after := Upsert(outputs, Script, Shown(row.content), row.locale);
    UpsertExtends(outputs, Script, Shown(row.content), row.locale);
    ScriptsAtNext(c, n, outputs);
    forall i | 0 <= i < n + 1 && c.WritesScript(i)
      ensures CopyKept(after, c.rows[i])
    {
      if i < n {
        assert CopyKept(outputs, c.rows[i]);
        var at :| HoldsCopy(outputs, at, c.rows[i]);
        EarlierCopiesStay(c, n, outputs, i, at);
      }
    }
    forall j | 0 <= j < |c.prior| && c.prior[j].kind == Script && c.Untouched(j, n + 1)
      ensures after[j] == c.prior[j]
    {
      OldScriptStays(c, n, outputs, j);
    }
  }

  lemma OldScriptStays(c: Case, n: nat, outputs: seq<Output>, j: nat)
    requires n < |c.rows| && ScriptsKnown(c, n, outputs) && c.WritesScript(n)
    requires j < |c.prior| && c.prior[j].kind == Script && c.Untouched(j, n + 1)
    ensures Upsert(outputs, Script, Shown(c.rows[n].content), c.rows[n].locale)[j] == c.prior[j]
  {
    FindRowInExtension(c.prior, outputs, Script, c.rows[n].locale);
    assert c.Untouched(j, n) && FindRow(c.prior, Script, c.rows[n].locale) != j;
  }

  /** What copying a row writes, if anything. */
  lemma CopiedOutputs(c: Case, n: nat, copied: Copying) returns (locale: Option<string>)
    requires n < |c.rows|
    ensures var row, after := c.rows[n], CopyRow(copied, c.rows[n], c.faults(n), c.catalog, c.judge).outputs;
            if c.WritesScript(n) then after == Upsert(copied.outputs, Script, Shown(row.content), row.locale)
            else after == copied.outputs
                 || (row.kind != Script && after == Upsert(copied.outputs, row.kind, Shown(row.content), locale))
  {
    var row := c.rows[n];
    locale := if row.kind == Summary && c.catalog then Some(LanguageOf(row.content, c.judge)) else row.locale;
  }

  lemma ScriptsNext(c: Case, n: nat, copied: Copying)
    requires n < |c.rows| && DistinctKeys(c.rows) && ScriptsKnown(c, n, copied.outputs)
    ensures ScriptsKnown(c, n + 1, CopyRow(copied, c.rows[n], c.faults(n), c.catalog, c.judge).outputs)
  {
    var row, outputs := c.rows[n], copied.outputs;
    var locale := CopiedOutputs(c, n, copied);
    if c.WritesScript(n) {
      ScriptKeepsScripts(c, n, outputs);
    } else {
      NoScriptNext(c, n, outputs);
      if row.kind != Script {
        OtherKindsKeepScripts(c, n + 1, outputs, row.kind, Shown(row.content), locale);
      }
    }
  }

  lemma {:induction false} ScriptsAfter(c: Case, n: nat)
    requires n <= |c.rows| && DistinctKeys(c.rows) && (n > 0 ==> NoFaultBefore(c, n - 1))
    ensures ScriptsKnown(c, n, c.Copied(n).outputs)
  {
    if n == 0 {
      assert forall at :: c.Untouched(at, 0);
    } else {
      ScriptsAfter(c, n - 1);
      StateAfter(c, n - 1);
      CopiedNext(c, n - 1);
      ScriptsNext(c, n - 1, c.Copied(n - 1));
    }
  }

  lemma HasScriptIff(c: Case, n: nat, outputs: seq<Output>)
    requires n <= |c.rows| && ScriptsKnown(c, n, outputs)
    ensures HasScript(outputs) <==> c.ScriptStored(n)
  {
    if at :| DoneAt(outputs, at, Script) {
      assert ScriptAt(c, n, outputs, at);
      if at < |c.prior| && outputs[at] == c.prior[at] && c.Untouched(at, n) {
        assert DoneAt(c.prior, at, Script);
      }
    }
    if i :| 0 <= i < n && c.WritesScript(i) && Shown(c.rows[i].content) != "" {
      assert CopyKept(outputs, c.rows[i]);
      var at :| HoldsCopy(outputs, at, c.rows[i]);
      assert DoneAt(outputs, at, Script);
    }
    if j :| DoneAt(c.prior, j, Script) && c.Untouched(j, n) {
      assert DoneAt(outputs, j, Script);
    }
  }

  // ----- Where summaries go -----

  /** A catalog summary is there afterwards if it was before, or if this very row brought it. */
  lemma SummaryStep(outputs: seq<Output>, content: string, language: string, l: string, judge: Judge)
    requires (language == EN || language == ZH) && content != "" && judge.Accepts(content, language, true)
    ensures HasSummary(Upsert(outputs, Summary, content, Some(language)), l, true, judge) <==>
              HasSummary(outputs, l, true, judge) || l == language
  {
    CatalogUpsert(outputs, content, language, judge);
    var after := Upsert(outputs, Summary, content, Some(language));
    var w := UpsertWrites(outputs, Summary, content, Some(language));
    if i :| SummaryAt(after, i, l, true, judge) {
      assert i == w || SummaryAt(outputs, i, l, true, judge);
    }
  }

  lemma OtherStep(outputs: seq<Output>, kind: Kind, content: string, locale: Option<string>, l: string, judge: Judge)
    requires kind != Summary
    ensures HasSummary(Upsert(outputs, kind, content, locale), l, true, judge) <==> HasSummary(outputs, l, true, judge)
  {
    var after := Upsert(outputs, kind, content, locale);
    var w := UpsertWrites(outputs, kind, content, locale);
    if i :| SummaryAt(after, i, l, true, judge) {
      assert SummaryAt(outputs, i, l, true, judge);
    }
    if i :| SummaryAt(outputs, i, l, true, judge) {
      assert SummaryAt(after, i, l, true, judge);
    }
  }

  lemma {:induction false} SummariesAfter(c: Case, n: nat, l: string)
    requires n <= |c.rows| && c.catalog && (n > 0 ==> NoFaultBefore(c, n - 1))
    ensures HasSummary(c.Copied(n).outputs, l, true, c.judge) <==> c.SummaryStored(l, n)
  {
    if n > 0 {
      SummariesAfter(c, n - 1, l);
      StateAfter(c, n - 1);
      CopiedNext(c, n - 1);
      var row, outputs := c.rows[n - 1], c.Copied(n - 1).outputs;
      SummaryStoredNext(c, n - 1, l);
      if row.kind == Summary {
        if c.Wants(n - 1) {
          SummaryStep(outputs, ContentOf(row.content), LanguageOf(row.content, c.judge), l, c.judge);
        }
      } else {
        OtherStep(outputs, row.kind, Shown(row.content), row.locale, l, c.judge);
      }
    }
  }

  lemma SummaryStoredNext(c: Case, n: nat, l: string)
    requires n < |c.rows|
    ensures c.SummaryStored(l, n + 1) <==>
              c.SummaryStored(l, n)
              || (c.Wants(n) && c.faults(n) != Refused && LanguageOf(c.rows[n].content, c.judge) == l)
  {
  }

  /** A summary copied into a user's task is still there. */
  ghost predicate UserSummaryKept(c: Case, n: nat, outputs: seq<Output>)
    requires n <= |c.rows|
  {
    exists i :: 0 <= i < n && c.Wants(i) && ContentOf(c.rows[i].content) != "" && CopyKept(outputs, c.rows[i])
  }

  /** Copying another row keeps what a row was copied to. */
  lemma UpsertKeepsCopy(rows: seq<Output>, i: nat, n: nat, outputs: seq<Output>)
    requires i < n < |rows| && DistinctKeys(rows) && CopyKept(outputs, rows[i])
    ensures CopyKept(Upsert(outputs, rows[n].kind, Shown(rows[n].content), rows[n].locale), rows[i])
  {
    var at :| HoldsCopy(outputs, at, rows[i]);
    var w := UpsertWrites(outputs, rows[n].kind, Shown(rows[n].content), rows[n].locale);
    assert HoldsCopy(Upsert(outputs, rows[n].kind, Shown(rows[n].content), rows[n].locale), at, rows[i]);
  }

  lemma UpsertCopies(outputs: seq<Output>, row: Output)
    ensures CopyKept(Upsert(outputs, row.kind, Shown(row.content), row.locale), row)
  {
    assert Lower("") == "";
    var w := UpsertWrites(outputs, row.kind, Shown(row.content), row.locale);
    assert HoldsCopy(Upsert(outputs, row.kind, Shown(row.content), row.locale), w, row);
  }

  lemma {:induction false} UserSummaryAfter(c: Case, n: nat)
    requires n <= |c.rows| && !c.catalog && DistinctKeys(c.rows) && (n > 0 ==> NoFaultBefore(c, n - 1))
    requires c.LastSummary(if n > 0 && c.Wants(n - 1) && c.faults(n - 1) != Fine then n - 1 else n) != ""
    ensures UserSummaryKept(c, n, c.Copied(n).outputs)
  {
    if !(c.Wants(n - 1) && c.faults(n - 1) == Fine) {
      UserSummaryAfter(c, n - 1);
    }
    UserSummaryStep(c, n - 1);
  }

  lemma UserSummaryStep(c: Case, n: nat)
    requires n < |c.rows| && !c.catalog && DistinctKeys(c.rows) && NoFaultBefore(c, n)
    requires if c.Wants(n) && c.faults(n) == Fine then ContentOf(c.rows[n].content) != ""
             else UserSummaryKept(c, n, c.Copied(n).outputs)
    ensures UserSummaryKept(c, n + 1, c.Copied(n + 1).outputs)
  {
    StateAfter(c, n);
    CopiedNext(c, n);
    UserRowCopied(c, n, c.Copied(n));
    if c.Wants(n) && c.faults(n) == Fine {
      UpsertCopies(c.Copied(n).outputs, c.rows[n]);
    } else {
      UserSummaryNext(c, n, c.Copied(n).outputs);
    }
  }

  lemma UserRowCopied(c: Case, n: nat, copied: Copying)
    requires n < |c.rows| && !c.catalog && copied.state.language == c.Language(n)
    ensures var before, row := copied.outputs, c.rows[n];
            var after := CopyRow(copied, row, c.faults(n), c.catalog, c.judge).outputs;
            && (after == before || after == Upsert(before, row.kind, Shown(row.content), row.locale))
            && (c.Wants(n) && c.faults(n) == Fine ==> after == Upsert(before, row.kind, Shown(row.content), row.locale))
  {
  }

  lemma UserSummaryNext(c: Case, n: nat, outputs: seq<Output>)
    requires n < |c.rows| && DistinctKeys(c.rows) && UserSummaryKept(c, n, outputs)
    ensures UserSummaryKept(c, n + 1, outputs)
    ensures UserSummaryKept(c, n + 1, Upsert(outputs, c.rows[n].kind, Shown(c.rows[n].content), c.rows[n].locale))
  {
    var i :| 0 <= i < n && c.Wants(i) && ContentOf(c.rows[i].content) != "" && CopyKept(outputs, c.rows[i]);
    UpsertKeepsCopy(c.rows, i, n, outputs);
  }

  // ----- The exact condition -----

  lemma UserHasSummary(c: Case, k: nat)
    requires DistinctKeys(c.rows) && !c.catalog && c.FirstFault(k) && c.LastSummary(k) != ""
    ensures HasAnySummary(c.Copied(k + 1).outputs)
  {
    var outputs := c.Copied(k + 1).outputs;
    UserSummaryAfter(c, k + 1);
    var i :| 0 <= i < k + 1 && c.Wants(i) && ContentOf(c.rows[i].content) != "" && CopyKept(outputs, c.rows[i]);
    var at :| HoldsCopy(outputs, at, c.rows[i]);
    assert DoneAt(outputs, at, Summary);
  }

  /** Copying that breaks off at summary `k`: what it leaves. */
  lemma BrokenOff(c: Case, k: nat)
    requires DistinctKeys(c.rows) && c.FirstFault(k) && c.LastSummary(k) != ""
    ensures Complete(c.Copied(k + 1).outputs, c.catalog, c.judge) <==>
              c.ScriptStored(k + 1) && (c.catalog ==> c.SummaryStored(EN, k + 1) && c.SummaryStored(ZH, k + 1))
  {
    ScriptBrokenOff(c, k);
    if c.catalog {
      CatalogBrokenOff(c, k);
    } else {
      UserHasSummary(c, k);
    }
  }

  lemma ScriptBrokenOff(c: Case, k: nat)
    requires DistinctKeys(c.rows) && c.FirstFault(k)
    ensures HasScript(c.Copied(k + 1).outputs) <==> c.ScriptStored(k + 1)
  {
    ScriptsAfter(c, k + 1);
    HasScriptIff(c, k + 1, c.Copied(k + 1).outputs);
  }

  lemma CatalogBrokenOff(c: Case, k: nat)
    requires c.catalog && c.FirstFault(k)
    ensures HasSummary(c.Copied(k + 1).outputs, EN, true, c.judge) <==> c.SummaryStored(EN, k + 1)
    ensures HasSummary(c.Copied(k + 1).outputs, ZH, true, c.judge) <==> c.SummaryStored(ZH, k + 1)
  {
    SummariesAfter(c, k + 1, EN);
    SummariesAfter(c, k + 1, ZH);
  }

  /** Reusing outputs sends a task to cleanup although it lacks some, exactly if copying a summary fails after
    * another was copied, and the script or a catalog summary is missing by then. */
  lemma SkipsIff(c: Case)
    requires DistinctKeys(c.rows)
    ensures var end := c.Copied(|c.rows|);
            RouteAfterCache(Concluded(end, c.catalog)) == ToCleanup && !Complete(end.outputs, c.catalog, c.judge) <==>
              c.Loses()
  {
    var end := c.Copied(|c.rows|);
    assert c.rows[..|c.rows|] == c.rows;
    EscapesIff(c);
    CacheIsSound(c.prior, c.rows, c.faults, c.catalog, c.judge);
    CacheHitKept(c.prior, c.rows, c.faults, c.catalog, c.judge);
    if k :| c.FirstFault(k) {
      EscapesAt(c, k);
      assert forall k' :: c.FirstFault(k') ==> k' == k;
      if c.LastSummary(k) != "" {
        BrokenOff(c, k);
      }
      assert c.Loses() <==> c.LosesAt(k);
    }
  }

  /** It does happen to a user's task: the script cannot be copied, one summary can, the next cannot. */
  lemma LosesScript(content: string, judge: Judge) returns (c: Case)
    requires content != ""
    ensures !c.catalog && c.judge == judge && DistinctKeys(c.rows) && c.Loses()
  {
    var rows := [Output(Script, None, Completed, Some(content)),
                 Output(Summary, None, Completed, Some(content)),
                 Output(Summary, Some(EN), Completed, Some(content))];
    c := Case(rows, i => if i == 1 then Fine else Refused, [], false, judge);
    assert c.Language(0) == "unknown" && c.Language(1) == "unknown" && c.Language(2) == "unknown";
    assert c.Wants(1) && c.LastSummary(2) == content;
    assert c.FirstFault(2) && !c.ScriptStored(3);
    assert c.LosesAt(2);
  }

  /** And to a catalog task with whatever summaries: the second one cannot be copied. */
  lemma LosesCatalogSummary(english: string, chinese: string, judge: Judge) returns (c: Case)
    requires english != "" && judge.Accepts(english, EN, true) && chinese != "" && judge.Accepts(chinese, ZH, true)
    ensures c.catalog && c.judge == judge && DistinctKeys(c.rows) && c.Loses()
    ensures c.ScriptStored(|c.rows|)
  {
    var rows := [Output(Script, None, Completed, Some(english)),
                 Output(Summary, Some(EN), Completed, Some(english)),
                 Output(Summary, Some(ZH), Completed, Some(chinese))];
    c := Case(rows, i => if i == 2 then Refused else Fine, [], true, judge);
    assert Lower(EN)[0] != Lower(ZH)[0];
    assert c.WritesScript(0) && c.Wants(1) && c.Wants(2) && c.LastSummary(2) == english;
    assert c.FirstFault(2) && !c.SummaryStored(ZH, 3);
    assert c.LosesAt(2);
  }
}
