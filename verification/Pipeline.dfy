/** The nodes of the processing graph over the rows of one task, and run_pipeline around them. Any database
  * call may fail, with or without having been carried out; so may every provider, and the timeout or the
  * heartbeat may cancel the run wherever it waits. */
module Pipeline {
  import opened Common
  import opened Text
  import opened Workflow
  import opened Reuse

  /** How one pipeline attempt ends: normally, with an error that no retry can mend, or with any other error. */
  datatype Outcome = Done | Fatal(message: string) | Failed

  predicate CaptionError(e: string) {
    CAPTIONS <= e || SOURCE <= e
  }

  const CAPTIONS := "captions_unavailable:"
  const SOURCE := "unsupported_source:"
  const UNAVAILABLE := CAPTIONS + " No usable captions were found. Audio transcription is not supported."
  const UNSUPPORTED := SOURCE + " Only YouTube videos with existing captions are supported."

  /** What the outside world answers during one attempt. */
  datatype World = World(
    reusable: Option<seq<Output>>, // the outputs of the owner's latest task with a script for this video
    supported: bool,
    supadata: Option<string>,
    vtt: Option<string>,
    primary: string,
    replies: string -> Option<string>,
    lookup: Fault,                 // of finding that task
    metadata: Fault,               // of taking over its title and reading its outputs
    copyFaults: nat -> Fault,
    calm: bool)                    // nothing is cancelled, and no call fails but those of copyFaults
  {
    function Fetched(): Option<string> {
      if supadata.Some? then supadata else vtt
    }

    /** The summarizer answers every language the task needs with an acceptable summary. */
    predicate Answers(catalog: bool, judge: Judge) {
      forall l :: l in Languages(catalog) ==> replies(l).Some? && judge.Accepts(replies(l).value, l, catalog)
    }

    /** All that a task without reusable outputs needs is there. */
    predicate Suffices(catalog: bool, judge: Judge) {
      && calm && reusable.None? && supported
      && Fetched().Some? && |Strip(Fetched().value)| >= 50 && Answers(catalog, judge)
    }

    predicate LacksCaptions() {
      calm && reusable.None? && (!supported || Fetched().None?)
    }

    function Languages(catalog: bool): seq<string> {
      if catalog then [EN, ZH] else [primary]
    }

    /** There are outputs to copy. */
    predicate Reuses() {
      reusable.Some? && (calm || (lookup == Fine && metadata == Fine))
    }

    /** Reusing outputs leaves some out and routes the task to cleanup all the same. */
    ghost predicate Loses(outputs: seq<Output>, catalog: bool, judge: Judge) {
      Reuses() && Case(reusable.value, copyFaults, outputs, catalog, judge).Loses()
    }
  }

  /** A script worth keeping; SQL's btrim removes blanks. */
  predicate PersistedScript(o: Output) {
    o.kind == Script && o.status == Completed && o.content.Some?
    && exists i :: 0 <= i < |o.content.value| && o.content.value[i] != ' '
  }

  function FailUnfinished(outputs: seq<Output>): (r: seq<Output>)
    ensures |r| == |outputs|
    ensures forall i :: 0 <= i < |r| ==>
              r[i] == if outputs[i].status == Completed then outputs[i] else outputs[i].(status := Error)
  {
    Map((o: Output) => if o.status == Completed then o else o.(status := Error), outputs)
  }

  function WithKind(outputs: seq<Output>, kind: Kind, content: string): (r: seq<Output>)
    ensures |r| == |outputs|
    ensures forall i :: 0 <= i < |r| ==>
              r[i] == if outputs[i].kind == kind then outputs[i].(status := Completed, content := Some(content))
                      else outputs[i]
  {
    Map((o: Output) => if o.kind == kind then o.(status := Completed, content := Some(content)) else o, outputs)
  }

  /** Rows are never deleted, and those of kinds other than `kind` stay as they are. */
  predicate OnlyKind(before: seq<Output>, after: seq<Output>, kind: Kind) {
    && |before| <= |after|
    && forall i ::
         0 <= i < |before| ==> after[i].kind == before[i].kind && (before[i].kind != kind ==> after[i] == before[i])
  }

  lemma ScriptKept(before: seq<Output>, after: seq<Output>, kind: Kind)
    requires HasScript(before) && OnlyKind(before, after, kind) && kind != Script
    ensures HasScript(after)
  {
    var i :| DoneAt(before, i, Script);
    assert DoneAt(after, i, Script);
  }

  /** A summary row that serves `language`: user tasks also accept the row without a locale. */
  predicate SummaryFor(outputs: seq<Output>, i: int, language: string, catalog: bool, judge: Judge) {
    && DoneAt(outputs, i, Summary) && judge.Accepts(outputs[i].content.value, language, catalog)
    && (outputs[i].locale == Some(language) || (!catalog && outputs[i].locale.None?))
  }

  ghost predicate Serves(outputs: seq<Output>, language: string, catalog: bool, judge: Judge) {
    exists i :: SummaryFor(outputs, i, language, catalog, judge)
  }

  method AnyFault(calm: bool) returns (fault: Fault)
    ensures calm ==> fault == Fine
  {
    fault := *;
    if calm {
      fault := Fine;
    }
  }

  method Cancelled(calm: bool) returns (cancelled: bool)
    ensures calm ==> !cancelled
  {
    cancelled := *;
    cancelled := cancelled && !calm;
  }

  /** The trigger that refuses to revive a task without captions. */
  predicate Barred(status: Status, error: string) {
    status == Error && CaptionError(error)
  }

  predicate NoPersistedScript(outputs: seq<Output>) {
    forall i :: 0 <= i < |outputs| ==> !PersistedScript(outputs[i])
  }

  ghost predicate HasKind(outputs: seq<Output>, kind: Kind) {
    exists o :: o in outputs && o.kind == kind
  }

  lemma KindsGrow(outputs: seq<Output>, row: Output)
    ensures HasKind(outputs + [row], row.kind)
    ensures forall k :: HasKind(outputs, k) ==> HasKind(outputs + [row], k)
  {
    assert row in outputs + [row];
    forall k | HasKind(outputs, k)
      ensures HasKind(outputs + [row], k)
    {
      var o :| o in outputs && o.kind == k;
      assert o in outputs + [row];
    }
  }

  lemma CaptionConstants()
    ensures CaptionError(UNAVAILABLE) && CaptionError(UNSUPPORTED)
  {
    assert CAPTIONS <= UNAVAILABLE && SOURCE <= UNSUPPORTED;
  }

  class TaskDb {
    const catalog: bool
    var status: Status
    var error: string
    var outputs: seq<Output>

    // ----- Statements -----

    /** update_task_status; a trigger refuses to revive a task that failed for its captions. */
    method UpdateTaskStatus(newStatus: Status, newError: Option<string>, fault: Fault) returns (ok: bool)
      modifies this`status, this`error
      ensures var revived :=
                old(status) == Error && CaptionError(old(error)) && (newStatus == Pending || newStatus == Processing);
              if fault == Refused || revived then !ok && status == old(status) && error == old(error)
              else (ok <==> fault == Fine) && status == newStatus
                   && error == if newError.Some? then newError.value else old(error)
    {
      var revived := status == Error && CaptionError(error) && (newStatus == Pending || newStatus == Processing);
      if fault == Refused || revived {
        return false;
      }
      status := newStatus;
      if newError.Some? {
        error := newError.value;
      }
      ok := fault == Fine;
    }

    /** fail_caption_task refuses a completed task and one whose script is there. */
    method FailCaptionTask(message: string, fault: Fault) returns (ok: bool)
      modifies this`status, this`error, this`outputs
      ensures var refuses := old(status) == Completed
              || exists i :: 0 <= i < |old(outputs)| && PersistedScript(old(outputs)[i]);
              if fault == Refused || refuses
              then !ok && status == old(status) && error == old(error) && outputs == old(outputs)
              else (ok <==> fault == Fine) && status == Error && error == message
                   && outputs == FailUnfinished(old(outputs))
    {
      var refuses := status == Completed || exists i :: 0 <= i < |outputs| && PersistedScript(outputs[i]);
      if fault == Refused || refuses {
        return false;
      }
      outputs := FailUnfinished(outputs);
      status, error := Error, message;
      ok := fault == Fine;
    }

    /** mark_task_failed_if_not_completed */
    method MarkFailedIfNotCompleted(message: string, fault: Fault) returns (ok: bool)
      modifies this`status, this`error
      ensures old(status) == Completed ==> status == Completed && error == old(error)
      ensures ok <==> fault == Fine
      ensures old(status) != Completed ==>
                if fault == Refused then status == old(status) && error == old(error)
                else status == Error && error == message
    {
      if fault != Refused && status != Completed {
        status, error := Error, message;
      }
      ok := fault == Fine;
    }

    method EnsureOutputs(kinds: seq<Kind>, calm: bool) returns (ok: bool)
      modifies this`outputs
      ensures old(outputs) <= outputs && (calm ==> ok)
      ensures forall i :: |old(outputs)| <= i < |outputs| ==> outputs[i].status == Pending
      ensures ok ==> forall m :: 0 <= m < |kinds| ==> HasKind(outputs, kinds[m])
    {
      var existing := set o | o in outputs :: o.kind;
      for n := 0 to |kinds|
        invariant old(outputs) <= outputs
        invariant forall i :: |old(outputs)| <= i < |outputs| ==> outputs[i].status == Pending
        invariant forall k :: k in existing ==> HasKind(outputs, k)
        invariant forall m :: 0 <= m < n ==> HasKind(outputs, kinds[m])
      {
        if kinds[n] !in existing {
          var fault := AnyFault(calm);
          if fault == Refused {
            return false;
          }
          KindsGrow(outputs, Output(kinds[n], None, Pending, None));
          outputs := outputs + [Output(kinds[n], None, Pending, None)];
          if fault == Unanswered {
            return false;
          }
        }
      }
      ok := true;
    }

    /** update_task_output_by_kind */
    method CompleteKind(kind: Kind, content: string, fault: Fault) returns (ok: bool)
      modifies this`outputs
      ensures outputs == if fault == Refused then old(outputs) else WithKind(old(outputs), kind, content)
      ensures ok <==> fault == Fine && HasKind(old(outputs), kind)
    {
      if fault == Refused {
        return false;
      }
      var found := exists o :: o in outputs && o.kind == kind;
      outputs := WithKind(outputs, kind, content);
      ok := fault == Fine && found;
    }

    // ----- check_cache -----

    /** One row of the copying loop. */
    method CopyOutput(row: Output, fault: Fault, s: State, cached: set<string>, judge: Judge)
      returns (escaped: bool, s': State, cached': set<string>)
      modifies this`outputs
      ensures Copying(s', cached', outputs, escaped) ==
                CopyRow(Copying(s, cached, old(outputs), false), row, fault, catalog, judge)
    {
      escaped, s', cached' := false, s, cached;
      if row.status != Completed {
        return;
      }
      if row.kind == Script || row.kind == ScriptRaw || row.kind == Audio {
        if fault != Refused {
          outputs := Upsert(outputs, row.kind, Shown(row.content), row.locale);
        }
        if fault == Fine {
          if row.kind == Script {
            s' := s'.(transcript := ContentOf(row.content));
          } else if SetsLanguage(row, judge) {
            s' := s'.(language := LanguageOf(row.content, judge));
          }
        }
        return;
      }
      var language := LanguageOf(row.content, judge);
      var locale := row.locale;
      if catalog {
        if language != EN && language != ZH {
          return;
        }
        if !judge.Accepts(ContentOf(row.content), language, true) {
          return;
        }
        locale := Some(language);
      } else if s.language != "unknown" && language != s.language {
        return;
      }
      if fault != Refused {
        outputs := Upsert(outputs, Summary, Shown(row.content), locale);
      }
      if fault != Fine {
        escaped := true;
        return;
      }
      cached' := cached' + {language};
      s' := s'.(summary := ContentOf(row.content));
    }

    method CopyOutputs(rows: seq<Output>, faults: nat -> Fault, judge: Judge) returns (s: State, ghost c: Copying)
      modifies this`outputs
      ensures c == CopyAll(Hit(old(outputs)), rows, faults, catalog, judge)
      ensures s == Concluded(c, catalog) && outputs == c.outputs
    {
      s := MISS.(cacheHit := true);
      var cached: set<string>, escaped := {}, false;
      ghost var start := Hit(outputs);
      var i := 0;
      while i < |rows| && !escaped
        invariant 0 <= i <= |rows|
        invariant Copying(s, cached, outputs, escaped) == CopyAll(start, rows[..i], faults, catalog, judge)
      {
        assert rows[..i + 1][..i] == rows[..i];
        escaped, s, cached := CopyOutput(rows[i], faults(i), s, cached, judge);
        i := i + 1;
      }
      c := Copying(s, cached, outputs, escaped);
      CacheHitKept(start.outputs, rows, faults, catalog, judge);
      EscapedStays(start, rows, i, faults, catalog, judge);
      if escaped {
        return;
      }
      if catalog && !({EN, ZH} <= cached) {
        s := s.(summary := "");
      }
      if s.transcript == "" {
        s := s.(cacheHit := false);
      }
    }

    method CheckCache(world: World, judge: Judge) returns (s: State)
      requires world.reusable.Some? ==> DistinctKeys(world.reusable.value)
      modifies this`outputs
      ensures s.errors == [] && (s.transcript != "" ==> HasScript(outputs))
      ensures world.reusable.None? ==> s == MISS && outputs == old(outputs)
      ensures RouteAfterCache(s) == ToIngest ==> s.transcript == ""
      ensures RouteAfterCache(s) == ToCleanup ==>
                (Complete(outputs, catalog, judge) <==> !world.Loses(old(outputs), catalog, judge))
      ensures world.Loses(old(outputs), catalog, judge) ==> RouteAfterCache(s) == ToCleanup
    {
      if world.reusable.None? || (world.lookup != Fine && !world.calm) {
        return MISS;
      }
      if world.metadata != Fine && !world.calm {
        return MISS.(cacheHit := true);
      }
      var rows := world.reusable.value;
      CacheIsSound(outputs, rows, world.copyFaults, catalog, judge);
      CopyErrorFree(Hit(outputs), rows, world.copyFaults, catalog, judge);
      SkipsIff(Case(rows, world.copyFaults, outputs, catalog, judge));
      assert rows[..|rows|] == rows;
      ghost var c;
      s, c := CopyOutputs(rows, world.copyFaults, judge);
    }

    // ----- ingest -----

    /** A provider behind its progress report, which must not revive a task without captions. */
    method AskProvider(answer: Option<string>, calm: bool) returns (transcript: Option<string>)
      modifies this`status, this`error
      ensures (status == old(status) || status == Processing) && error == old(error)
      ensures transcript.Some? ==> transcript == answer
      ensures calm && !Barred(old(status), old(error)) ==> transcript == answer
    {
      var fault := AnyFault(calm);
      var ok := UpdateTaskStatus(Processing, None, fault);
      transcript := if ok then answer else None;
    }

    method Ingest(s: State, world: World) returns (raised: bool, s': State)
      requires s.transcript != "" ==> HasScript(outputs)
      requires s.errors == []
      modifies this
      ensures status == Completed ==> old(status) == Completed
      ensures !raised && s'.transcript != "" ==> HasScript(outputs)
      ensures !raised && s'.errors != [] ==> |s'.errors| == 1 && CaptionError(s'.errors[0])
      // with nothing in the way, the first transcript there is gets through, and a lack of captions is recorded
      ensures world.calm && s.transcript == "" && world.supported && world.Fetched().Some?
              && !Barred(old(status), old(error)) ==>
                !raised && s' == s.(transcript := world.Fetched().value)
      ensures world.calm && s.transcript == "" && (!world.supported || world.Fetched().None?)
              && old(status) != Completed && NoPersistedScript(old(outputs)) ==>
                !raised && s'.transcript == "" && s'.errors != [] && status == Error && CaptionError(error)
    {
      CaptionConstants();
      raised, s' := false, s;
      if s.transcript != "" {
        return;
      }
      var fault := AnyFault(world.calm);
      if !world.supported {
        var ok := FailCaptionTask(UNSUPPORTED, fault);
        s' := s.(errors := [UNSUPPORTED]);
        return !ok, s';
      }
      var ok := EnsureOutputs([Script, ScriptRaw, Summary], world.calm);
      if !ok {
        return true, s;
      }
      assert HasKind(outputs, [Script, ScriptRaw, Summary][0]) && HasKind(outputs, [Script, ScriptRaw, Summary][1]);
      var transcript := AskProvider(world.supadata, world.calm);
      var cancelled := Cancelled(world.calm);
      if transcript.None? && !cancelled {
        transcript := AskProvider(world.vtt, world.calm);
        cancelled := Cancelled(world.calm);
      }
      if cancelled {
        return true, s;
      }
      if transcript.None? {
        ok := FailCaptionTask(UNAVAILABLE, fault);
        s' := s.(errors := [UNAVAILABLE]);
        if !ok {
          return true, s';
        }
      } else {
        raised := PersistTranscript(transcript.value, world.calm);
        s' := s.(transcript := transcript.value);
        if raised {
          return;
        }
      }
      raised := PersistAudio(world.calm);
    }

    method PersistTranscript(transcript: string, calm: bool) returns (raised: bool)
      modifies this`outputs
      ensures !raised && transcript != "" ==> HasScript(outputs)
      ensures calm && HasKind(old(outputs), Script) && HasKind(old(outputs), ScriptRaw) ==> !raised
    {
      var raw: string := *;
      var fault := AnyFault(calm);
      var ok := CompleteKind(ScriptRaw, raw, fault);
      if !ok {
        return true;
      }
      KindsStay(old(outputs), ScriptRaw, raw);
      ghost var before := outputs;
      fault := AnyFault(calm);
      ok := CompleteKind(Script, transcript, fault);
      if ok && transcript != "" {
        CompletedKind(before, Script, transcript);
      }
      raised := !ok;
    }

    method PersistAudio(calm: bool) returns (raised: bool)
      modifies this`outputs
      ensures OnlyKind(old(outputs), outputs, Audio)
      ensures HasScript(old(outputs)) ==> HasScript(outputs)
      ensures calm ==> !raised
    {
      ghost var before := outputs;
      var known: bool := *;
      raised := false;
      if known {
        var ok := EnsureOutputs([Audio], calm);
        raised := !ok;
        if ok {
          assert HasKind(outputs, [Audio][0]);
          var fault := AnyFault(calm);
          var payload: string := *;
          ok := CompleteKind(Audio, payload, fault);
          raised := !ok;
        }
      }
      if HasScript(before) {
        ScriptKept(before, outputs, Audio);
      }
    }

    // ----- cognition -----

    method CreateOutput(language: string, calm: bool) returns (ok: bool, active: Option<nat>)
      modifies this`outputs
      ensures calm ==> ok
      ensures old(outputs) <= outputs <= old(outputs) + [Output(Summary, Some(language), Pending, None)]
      ensures ok ==> active == Some(|old(outputs)|) && |outputs| == |old(outputs)| + 1
      ensures !ok ==> active == None
    {
      var fault := AnyFault(calm);
      if fault != Refused {
        outputs := outputs + [Output(Summary, Some(language), Pending, None)];
      }
      ok := fault == Fine;
      active := if ok then Some(|outputs| - 1) else None;
    }

    /** The row this language is written to: its own, for user tasks the one without a locale, or a new one. */
    method ActiveOutput(language: string, calm: bool) returns (active: Option<nat>)
      modifies this`outputs
      ensures calm ==> active.Some?
      ensures OthersKept(old(outputs), outputs, language, catalog) && old(outputs) <= outputs
      ensures active.Some? ==> active.value < |outputs| && ForLanguage(outputs[active.value], language, catalog)
    {
      var own := FirstSummary(outputs, Some(language));
      if own < |outputs| {
        return Some(own);
      }
      if !catalog {
        var unnamed := FirstSummary(outputs, None);
        if unnamed < |outputs| {
          return Some(unnamed);
        }
      }
      var ok;
      ok, active := CreateOutput(language, calm);
    }

    /** update_output_status on one row */
    method UpdateOutput(i: nat, newStatus: Status, content: string, locale: Option<string>, fault: Fault)
      returns (ok: bool)
      requires i < |outputs|
      modifies this`outputs
      ensures ok ==> fault == Fine
      ensures outputs == if fault == Refused then old(outputs)
                         else old(outputs)[i := old(outputs)[i].(status := newStatus, content := Some(content),
                                                                 locale := if locale.Some? then locale
                                                                           else old(outputs)[i].locale)]
      ensures fault == Fine ==> ok
    {
      ok := fault == Fine;
      if fault != Refused {
        outputs := outputs[i := outputs[i].(status := newStatus, content := Some(content),
                                            locale := if locale.Some? then locale else outputs[i].locale)];
      }
    }

    /** One turn of the language loop. A summary that is already there and valid is kept. */
    method SummarizeInto(language: string, reply: Option<string>, judge: Judge, calm: bool)
      returns (ok: bool, active: Option<nat>)
      modifies this`outputs
      ensures calm && reply.Some? && judge.Accepts(reply.value, language, catalog) ==> ok
      ensures OthersKept(old(outputs), outputs, language, catalog)
      ensures active.Some? ==> active.value < |outputs| && ForLanguage(outputs[active.value], language, catalog)
      ensures ok ==> Serves(outputs, language, catalog, judge)
    {
      active := ActiveOutput(language, calm);
      if active.None? {
        return false, active;
      }
      var row := outputs[active.value];
      if row.status == Completed && ContentOf(row.content) != ""
         && judge.Accepts(ContentOf(row.content), language, catalog) {
        assert SummaryFor(outputs, active.value, language, catalog, judge);
        return true, active;
      }
      if reply.None? || !judge.Accepts(reply.value, language, catalog) {
        return false, active;
      }
      var fault := AnyFault(calm);
      ok := UpdateOutput(active.value, Completed, judge.stored(reply.value), Some(language), fault);
      assert ok ==> SummaryFor(outputs, active.value, language, catalog, judge);
    }

    /** _run_summarize; `failed` is the exception it returns, `raised` one that leaves it. */
    method RunSummarize(world: World, judge: Judge) returns (raised: bool, failed: bool)
      modifies this`outputs, this`status, this`error
      ensures status == old(status) || status == Processing
      ensures OnlyKind(old(outputs), outputs, Summary)
      ensures !raised && !failed ==> forall l :: l in world.Languages(catalog) ==> Serves(outputs, l, catalog, judge)
      ensures world.calm && world.Answers(catalog, judge) ==> !raised && !failed
    {
      raised, failed := false, false;
      AdvanceProgress(world.calm);
      var setup := AnyFault(world.calm);
      if setup != Fine {
        return false, true;
      }
      var languages := world.Languages(catalog);
      for n := 0 to |languages|
        invariant OnlyKind(old(outputs), outputs, Summary) && (status == old(status) || status == Processing)
        invariant forall m :: 0 <= m < n ==> Serves(outputs, languages[m], catalog, judge)
      {
        var cancelled := Cancelled(world.calm);
        if cancelled {
          return true, true;
        }
        ghost var before := outputs;
        assert n == 1 ==> catalog && Serves(before, languages[0], catalog, judge);
        var ok, active := SummarizeInto(languages[n], world.replies(languages[n]), judge, world.calm);
        OthersKeptOnlySummaries(before, outputs, languages[n], catalog);
        OnlyKindTransitive(old(outputs), before, outputs);
        if !ok {
          assert languages[n] in world.Languages(catalog);
          if active.Some? {
            ghost var mid := outputs;
            var fault := AnyFault(world.calm);
            ok := UpdateOutput(active.value, Error, "", None, fault);
            OnlyKindTransitive(old(outputs), mid, outputs);
            return !ok, true;
          }
          return false, true;
        }
        if n == 1 {
          ServesStays(before, outputs, EN, ZH, judge);
        }
      }
      AdvanceProgress(world.calm);
    }

    /** _advance_task_progress swallows every failure. */
    method AdvanceProgress(calm: bool)
      modifies this`status, this`error
      ensures status == old(status) || status == Processing
    {
      var due: bool := *;
      var fault := AnyFault(calm);
      if due {
        var ok := UpdateTaskStatus(Processing, None, fault);
      }
    }

    method Cognition(s: State, world: World, judge: Judge) returns (raised: bool, s': State)
      requires s.transcript != "" ==> HasScript(outputs)
      modifies this`outputs, this`status, this`error
      ensures status == old(status) || status == Processing
      ensures s.errors <= s'.errors
      ensures !raised && s'.errors == [] ==> Complete(outputs, catalog, judge)
      ensures world.calm && |Strip(s.transcript)| >= 50 && world.Answers(catalog, judge) ==>
                !raised && s'.errors == s.errors
      ensures world.calm && s.transcript == "" ==> !raised
    {
      raised, s' := false, s;
      if s.transcript == "" {
        return false, s.(errors := s.errors + ["No transcript text available for cognition"]);
      }
      if |Strip(s.transcript)| < 50 {
        return false, s.(errors := s.errors + ["Transcript too short for analysis"]);
      }
      AdvanceProgress(world.calm);
      ghost var before := outputs;
      var failed;
      raised, failed := RunSummarize(world, judge);
      ScriptKept(before, outputs, Summary);
      if failed {
        var message: string := *;
        s' := s.(errors := s.errors + [message]);
      } else if !raised {
        ServedIsComplete(outputs, world.primary, catalog, judge);
      }
    }

    // ----- cleanup and the graph -----

    method Cleanup(s: State, calm: bool) returns (raised: bool)
      modifies this`status, this`error
      ensures calm ==> !raised
      ensures s.errors == [] ==> status == old(status) || status == Completed
      ensures s.errors != [] ==> status == old(status) || status == Error
      ensures !raised ==> status == if s.errors == [] then Completed else Error
    {
      var fault := AnyFault(calm);
      var ok;
      if s.errors == [] {
        ok := UpdateTaskStatus(Completed, None, fault);
      } else {
        ok := UpdateTaskStatus(Error, Some(Join("; ", s.errors)), fault);
      }
      raised := !ok;
    }

    /** One attempt. A task that becomes completed has everything it owes, except exactly where reusing earlier
      * outputs leaves some out. */
    method RunPipeline(world: World, judge: Judge) returns (outcome: Outcome)
      requires status != Completed
      requires world.reusable.Some? ==> DistinctKeys(world.reusable.value)
      modifies this
      ensures status == Completed ==>
                (Complete(outputs, catalog, judge) <==> !world.Loses(old(outputs), catalog, judge))
      ensures world.calm && world.Loses(old(outputs), catalog, judge) ==> outcome == Done
      ensures outcome.Done? ==> status == Completed
      ensures outcome.Fatal? ==> status == Error && CaptionError(outcome.message)
      ensures status == Completed ==> !outcome.Fatal?
      // an undisturbed first attempt succeeds where it can, and where it cannot says so for good
      ensures world.Suffices(catalog, judge) && !Barred(old(status), old(error)) ==> outcome == Done
      ensures world.LacksCaptions() && NoPersistedScript(old(outputs)) ==> outcome.Fatal?
    {
      var s := CheckCache(world, judge);
      var raised := false;
      var node := RouteAfterCache(s);
      if node == ToIngest {
        raised, s := Ingest(s, world);
        if raised {
          return Failed;
        }
      }
      if node != ToCleanup {
        raised, s := Cognition(s, world, judge);
        if raised {
          return Failed;
        }
      }
      raised := Cleanup(s, world.calm);
      if raised {
        return Failed;
      }
      if s.errors == [] {
        return Done;
      }
      var message := Join("; ", s.errors);
      outcome := if CaptionError(message) then Fatal(message) else Failed;
    }
  }

  function FirstSummary(outputs: seq<Output>, locale: Option<string>): (i: nat)
    ensures i <= |outputs|
    ensures i < |outputs| ==> outputs[i].kind == Summary && outputs[i].locale == locale
  {
    if outputs == [] then 0
    else if outputs[0].kind == Summary && outputs[0].locale == locale then 0
    else 1 + FirstSummary(outputs[1..], locale)
  }

  lemma KindsStay(outputs: seq<Output>, kind: Kind, content: string)
    ensures forall k :: HasKind(outputs, k) ==> HasKind(WithKind(outputs, kind, content), k)
  {
    var after := WithKind(outputs, kind, content);
    forall k | HasKind(outputs, k)
      ensures HasKind(after, k)
    {
      var o :| o in outputs && o.kind == k;
      var i :| 0 <= i < |outputs| && outputs[i] == o;
      assert after[i] in after && after[i].kind == k;
    }
  }

  lemma CompletedKind(outputs: seq<Output>, kind: Kind, content: string)
    requires HasKind(outputs, kind) && content != ""
    ensures exists i :: DoneAt(WithKind(outputs, kind, content), i, kind)
  {
    var o :| o in outputs && o.kind == kind;
    var i :| 0 <= i < |outputs| && outputs[i] == o;
    assert DoneAt(WithKind(outputs, kind, content), i, kind);
  }

  predicate ForLanguage(o: Output, language: string, catalog: bool) {
    o.kind == Summary && (o.locale == Some(language) || (!catalog && o.locale.None?))
  }

  /** Rows stay as they are, except summaries that are written for `language`. */
  predicate OthersKept(before: seq<Output>, after: seq<Output>, language: string, catalog: bool) {
    && |before| <= |after|
    && forall i :: 0 <= i < |before| ==>
         after[i] == before[i] || (ForLanguage(before[i], language, catalog) && after[i].kind == Summary)
  }

  lemma OthersKeptOnlySummaries(before: seq<Output>, after: seq<Output>, language: string, catalog: bool)
    requires OthersKept(before, after, language, catalog)
    ensures OnlyKind(before, after, Summary)
  {
  }

  lemma OnlyKindTransitive(a: seq<Output>, b: seq<Output>, c: seq<Output>)
    requires OnlyKind(a, b, Summary) && OnlyKind(b, c, Summary)
    ensures OnlyKind(a, c, Summary)
  {
  }

  /** Writing one catalog language leaves the other one's summary. */
  lemma ServesStays(before: seq<Output>, after: seq<Output>, language: string, other: string, judge: Judge)
    requires OthersKept(before, after, other, true) && language != other && Serves(before, language, true, judge)
    ensures Serves(after, language, true, judge)
  {
    var i :| SummaryFor(before, i, language, true, judge);
    assert SummaryFor(after, i, language, true, judge);
  }

  lemma ServedIsComplete(outputs: seq<Output>, primary: string, catalog: bool, judge: Judge)
    requires HasScript(outputs)
    requires Serves(outputs, if catalog then EN else primary, catalog, judge)
             && (catalog ==> Serves(outputs, ZH, true, judge))
    ensures Complete(outputs, catalog, judge)
  {
    LocalesAreLower();
    if catalog {
      var i :| SummaryFor(outputs, i, EN, true, judge);
      assert SummaryAt(outputs, i, EN, true, judge);
      var j :| SummaryFor(outputs, j, ZH, true, judge);
      assert SummaryAt(outputs, j, ZH, true, judge);
    } else {
      var i :| SummaryFor(outputs, i, primary, false, judge);
      assert DoneAt(outputs, i, Summary);
    }
  }

  lemma {:induction false} CopyErrorFree(c: Copying, rows: seq<Output>, faults: nat -> Fault, catalog: bool,
                                         judge: Judge)
    requires c.state.errors == []
    ensures CopyAll(c, rows, faults, catalog, judge).state.errors == []
  {
    if rows != [] {
      CopyErrorFree(c, rows[..|rows| - 1], faults, catalog, judge);
    }
  }
}
