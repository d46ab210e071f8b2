/** What sequences of discovery runs do to the backfill of one source. */
module Backfill {
  import opened Common
  import opened Discovery

  /** One source between runs: its playlist as the lister sees it, its row, and the episode table. */
  datatype State = State(source: Source, row: Progress, episodes: Episodes)

  /** What happens to a source: the channel publishes, or a run passes over it. */
  datatype Change = Publication | Run(st: Settings, limit: int, answer: Answer, effective: bool)

  predicate GrownAtFront(before: seq<Entry>, after: seq<Entry>) {
    |before| <= |after| && after[|after| - |before|..] == before
  }

  /** Links may meanwhile appear through other sources. */
  ghost predicate Changes(s: State, s': State, c: Change) {
    && LinksKept(s.episodes, s'.episodes)
    && match c
       case Publication =>
         s'.row == s.row && s'.source == s.source.(playlist := s'.source.playlist)
         && GrownAtFront(s.source.playlist, s'.source.playlist)
       case Run(st, limit, answer, effective) =>
         && st.Valid() && s'.source == s.source && st.window <= limit
         && Passes(s.row, s'.row, s.source, st, limit, answer, s'.episodes, effective)
  }

  ghost predicate History(states: seq<State>, changes: seq<Change>) {
    && |states| == |changes| + 1
    && forall i :: 0 <= i < |changes| ==> Changes(states[i], states[i + 1], changes[i])
  }

  /** How many entries have been published in front of the original ones. */
  function Growth(states: seq<State>, i: nat): int
    requires i < |states|
  {
    |states[i].source.playlist| - |states[0].source.playlist|
  }

  /** Run `j` moved the cursor over original entry `p` and rejected it. */
  predicate RejectedBy(states: seq<State>, changes: seq<Change>, p: nat, j: nat)
    requires |states| == |changes| + 1
  {
    && j < |changes| && changes[j].Run? && p < |states[0].source.playlist| && states[0].source.playlist[p].Listed?
    && states[j].row.cursor <= p + Growth(states, j) < states[j + 1].row.cursor
    && !Eligible(states[0].source.playlist[p].episode, states[0].source.minDuration, changes[j].st)
  }

  /** The entry is linked to a task, or the run that examined it rejected it. */
  ghost predicate Examined(states: seq<State>, changes: seq<Change>, p: nat)
    requires |states| == |changes| + 1
  {
    && p < |states[0].source.playlist| && states[0].source.playlist[p].Listed?
    && ( || IsLinked(states[|changes|].episodes, states[0].source.playlist[p].episode.url)
         || exists j :: RejectedBy(states, changes, p, j))
  }

  lemma ListedAt(entries: seq<Entry>, j: nat) returns (r: nat)
    requires j < |entries| && entries[j].Listed?
    ensures r <= j && r < |ListedEpisodes(entries)| && ListedEpisodes(entries)[r] == entries[j].episode
  {
    var last := |entries| - 1;
    if j == last {
      r := |ListedEpisodes(entries[..last])|;
    } else {
      r := ListedAt(entries[..last], j);
    }
  }

  lemma ShiftedPosition(before: seq<Entry>, after: seq<Entry>, p: nat)
    requires GrownAtFront(before, after) && p < |before|
    ensures after[p + |after| - |before|] == before[p]
  {
  }

  lemma {:induction false} PlaylistOnlyGrows(states: seq<State>, changes: seq<Change>)
    requires History(states, changes)
    ensures GrownAtFront(states[0].source.playlist, states[|changes|].source.playlist)
    ensures states[|changes|].source == states[0].source.(playlist := states[|changes|].source.playlist)
  {
    if changes != [] {
      var n := |changes| - 1;
      PlaylistOnlyGrows(states[..n + 1], changes[..n]);
      assert Changes(states[n], states[n + 1], changes[n]);
      var a, b, c := states[0].source.playlist, states[n].source.playlist, states[n + 1].source.playlist;
      assert c[|c| - |a|..] == c[|c| - |b|..][|b| - |a|..];
    }
  }

  /** Whatever runs failed on the way, every original entry now before the cursor is linked, or was rejected by
    * the very run that moved the cursor over it. */
  lemma {:induction false} NeverSkips(states: seq<State>, changes: seq<Change>, p: nat)
    requires History(states, changes) && states[0].row.cursor == 0
    requires p < |states[0].source.playlist| && states[0].source.playlist[p].Listed?
    requires p + Growth(states, |changes|) < states[|changes|].row.cursor
    ensures Examined(states, changes, p)
  {
    if changes == [] { return; }
    var n := |changes| - 1;
    var s, s' := states[n], states[n + 1];
    assert Changes(s, s', changes[n]);
    PlaylistOnlyGrows(states[..n + 1], changes[..n]);
    var at := p + Growth(states, n);
    if at < s.row.cursor {
      NeverSkips(states[..n + 1], changes[..n], p);
      ExaminedStays(states, changes, p);
    } else {
      ShiftedPosition(states[0].source.playlist, s.source.playlist, p);
      MovedOver(s.row, s'.row, s.source, changes[n], s'.episodes, at);
      assert IsLinked(s'.episodes, s.source.playlist[at].episode.url) || RejectedBy(states, changes, p, n);
    }
  }

  lemma ExaminedStays(states: seq<State>, changes: seq<Change>, p: nat)
    requires History(states, changes) && changes != []
    requires Examined(states[..|changes|], changes[..|changes| - 1], p)
    ensures Examined(states, changes, p)
  {
    var n := |changes| - 1;
    assert Changes(states[n], states[n + 1], changes[n]);
    if !IsLinked(states[n].episodes, states[0].source.playlist[p].episode.url) {
      var j :| RejectedBy(states[..n + 1], changes[..n], p, j);
      assert RejectedBy(states, changes, p, j);
    }
  }

  /** Entries that one run moves the cursor over are settled by it. */
  lemma MovedOver(before: Progress, after: Progress, source: Source, run: Change, episodes: Episodes, at: nat)
    requires run.Run? && Passes(before, after, source, run.st, run.limit, run.answer, episodes, run.effective)
    requires before.cursor <= at < after.cursor && at < |source.playlist| && source.playlist[at].Listed?
    ensures Settled(source.playlist[at].episode, source.minDuration, run.st, episodes)
  {
    var found := Discover(run.answer, source.playlist, before.cursor, run.limit);
    var k: nat :| Consumes(before, after, found, k, source.minDuration, run.st, episodes);
    var r := ListedInWindow(source.playlist, before.cursor, run.limit, at, k);
    assert Settled(found[r], source.minDuration, run.st, episodes);
  }

  lemma ListedInWindow(playlist: seq<Entry>, cursor: nat, limit: int, at: nat, k: nat) returns (r: nat)
    requires k <= |ListedEpisodes(Window(playlist, cursor, limit))|
    requires cursor <= at < cursor + k && at < |playlist| && playlist[at].Listed?
    ensures r < k && ListedEpisodes(Window(playlist, cursor, limit))[r] == playlist[at].episode
  {
    var window := Window(playlist, cursor, limit);
    assert window[at - cursor] == playlist[at];
    r := ListedAt(window, at - cursor);
  }

  // ----- Completion -----

  ghost predicate Blank(entries: seq<Entry>) {
    forall i :: 0 <= i < |entries| ==> entries[i].Malformed?
  }

  /** The entries the cursor has not moved over yet. */
  function Rest(playlist: seq<Entry>, cursor: nat): seq<Entry> {
    if cursor <= |playlist| then playlist[cursor..] else []
  }

  lemma {:induction false} NoEpisodesIff(entries: seq<Entry>)
    ensures ListedEpisodes(entries) == [] <==> Blank(entries)
  {
    if entries != [] {
      var last := |entries| - 1;
      NoEpisodesIff(entries[..last]);
      if Blank(entries[..last]) && entries[last].Malformed? {
        forall i | 0 <= i < |entries|
          ensures entries[i].Malformed?
        {
          assert i < last ==> entries[..last][i] == entries[i];
        }
      }
    }
  }

  /** Exactly when `discover` returns nothing: no usable answer, or a window of malformed entries only. */
  lemma EmptyListingIff(answer: Answer, playlist: seq<Entry>, cursor: nat, limit: int)
    ensures Discover(answer, playlist, cursor, limit) == [] <==>
              answer != Items || Blank(Window(playlist, cursor, limit))
  {
    NoEpisodesIff(Window(playlist, cursor, limit));
  }

  /** The pass completes a backfill although entries are left that it never looked at. */
  ghost predicate CompletesEarly(before: Progress, after: Progress, playlist: seq<Entry>) {
    after != before && after.completedAt.Some? && !Blank(Rest(playlist, after.cursor))
  }

  /** Exactly when that happens: listed entries are left, and the lister printed nothing, printed no list, or
    * answered with a window of malformed entries. */
  lemma CompletesEarlyIff(before: Progress, after: Progress, source: Source, st: Settings, limit: int, answer: Answer,
                          episodes: Episodes, effective: bool)
    requires Passes(before, after, source, st, limit, answer, episodes, effective) && after != before
    ensures CompletesEarly(before, after, source.playlist) <==>
              && !Blank(Rest(source.playlist, before.cursor))
              && (answer != Items || Blank(Window(source.playlist, before.cursor, limit)))
  {
    var found := Discover(answer, source.playlist, before.cursor, limit);
    var k: nat :| Consumes(before, after, found, k, source.minDuration, st, episodes);
    EmptyListingIff(answer, source.playlist, before.cursor, limit);
  }

  /** A run that completes a backfill, not early, leaves every original entry linked or rejected by the run that
    * examined it. */
  lemma CompletionIsSound(states: seq<State>, changes: seq<Change>, p: nat)
    requires History(states, changes) && states[0].row.cursor == 0 && changes != []
    requires p < |states[0].source.playlist| && states[0].source.playlist[p].Listed?
    requires var n := |changes| - 1;
             && changes[n].Run? && states[n].row != states[n + 1].row && states[n + 1].row.completedAt.Some?
             && (Blank(Rest(states[n].source.playlist, states[n].row.cursor)) ||
                 (changes[n].answer == Items
                  && !Blank(Window(states[n].source.playlist, states[n].row.cursor, changes[n].limit))))
    ensures Examined(states, changes, p)
  {
    var n := |changes| - 1;
    var s, s' := states[n], states[n + 1];
    assert Changes(s, s', changes[n]);
    PlaylistOnlyGrows(states[..n + 1], changes[..n]);
    var at := p + Growth(states, n);
    ShiftedPosition(states[0].source.playlist, s.source.playlist, p);
    CompletesEarlyIff(s.row, s'.row, s.source, changes[n].st, changes[n].limit, changes[n].answer, s'.episodes,
                      changes[n].effective);
    BlankRest(s.source.playlist, s'.row.cursor);
    NeverSkips(states, changes, p);
  }

  lemma BlankRest(playlist: seq<Entry>, cursor: nat)
    requires Blank(Rest(playlist, cursor))
    ensures forall i :: 0 <= i < |playlist| && playlist[i].Listed? ==> i < cursor
  {
    forall i | cursor <= i < |playlist|
      ensures playlist[i].Malformed?
    {
      assert playlist[i] == playlist[cursor..][i - cursor];
    }
  }

  /** And it does happen, from every cursor and under all settings: whenever listed entries are left and the
    * answer or the window is empty, the pass in which nothing fails leaves them behind. Only a run that
    * names the source lists it again. */
  lemma CompletesEarlyHappens(before: Progress, source: Source, st: Settings, limit: int, answer: Answer,
                              episodes: Episodes, now: int)
    returns (after: Progress)
    requires st.mode == Backfill && answer != Fails && before.completedAt.None?
    requires !Blank(Rest(source.playlist, before.cursor))
    requires answer != Items || Blank(Window(source.playlist, before.cursor, limit))
    ensures after == Progress(before.cursor, Some(now), Some(now))
    ensures Passes(before, after, source, st, limit, answer, episodes, true)
            && CompletesEarly(before, after, source.playlist)
  {
    after := Progress(before.cursor, Some(now), Some(now));
    EmptyListingIff(answer, source.playlist, before.cursor, limit);
    assert Consumes(before, after, Discover(answer, source.playlist, before.cursor, limit), 0, source.minDuration, st,
                    episodes);
  }

  // ----- Progress -----

  /** One backfill pass over an unchanged playlist. */
  ghost predicate PassesOver(rows: seq<Progress>, runs: seq<Change>, source: Source, episodes: seq<Episodes>) {
    && |rows| == |runs| + 1 && |episodes| == |runs|
    && forall i :: 0 <= i < |runs| ==>
         runs[i].Run?
         && Passes(rows[i], rows[i + 1], source, runs[i].st, runs[i].limit, runs[i].answer, episodes[i],
                   runs[i].effective)
  }

  function EffectiveRuns(runs: seq<Change>): nat {
    if runs == [] then 0
    else EffectiveRuns(runs[..|runs| - 1]) + if runs[|runs| - 1].Run? && runs[|runs| - 1].effective then 1 else 0
  }

  lemma {:induction false} CursorMoves(rows: seq<Progress>, runs: seq<Change>, source: Source, episodes: seq<Episodes>)
    requires PassesOver(rows, runs, source, episodes) && rows[0].cursor <= |source.playlist|
    requires forall i :: 0 <= i < |rows| ==> rows[i].completedAt.None?
    ensures rows[0].cursor + EffectiveRuns(runs) <= rows[|runs|].cursor <= |source.playlist|
  {
    if runs != [] {
      var n := |runs| - 1;
      CursorMoves(rows[..n + 1], runs[..n], source, episodes[..n]);
      var run := runs[n];
      var found := Discover(run.answer, source.playlist, rows[n].cursor, run.limit);
      assert Passes(rows[n], rows[n + 1], source, run.st, run.limit, run.answer, episodes[n], run.effective);
      if rows[n + 1] != rows[n] || run.effective {
        var k: nat :| Consumes(rows[n], rows[n + 1], found, k, source.minDuration, run.st, episodes[n]) &&
          (run.effective && found != [] ==> k > 0);
      }
    }
  }

  /** One more effective run than there are entries left completes the backfill, whatever other runs fail.
    * `Repository.Run` promises an effective pass over every source it checks where nothing fails. */
  lemma BackfillCompletes(rows: seq<Progress>, runs: seq<Change>, source: Source, episodes: seq<Episodes>)
    requires PassesOver(rows, runs, source, episodes) && rows[0].cursor <= |source.playlist|
    requires EffectiveRuns(runs) > |source.playlist| - rows[0].cursor
    ensures exists i :: 0 <= i < |rows| && rows[i].completedAt.Some?
  {
    if forall i :: 0 <= i < |rows| ==> rows[i].completedAt.None? {
      CursorMoves(rows, runs, source, episodes);
      assert false;
    }
  }
}
