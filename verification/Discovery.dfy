/** Podcast discovery: one run of PodcastDiscoveryService over the catalog database. */
module Discovery {
  import opened Common

  /** A playlist position as the lister reports it; entries without an id or a title are dropped. */
  datatype Entry = Malformed | Listed(episode: Episode)

  datatype Episode = Episode(url: string, duration: Option<nat>, publishedAt: Option<int>)

  datatype Mode = Recent | Backfill

  datatype Source = Source(id: string, minDuration: int, maxNew: int, playlist: seq<Entry>)

  /** The backfill columns of a source row. */
  datatype Progress = Progress(cursor: nat, checkedAt: Option<int>, completedAt: Option<int>)

  /** The episode rows by url, each with its task once it is linked. */
  type Episodes = map<string, Option<string>>

  datatype Settings = Settings(mode: Mode, cutoff: int, maxEnqueues: int, multiplier: int, window: int) {
    predicate Valid() {
      maxEnqueues > 0 && multiplier > 0 && window > 0
    }
  }

  datatype Stats = Stats(
    checked: nat,
    seen: nat,
    queued: nat,
    linked: nat,
    filtered: nat,
    failures: nat,
    completed: nat)

  const NO_STATS := Stats(0, 0, 0, 0, 0, 0, 0)

  /** How the lister answers: it fails, prints nothing, prints JSON without a list of entries, or the entries. */
  datatype Answer = Fails | NoOutput | NoEntryList | Items

  /** What fails while one episode is handled. */
  datatype StepFault = Fine | UpsertFails | SubmitFails | LinkFails

  /** The lister's answer for one source, and what fails while it is handled: some episode, the cursor
    * write, the final mark, and the mark of the error handler, whose failure ends the whole run. */
  datatype SourceFaults = SourceFaults(answer: Answer, step: nat -> StepFault, advance: bool, mark: bool,
                                       handlerMark: bool) {
    ghost predicate Absent() {
      answer != Fails && !advance && !mark && forall i :: step(i) == Fine
    }
  }

  /** What becomes of one episode. */
  datatype Outcome = Filtered | AlreadyLinked | Queued | Raised

  // ----- Pure parts -----

  function ListedEpisodes(entries: seq<Entry>): (r: seq<Episode>)
    ensures |r| <= |entries|
  {
    if entries == [] then []
    else
      var last := entries[|entries| - 1];
      ListedEpisodes(entries[..|entries| - 1]) + if last.Listed? then [last.episode] else []
  }

  /** The playlist items `offset + 1` to `offset + limit`, counted from one; the last is at least the first. */
  function Window(playlist: seq<Entry>, offset: nat, limit: int): (r: seq<Entry>)
    ensures offset <= |playlist| ==> offset + |r| <= |playlist|
    ensures offset > |playlist| ==> r == []
    ensures forall i :: 0 <= i < |r| ==> r[i] == playlist[offset + i]
  {
    var last := Min(Max(offset + limit, 1), |playlist|);
    if offset >= last then [] else playlist[offset..last]
  }

  /** The episodes `discover` returns; an answer without entries counts as an empty list. */
  function Discover(answer: Answer, playlist: seq<Entry>, offset: nat, limit: int): seq<Episode> {
    if answer.Items? then ListedEpisodes(Window(playlist, offset, limit)) else []
  }

  predicate Eligible(e: Episode, minDuration: int, st: Settings) {
    && (e.duration.Some? ==> e.duration.value >= minDuration)
    && (e.publishedAt.Some? ==>
          (st.mode == Recent ==> e.publishedAt.value >= st.cutoff) &&
          (st.mode == Backfill ==> e.publishedAt.value < st.cutoff))
  }

  predicate IsLinked(episodes: Episodes, url: string) {
    url in episodes && episodes[url].Some?
  }

  /** The episode needs no further work: it was filtered out, or it has its task. */
  predicate Settled(e: Episode, minDuration: int, st: Settings, episodes: Episodes) {
    !Eligible(e, minDuration, st) || IsLinked(episodes, e.url)
  }

  predicate AllSettled(found: seq<Episode>, n: nat, minDuration: int, st: Settings, episodes: Episodes)
    requires n <= |found|
  {
    forall i :: 0 <= i < n ==> Settled(found[i], minDuration, st, episodes)
  }

  lemma AllSettledNext(found: seq<Episode>, n: nat, minDuration: int, st: Settings, before: Episodes, after: Episodes)
    requires n < |found| && AllSettled(found, n, minDuration, st, before) && LinksKept(before, after)
    ensures AllSettled(found, n, minDuration, st, after)
    ensures Settled(found[n], minDuration, st, after) ==> AllSettled(found, n + 1, minDuration, st, after)
  {
  }

  function PerSourceLimit(source: Source, st: Settings, stats: Stats): int {
    Min(source.maxNew, st.maxEnqueues - stats.queued)
  }

  function CandidateLimit(limit: int, st: Settings): int {
    if st.mode == Recent then Max(limit * st.multiplier, limit) else Max(st.window, limit)
  }

  /** Links are never taken back or changed. */
  ghost predicate LinksKept(before: Episodes, after: Episodes) {
    forall u :: IsLinked(before, u) ==> IsLinked(after, u) && after[u] == before[u]
  }

  /** A link as it was written: the episode, and the source on whose behalf. */
  datatype Link = Link(url: string, source: string)

  ghost predicate NoDuplicates(links: seq<Link>) {
    forall i, j :: 0 <= i < j < |links| ==> links[i].url != links[j].url
  }

  ghost predicate IsRecorded(links: seq<Link>, url: string) {
    exists l :: l in links && l.url == url
  }

  function LinksFor(links: seq<Link>, source: string): nat {
    if links == [] then 0
    else LinksFor(links[..|links| - 1], source) + if links[|links| - 1].source == source then 1 else 0
  }

  /** `n` more links have been written, all of them for `source`. */
  ghost predicate LinksAdded(before: seq<Link>, after: seq<Link>, source: string, n: int) {
    && |after| == |before| + n
    && forall o :: LinksFor(after, o) == LinksFor(before, o) + if o == source then n else 0
  }

  lemma LinksAddedNext(before: seq<Link>, after: seq<Link>, link: Link, n: int)
    requires LinksAdded(before, after, link.source, n)
    ensures LinksAdded(before, after + [link], link.source, n + 1)
  {
    assert (after + [link])[..|after|] == after;
  }

  /** Seen episodes not accounted for as filtered, already linked or queued. */
  function Unaccounted(s: Stats): int {
    s.seen - s.filtered - s.linked - s.queued
  }

  /** The books after one more episode. */
  function Counted(s: Stats, outcome: Outcome): Stats {
    var seen := s.(seen := s.seen + 1);
    match outcome
    case Filtered => seen.(filtered := s.filtered + 1)
    case AlreadyLinked => seen.(linked := s.linked + 1)
    case Queued => seen.(queued := s.queued + 1)
    case Raised => seen
  }

  /** The books and the source's budget in the episode loop. */
  predicate Consuming(stats: Stats, end: Stats, st: Settings, limit: int, left: int, consumed: nat) {
    && end == stats.(seen := end.seen, queued := end.queued, linked := end.linked, filtered := end.filtered)
    && stats.queued <= end.queued <= st.maxEnqueues && left == limit - (end.queued - stats.queued)
    && left >= Min(limit, 0)
    && stats.filtered <= end.filtered && stats.linked <= end.linked
    && end.seen == stats.seen + consumed && Unaccounted(end) == Unaccounted(stats)
  }

  /** The increments of the episode loop. */
  method Count(stats: Stats, left: int, outcome: Outcome) returns (end: Stats, left': int)
    ensures end == Counted(stats, outcome) && left' == if outcome == Queued then left - 1 else left
  {
    end, left' := stats.(seen := stats.seen + 1), left;
    match outcome
    case Filtered => end := end.(filtered := end.filtered + 1);
    case AlreadyLinked => end := end.(linked := end.linked + 1);
    case Queued => end, left' := end.(queued := end.queued + 1), left' - 1;
    case Raised =>
  }

  lemma CountedNext(stats: Stats, end: Stats, st: Settings, limit: int, left: int, consumed: nat, outcome: Outcome)
    requires Consuming(stats, end, st, limit, left, consumed) && left > 0 && end.queued < st.maxEnqueues
    ensures outcome != Raised ==>
              Consuming(stats, Counted(end, outcome), st, limit, if outcome == Queued then left - 1 else left,
                        consumed + 1)
    ensures Counted(end, Raised) == end.(seen := end.seen + 1)
  {
  }

  /** What a run may be seen to change: the rows, and the links written and how many submissions were made. */
  datatype Snapshot = Snapshot(
    progress: map<string, Progress>,
    lastChecked: map<string, int>,
    clock: int,
    episodes: Episodes,
    links: seq<Link>,
    submitted: nat)

  class Repository {
    var lastChecked: map<string, int>
    var progress: map<string, Progress>
    var episodes: Episodes
    var clock: int
    // the submissions made and the links written, in order
    ghost var submitted: seq<string>
    ghost var links: seq<Link>

    /** Every link ever written is in force, and none was written twice; the clock is ahead. */
    ghost predicate Valid()
      reads this
    {
      && NoDuplicates(links)
      && (forall u :: IsRecorded(links, u) <==> IsLinked(episodes, u))
      && (forall id :: id in lastChecked ==> lastChecked[id] < clock)
    }

    ghost function Snap(): Snapshot
      reads this
    {
      Snapshot(progress, lastChecked, clock, episodes, links, |submitted|)
    }

    method UpsertEpisode(url: string) returns (task: Option<string>)
      requires Valid()
      modifies this`episodes
      ensures Valid() && url in episodes && task == episodes[url]
      ensures episodes == if url in old(episodes) then old(episodes) else old(episodes)[url := None]
    {
      if url !in episodes {
        episodes := episodes[url := None];
      }
      task := episodes[url];
    }

    /** The update overwrites whatever task is there; `ok` is false when it raises because there is no row. */
    method LinkEpisodeTask(url: string, ghost source: string, task: string) returns (ok: bool)
      requires Valid()
      modifies this`episodes, this`links
      ensures Valid() && (ok <==> url in old(episodes))
      ensures episodes == if ok then old(episodes)[url := Some(task)] else old(episodes)
      ensures links == if ok && old(episodes)[url].None? then old(links) + [Link(url, source)] else old(links)
    {
      ok := url in episodes;
      if ok {
        if episodes[url].None? {
          LinkedOnce(episodes, links, Link(url, source), task);
          links := links + [Link(url, source)];
        }
        episodes := episodes[url := Some(task)];
      }
    }

    method MarkSourceChecked(id: string)
      requires Valid()
      modifies this`lastChecked, this`clock
      ensures Valid() && clock > old(clock)
      ensures lastChecked == old(lastChecked)[id := old(clock)]
    {
      lastChecked := lastChecked[id := clock];
      clock := clock + 1;
    }

    method AdvanceBackfillCursor(id: string, nextCursor: int, completed: bool)
      requires Valid()
      modifies this`progress, this`clock
      ensures Valid() && clock > old(clock)
      ensures progress == old(progress)[id :=
                Progress(if nextCursor < 0 then 0 else nextCursor, Some(old(clock)),
                         if completed then Some(old(clock)) else None)]
    {
      progress := progress[id := Progress(Max(nextCursor, 0), Some(clock), if completed then Some(clock) else None)];
      clock := clock + 1;
    }

    /** The episode loop. `ok` is false when an exception leaves it. */
    method ConsumeEpisodes(found: seq<Episode>, source: Source, limit: int, st: Settings, stats: Stats,
                           step: nat -> StepFault, task: string -> string)
      returns (ok: bool, consumed: nat, end: Stats)
      requires Valid() && stats.queued < st.maxEnqueues
      modifies this`episodes, this`links, this`submitted
      ensures Valid() && LinksKept(old(episodes), episodes)
      ensures consumed <= |found| && ((forall i :: step(i) == Fine) ==> ok)
      ensures ok ==> AllSettled(found, consumed, source.minDuration, st, episodes)
      // the loop ends early only when a budget is used up
      ensures ok && consumed < |found| ==> end.queued == st.maxEnqueues || end.queued - stats.queued == Max(limit, 0)
      ensures end == stats.(seen := end.seen, queued := end.queued, linked := end.linked, filtered := end.filtered)
      ensures stats.queued <= end.queued <= st.maxEnqueues && end.queued - stats.queued <= Max(limit, 0)
      ensures end.seen == stats.seen + consumed && stats.filtered <= end.filtered && stats.linked <= end.linked
      ensures Unaccounted(end) == Unaccounted(stats) + if ok then 0 else 1
      ensures LinksAdded(old(links), links, source.id, end.queued - stats.queued)
      ensures end.queued - stats.queued <= |submitted| - |old(submitted)|
              <= end.queued - stats.queued + if ok then 0 else 1
    {
      ok, consumed, end := true, 0, stats;
      var left := limit;
      while consumed < |found|
        invariant Valid() && LinksKept(old(episodes), episodes)
        invariant consumed <= |found|
        invariant AllSettled(found, consumed, source.minDuration, st, episodes)
        invariant Consuming(stats, end, st, limit, left, consumed)
        invariant LinksAdded(old(links), links, source.id, end.queued - stats.queued)
        invariant |submitted| == |old(submitted)| + (end.queued - stats.queued)
      {
        if left <= 0 || end.queued >= st.maxEnqueues {
          break;
        }
        LinksAddedNext(old(links), links, Link(found[consumed].url, source.id), end.queued - stats.queued);
        ghost var before := episodes;
        var outcome := HandleEpisode(found[consumed], source, st, step(consumed), left, end.queued, task);
        AllSettledNext(found, consumed, source.minDuration, st, before, episodes);
        CountedNext(stats, end, st, limit, left, consumed, outcome);
        consumed := consumed + 1;
        end, left := Count(end, left, outcome);
        if outcome == Raised {
          return false, consumed, end;
        }
      }
    }

    /** The body of the episode loop. */
    method HandleEpisode(e: Episode, source: Source, st: Settings, fault: StepFault, left: int, queued: int,
                         task: string -> string)
      returns (outcome: Outcome)
      requires Valid() && left > 0 && queued < st.maxEnqueues
      modifies this`episodes, this`links, this`submitted
      ensures Valid() && LinksKept(old(episodes), episodes)
      ensures outcome == Raised ==> fault != Fine
      ensures outcome != Raised ==> Settled(e, source.minDuration, st, episodes)
      ensures outcome == Filtered <==> !Eligible(e, source.minDuration, st)
      ensures outcome == Queued ==> IsLinked(episodes, e.url) && !IsLinked(old(episodes), e.url)
      ensures outcome == AlreadyLinked ==> IsLinked(old(episodes), e.url)
      ensures links == if outcome == Queued then old(links) + [Link(e.url, source.id)] else old(links)
      ensures |submitted| - |old(submitted)| ==
                if outcome == Queued || (outcome == Raised && fault == LinkFails) then 1 else 0
    {
      if !Eligible(e, source.minDuration, st) {
        return Filtered;
      }
      if fault == UpsertFails {
        return Raised;
      }
      var existing := UpsertEpisode(e.url);
      if existing.Some? {
        return AlreadyLinked;
      }
      if left <= 0 || queued >= st.maxEnqueues {
        assert false; // the budgets were checked before the episode was consumed
      }
      if fault == SubmitFails {
        return Raised;
      }
      submitted := submitted + [e.url];
      if fault == LinkFails {
        return Raised;
      }
      var linked := LinkEpisodeTask(e.url, source.id, task(e.url));
      return Queued;
    }

    /** The guarded part of the source loop: list, consume, advance the cursor, mark. The cursor moves over
      * settled episodes only, and not at all before the listing and every consumed episode succeeded. */
    method TrySource(source: Source, st: Settings, stats: Stats, faults: SourceFaults, task: string -> string)
      returns (ok: bool, end: Stats)
      requires Valid() && st.Valid() && stats.queued < st.maxEnqueues && source.id in progress
      modifies this
      ensures Valid() && LinksKept(old(episodes), episodes)
      ensures OthersKept(old(progress), progress, source.id) && OthersKept(old(lastChecked), lastChecked, source.id)
      ensures clock >= old(clock) && (faults.Absent() ==> ok)
      ensures ok ==> source.id in lastChecked && lastChecked[source.id] >= old(clock)
      ensures source.id in progress
      ensures Passes(old(progress)[source.id], progress[source.id], source, st,
                     CandidateLimit(PerSourceLimit(source, st, stats), st),
                     faults.answer, episodes, ok && st.mode == Backfill && source.maxNew > 0)
      ensures Counts(stats, end, PerSourceLimit(source, st, stats), st, ok)
      ensures Stamped(source.id, old(progress), progress, old(clock), ok && st.mode == Backfill)
      ensures end.completed == stats.completed || (st.mode == Backfill && end.completed == stats.completed + 1)
      ensures LinksAdded(old(links), links, source.id, end.queued - stats.queued)
      ensures end.queued - stats.queued <= |submitted| - |old(submitted)|
              <= end.queued - stats.queued + if ok then 0 else 1
    {
      end := stats;
      if faults.answer == Fails {
        return false, end;
      }
      var limit := PerSourceLimit(source, st, stats);
      var offset := if st.mode == Backfill then progress[source.id].cursor else 0;
      var found := Discover(faults.answer, source.playlist, offset, CandidateLimit(limit, st));
      var consumed;
      ok, consumed, end := ConsumeEpisodes(found, source, limit, st, stats, faults.step, task);
      if !ok {
        return;
      }
      assert limit > 0 && found != [] ==> consumed > 0;
      if st.mode == Backfill {
        if faults.advance {
          return false, end;
        }
        var completed := found == [];
        AdvanceBackfillCursor(source.id, offset + consumed, completed);
        assert Consumes(old(progress)[source.id], progress[source.id], found, consumed, source.minDuration, st,
                        episodes);
        if completed {
          end := end.(completed := end.completed + 1);
        }
      }
      if faults.mark {
        return false, end;
      }
      MarkSourceChecked(source.id);
    }

    /** One source with the error handler around it; `aborted` when the handler itself fails. */
    method HandleSource(source: Source, st: Settings, stats: Stats, faults: SourceFaults, task: string -> string)
      returns (aborted: bool, end: Stats)
      requires Valid() && st.Valid() && stats.queued < st.maxEnqueues && source.id in progress
      modifies this
      ensures Valid() && Handles(old(Snap()), Snap(), source, st, faults, stats, end, aborted)
      ensures aborted ==> faults.handlerMark
      ensures faults.Absent() ==> !aborted && end.failures == stats.failures
    {
      ghost var start := Snap();
      var ok;
      ok, end := TrySource(source, st, stats, faults, task);
      ghost var mid, tried := Snap(), end;
      PassesEffectively(start.progress[source.id], mid.progress[source.id], source, st,
                        CandidateLimit(PerSourceLimit(source, st, stats), st), faults, episodes, ok);
      aborted := false;
      if !ok {
        end := end.(failures := end.failures + 1);
        aborted := faults.handlerMark;
        if !aborted {
          MarkSourceChecked(source.id);
        }
      }
      HandlesTried(start, mid, Snap(), source, st, faults, stats, tried, end, ok, aborted);
    }

    /** One turn of the source loop. */
    method NextSource(plan: Plan, ghost start: Snapshot, stats: Stats, task: string -> string)
      returns (aborted: bool, end: Stats)
      requires Valid() && plan.st.Valid() && stats.checked < |plan.sources| && stats.queued < plan.st.maxEnqueues
      requires Ran(plan, start, Snap(), stats.checked, stats)
      requires Rotates(plan.sources[..stats.checked], start.lastChecked, lastChecked, start.clock)
      modifies this
      ensures Valid() && end.checked == stats.checked + 1
      ensures Ran(plan, start, Snap(), end.checked, end)
      ensures !aborted ==> Rotates(plan.sources[..end.checked], start.lastChecked, lastChecked, start.clock)
      ensures plan.faults(stats.checked).Absent() ==> !aborted && end.failures == stats.failures
    {
      ghost var before := Snap();
      var n := stats.checked;
      RowPresent(plan, start, before, n, stats);
      aborted, end := HandleSource(plan.sources[n], plan.st, stats.(checked := n + 1), plan.faults(n), task);
      RanNext(plan, start, before, Snap(), n, stats, end, aborted);
    }

    /** PodcastDiscoveryService.run over the listed sources. */
    method Run(plan: Plan, task: string -> string) returns (aborted: bool, stats: Stats)
      requires Valid() && plan.st.Valid() && DistinctRows(plan.sources, progress)
      modifies this
      ensures Valid() && LinksKept(old(episodes), episodes)
      // the books, and both budgets
      ensures 0 <= Unaccounted(stats) <= stats.failures
      ensures stats.queued <= |submitted| - |old(submitted)| <= stats.queued + stats.failures
      ensures |links| == |old(links)| + stats.queued && stats.queued <= plan.st.maxEnqueues
      ensures forall i :: 0 <= i < |plan.sources| ==> WithinSourceBudget(plan.sources[i], old(links), links)
      // the sources are handled in order until the budget is used up
      ensures stats.checked <= |plan.sources| && (plan.sources != [] ==> stats.checked > 0)
      ensures !aborted && stats.checked < |plan.sources| ==> stats.queued == plan.st.maxEnqueues
      ensures !aborted ==> Rotates(plan.sources[..stats.checked], old(lastChecked), lastChecked, old(clock))
      ensures (forall i :: plan.faults(i).Absent()) ==> !aborted && stats.failures == 0
      // the backfill timestamps, which a failing source does not get
      ensures Stamps(plan, stats.checked, old(progress), progress, old(clock))
      // every backfill cursor has moved over settled episodes only, and does move where nothing fails
      ensures forall i :: 0 <= i < |plan.sources| ==>
                PassesRow(plan.sources[i], old(progress), progress, plan.st, plan.faults(i).answer, episodes,
                          i < stats.checked && plan.Effective(i))
    {
      ghost var start := Snap();
      aborted, stats := HandleSources(plan, task);
      RanRows(plan, start, Snap(), stats.checked, stats);
    }

    method HandleSources(plan: Plan, task: string -> string) returns (aborted: bool, stats: Stats)
      requires Valid() && plan.st.Valid() && DistinctRows(plan.sources, progress)
      modifies this
      ensures Valid() && stats.checked <= |plan.sources| && (plan.sources != [] ==> stats.checked > 0)
      ensures Ran(plan, old(Snap()), Snap(), stats.checked, stats)
      ensures !aborted && stats.checked < |plan.sources| ==> stats.queued >= plan.st.maxEnqueues
      ensures !aborted ==> Rotates(plan.sources[..stats.checked], old(lastChecked), lastChecked, old(clock))
      ensures (forall i :: plan.faults(i).Absent()) ==> !aborted && stats.failures == 0
    {
      stats, aborted := NO_STATS, false;
      ghost var start := Snap();
      RanNothing(plan, start);
      while !aborted && stats.checked < |plan.sources|
        invariant Valid() && stats.checked <= |plan.sources| && (stats.checked == 0 ==> stats.queued == 0 && !aborted)
        invariant Ran(plan, start, Snap(), stats.checked, stats)
        invariant !aborted ==> Rotates(plan.sources[..stats.checked], start.lastChecked, lastChecked, start.clock)
        invariant (forall i :: plan.faults(i).Absent()) ==> !aborted && stats.failures == 0
        decreases |plan.sources| - stats.checked
      {
        if stats.queued >= plan.st.maxEnqueues {
          break;
        }
        aborted, stats := NextSource(plan, start, stats, task);
      }
    }
  }

  /** A new link keeps the links without duplicates and in step with the rows. */
  lemma LinkedOnce(episodes: Episodes, links: seq<Link>, link: Link, task: string)
    requires NoDuplicates(links) && link.url in episodes && episodes[link.url].None?
    requires forall u :: IsRecorded(links, u) <==> IsLinked(episodes, u)
    ensures NoDuplicates(links + [link])
    ensures forall u :: IsRecorded(links + [link], u) <==> IsLinked(episodes[link.url := Some(task)], u)
  {
    assert !IsRecorded(links, link.url);
    assert link in links + [link];
    forall u
      ensures IsRecorded(links + [link], u) <==> IsRecorded(links, u) || u == link.url
    {
      if IsRecorded(links, u) {
        var l :| l in links && l.url == u;
        assert l in links + [link];
      }
    }
  }

  /** What a run is given: the sources in the listed order, its settings, and what goes wrong. */
  datatype Plan = Plan(sources: seq<Source>, st: Settings, faults: nat -> SourceFaults) {
    /** A backfill pass over source `i` in which nothing fails. */
    ghost predicate Effective(i: nat)
      requires i < |sources|
    {
      IsEffective(sources[i], st, faults(i))
    }

    /** A backfill pass over source `i` in which nothing fails, whatever the source's own limit. */
    ghost predicate Undisturbed(i: nat) {
      st.mode == Backfill && faults(i).Absent()
    }
  }

  ghost predicate IsEffective(source: Source, st: Settings, faults: SourceFaults) {
    st.mode == Backfill && source.maxNew > 0 && faults.Absent()
  }

  predicate DistinctRows(sources: seq<Source>, progress: map<string, Progress>) {
    && (forall i :: 0 <= i < |sources| ==> sources[i].id in progress)
    && forall i, j :: 0 <= i < j < |sources| ==> sources[i].id != sources[j].id
  }

  predicate WithinSourceBudget(source: Source, before: seq<Link>, after: seq<Link>) {
    LinksFor(after, source.id) <= LinksFor(before, source.id) + Max(source.maxNew, 0)
  }

  ghost predicate Handles(s: Snapshot, s': Snapshot, source: Source, st: Settings, faults: SourceFaults,
                          stats: Stats, end: Stats, aborted: bool)
  {
    && LinksKept(s.episodes, s'.episodes) && s.clock <= s'.clock
    && OthersKept(s.progress, s'.progress, source.id) && OthersKept(s.lastChecked, s'.lastChecked, source.id)
    && (!aborted ==> source.id in s'.lastChecked && s'.lastChecked[source.id] >= s.clock)
    && PassesRow(source, s.progress, s'.progress, st, faults.answer, s'.episodes, IsEffective(source, st, faults))
    && Stamped(source.id, s.progress, s'.progress, s.clock, st.mode == Backfill && faults.Absent())
    && Accounted(stats, end, st, |s'.links| - |s.links|, s'.submitted - s.submitted)
    && LinksAdded(s.links, s'.links, source.id, |s'.links| - |s.links|)
    && |s'.links| - |s.links| <= Max(source.maxNew, 0)
  }

  /** What is known of a source before the error handler sees it. */
  ghost predicate Tried(s: Snapshot, mid: Snapshot, source: Source, st: Settings, faults: SourceFaults,
                        stats: Stats, end: Stats, ok: bool)
  {
    && LinksKept(s.episodes, mid.episodes) && s.clock <= mid.clock
    && OthersKept(s.progress, mid.progress, source.id) && OthersKept(s.lastChecked, mid.lastChecked, source.id)
    && (ok ==> source.id in mid.lastChecked && mid.lastChecked[source.id] >= s.clock)
    && PassesRow(source, s.progress, mid.progress, st, faults.answer, mid.episodes, IsEffective(source, st, faults))
    && Stamped(source.id, s.progress, mid.progress, s.clock, st.mode == Backfill && faults.Absent())
    && Counts(stats, end, PerSourceLimit(source, st, stats), st, ok)
    && LinksAdded(s.links, mid.links, source.id, end.queued - stats.queued)
    && end.queued - stats.queued <= mid.submitted - s.submitted <= end.queued - stats.queued + if ok then 0 else 1
  }

  lemma HandlesTried(s: Snapshot, mid: Snapshot, s': Snapshot, source: Source, st: Settings, faults: SourceFaults,
                     stats: Stats, tried: Stats, end: Stats, ok: bool, aborted: bool)
    requires Tried(s, mid, source, st, faults, stats, tried, ok) && (aborted ==> !ok)
    requires end == if ok then tried else tried.(failures := tried.failures + 1)
    requires s'.clock >= mid.clock
    requires s' == if ok || aborted then mid
                   else mid.(lastChecked := mid.lastChecked[source.id := mid.clock], clock := s'.clock)
    ensures Handles(s, s', source, st, faults, stats, end, aborted)
  {
  }

  /** The first `n` sources have been handled. */
  ghost predicate Ran(plan: Plan, s: Snapshot, s': Snapshot, n: nat, stats: Stats) {
    && n <= |plan.sources| && DistinctRows(plan.sources, s.progress)
    && LinksKept(s.episodes, s'.episodes) && s.clock <= s'.clock
    && Accounted(NO_STATS, stats.(checked := 0), plan.st, |s'.links| - |s.links|, s'.submitted - s.submitted)
    && RowsPassed(plan, s.progress, s'.progress, s'.episodes, n)
    && Stamps(plan, n, s.progress, s'.progress, s.clock)
    && BudgetsKept(plan.sources, s.links, s'.links, n)
  }

  ghost predicate RowsPassed(plan: Plan, before: map<string, Progress>, after: map<string, Progress>,
                             episodes: Episodes, n: nat)
    requires n <= |plan.sources|
  {
    && (forall i :: 0 <= i < n ==>
          PassesRow(plan.sources[i], before, after, plan.st, plan.faults(i).answer, episodes, plan.Effective(i)))
    && forall i :: n <= i < |plan.sources| ==> SameRow(plan.sources[i].id, before, after)
  }

  ghost predicate BudgetsKept(sources: seq<Source>, before: seq<Link>, after: seq<Link>, n: nat)
    requires n <= |sources|
  {
    && (forall i :: 0 <= i < n ==> WithinSourceBudget(sources[i], before, after))
    && forall i :: n <= i < |sources| ==> LinksFor(after, sources[i].id) == LinksFor(before, sources[i].id)
  }

  lemma RanNothing(plan: Plan, s: Snapshot)
    requires DistinctRows(plan.sources, s.progress) && plan.st.Valid()
    ensures Ran(plan, s, s, 0, NO_STATS)
  {
  }

  lemma RowPresent(plan: Plan, s: Snapshot, s': Snapshot, n: nat, stats: Stats)
    requires Ran(plan, s, s', n, stats) && n < |plan.sources|
    ensures plan.sources[n].id in s'.progress
  {
    assert SameRow(plan.sources[n].id, s.progress, s'.progress);
  }

  lemma RanRows(plan: Plan, s: Snapshot, s': Snapshot, n: nat, stats: Stats)
    requires Ran(plan, s, s', n, stats)
    ensures LinksKept(s.episodes, s'.episodes)
    ensures stats.queued <= plan.st.maxEnqueues && |s'.links| == |s.links| + stats.queued
    ensures 0 <= Unaccounted(stats) <= stats.failures
    ensures stats.queued <= s'.submitted - s.submitted <= stats.queued + stats.failures
    ensures forall i :: 0 <= i < |plan.sources| ==> WithinSourceBudget(plan.sources[i], s.links, s'.links)
    ensures forall i :: 0 <= i < |plan.sources| ==>
              PassesRow(plan.sources[i], s.progress, s'.progress, plan.st, plan.faults(i).answer, s'.episodes,
                        i < n && plan.Effective(i))
  {
    BooksOf(stats, plan.st, |s'.links| - |s.links|, s'.submitted - s.submitted);
    forall i | 0 <= i < |plan.sources|
      ensures PassesRow(plan.sources[i], s.progress, s'.progress, plan.st, plan.faults(i).answer, s'.episodes,
                        i < n && plan.Effective(i))
    {
      if i >= n {
        assert SameRow(plan.sources[i].id, s.progress, s'.progress);
        SamePasses(s.progress[plan.sources[i].id], plan.sources[i], plan.st, plan.faults(i).answer, s'.episodes);
      }
    }
  }

  lemma BooksOf(stats: Stats, st: Settings, links: int, submissions: int)
    requires Accounted(NO_STATS, stats.(checked := 0), st, links, submissions)
    ensures stats.queued <= st.maxEnqueues && links == stats.queued
    ensures 0 <= Unaccounted(stats) <= stats.failures
    ensures stats.queued <= submissions <= stats.queued + stats.failures
  {
  }

  lemma RanNext(plan: Plan, s: Snapshot, mid: Snapshot, s': Snapshot, n: nat, stats: Stats, stats': Stats,
                aborted: bool)
    requires n < |plan.sources| && Ran(plan, s, mid, n, stats) && stats.checked == n
    requires Handles(mid, s', plan.sources[n], plan.st, plan.faults(n), stats.(checked := n + 1), stats', aborted)
    requires Rotates(plan.sources[..n], s.lastChecked, mid.lastChecked, s.clock)
    ensures Ran(plan, s, s', n + 1, stats') && stats'.checked == n + 1
    ensures !aborted ==> Rotates(plan.sources[..n + 1], s.lastChecked, s'.lastChecked, s.clock)
  {
    AccountedAdds(NO_STATS, stats.(checked := 0), stats'.(checked := 0), plan.st, |mid.links| - |s.links|,
                  |s'.links| - |mid.links|, mid.submitted - s.submitted, s'.submitted - mid.submitted);
    RowsPassedNext(plan, n, s.progress, mid.progress, s'.progress, mid.episodes, s'.episodes);
    StampsNext(plan, n, s.progress, mid.progress, s'.progress, s.clock, mid.clock);
    BudgetsKeptNext(plan.sources, n, s.links, mid.links, s'.links);
    if !aborted {
      RotatesNext(plan.sources, n, s.lastChecked, mid.lastChecked, s'.lastChecked, s.clock, mid.clock);
    }
  }

  lemma BudgetsKeptNext(sources: seq<Source>, n: nat, before: seq<Link>, mid: seq<Link>, after: seq<Link>)
    requires n < |sources| && BudgetsKept(sources, before, mid, n)
    requires forall i, j :: 0 <= i < j < |sources| ==> sources[i].id != sources[j].id
    requires LinksAdded(mid, after, sources[n].id, |after| - |mid|) && |after| - |mid| <= Max(sources[n].maxNew, 0)
    ensures BudgetsKept(sources, before, after, n + 1)
  {
    forall i | 0 <= i < |sources| && i != n
      ensures LinksFor(after, sources[i].id) == LinksFor(mid, sources[i].id)
    {
      assert sources[i].id != sources[n].id;
    }
  }

  ghost predicate OthersKept<T>(before: map<string, T>, after: map<string, T>, id: string) {
    && before.Keys <= after.Keys <= before.Keys + {id}
    && forall o :: o in before && o != id ==> after[o] == before[o]
  }

  predicate SameRow(id: string, before: map<string, Progress>, after: map<string, Progress>) {
    id in before && id in after && after[id] == before[id]
  }

  ghost predicate PassesRow(source: Source, before: map<string, Progress>, after: map<string, Progress>, st: Settings,
                            answer: Answer, episodes: Episodes, effective: bool)
  {
    && source.id in before && source.id in after
    && exists limit: int :: st.window <= limit &&
         Passes(before[source.id], after[source.id], source, st, limit, answer, episodes, effective)
  }

  /** The budgets and the books of a stretch of a run that wrote `links` links and made `submissions`. */
  predicate Accounted(before: Stats, after: Stats, st: Settings, links: int, submissions: int) {
    && after.checked == before.checked && before.failures <= after.failures
    && before.queued <= after.queued <= st.maxEnqueues
    && links == after.queued - before.queued
    && 0 <= submissions - links <= after.failures - before.failures
    && 0 <= Unaccounted(after) - Unaccounted(before) <= after.failures - before.failures
  }

  lemma AccountedAdds(before: Stats, mid: Stats, after: Stats, st: Settings, links: int, links': int, submissions: int,
                      submissions': int)
    requires Accounted(before, mid, st, links, submissions) && Accounted(mid, after, st, links', submissions')
    ensures Accounted(before, after, st, links + links', submissions + submissions')
  {
  }

  /** The backfill row of a handled source has a new timestamp; only if something failed, or in the recent mode,
    * may it be as before. */
  predicate Stamped(id: string, before: map<string, Progress>, after: map<string, Progress>, clock: int, must: bool) {
    && id in before && id in after
    && ((after[id].checkedAt.Some? && after[id].checkedAt.value >= clock) || (!must && after[id] == before[id]))
  }

  ghost predicate Stamps(plan: Plan, n: nat, before: map<string, Progress>, after: map<string, Progress>, clock: int)
    requires n <= |plan.sources|
  {
    && (forall i :: 0 <= i < n ==> Stamped(plan.sources[i].id, before, after, clock, plan.Undisturbed(i)))
    && forall id :: (forall i :: 0 <= i < n ==> plan.sources[i].id != id) ==> SameEntry(before, after, id)
  }

  lemma StampsNext(plan: Plan, n: nat, before: map<string, Progress>, mid: map<string, Progress>,
                   after: map<string, Progress>, clock: int, clock': int)
    requires n < |plan.sources| && clock <= clock' && DistinctRows(plan.sources, before)
    requires Stamps(plan, n, before, mid, clock) && OthersKept(mid, after, plan.sources[n].id)
    requires Stamped(plan.sources[n].id, mid, after, clock', plan.Undisturbed(n))
    ensures Stamps(plan, n + 1, before, after, clock)
  {
    assert SameEntry(before, mid, plan.sources[n].id);
    forall i | 0 <= i < n
      ensures Stamped(plan.sources[i].id, before, after, clock, plan.Undisturbed(i))
    {
      assert plan.sources[i].id != plan.sources[n].id;
      assert Stamped(plan.sources[i].id, before, mid, clock, plan.Undisturbed(i));
    }
    forall id | forall i :: 0 <= i < n + 1 ==> plan.sources[i].id != id
      ensures SameEntry(before, after, id)
    {
      assert plan.sources[n].id != id;
      assert SameEntry(before, mid, id);
    }
  }

  /** The checked sources carry new timestamps, all others the old ones. */
  ghost predicate Rotates(checked: seq<Source>, before: map<string, int>, after: map<string, int>, clock: int) {
    && (forall i :: 0 <= i < |checked| ==> checked[i].id in after && after[checked[i].id] >= clock)
    && forall id :: (forall i :: 0 <= i < |checked| ==> checked[i].id != id) ==> SameEntry(before, after, id)
  }

  ghost predicate SameEntry<T>(before: map<string, T>, after: map<string, T>, id: string) {
    (id in before <==> id in after) && (id in before ==> after[id] == before[id])
  }

  lemma RotatesNext(sources: seq<Source>, n: nat, before: map<string, int>, mid: map<string, int>,
                    after: map<string, int>, clock: int, clock': int)
    requires n < |sources| && clock <= clock'
    requires forall i, j :: 0 <= i < j < |sources| ==> sources[i].id != sources[j].id
    requires Rotates(sources[..n], before, mid, clock)
    requires OthersKept(mid, after, sources[n].id) && sources[n].id in after && after[sources[n].id] >= clock'
    ensures Rotates(sources[..n + 1], before, after, clock)
  {
    var next := sources[..n + 1];
    forall i | 0 <= i < |next|
      ensures next[i].id in after && after[next[i].id] >= clock
    {
      if i < n {
        assert sources[..n][i] == next[i];
      }
    }
    forall id | forall i :: 0 <= i < |next| ==> next[i].id != id
      ensures SameEntry(before, after, id)
    {
      assert next[n].id != id;
      forall i | 0 <= i < n
        ensures sources[..n][i].id != id
      {
        assert next[i].id != id;
      }
      assert SameEntry(before, mid, id);
    }
  }

  lemma RowsPassedNext(plan: Plan, n: nat, before: map<string, Progress>, mid: map<string, Progress>,
                       after: map<string, Progress>, episodes: Episodes, episodes': Episodes)
    requires n < |plan.sources| && LinksKept(episodes, episodes') && DistinctRows(plan.sources, before)
    requires RowsPassed(plan, before, mid, episodes, n)
    requires OthersKept(mid, after, plan.sources[n].id)
    requires PassesRow(plan.sources[n], mid, after, plan.st, plan.faults(n).answer, episodes', plan.Effective(n))
    ensures RowsPassed(plan, before, after, episodes', n + 1)
  {
    forall i | 0 <= i < n
      ensures PassesRow(plan.sources[i], before, after, plan.st, plan.faults(i).answer, episodes', plan.Effective(i))
    {
      var source, answer := plan.sources[i], plan.faults(i).answer;
      assert PassesRow(source, before, mid, plan.st, answer, episodes, plan.Effective(i));
      var limit :| plan.st.window <= limit &&
        Passes(before[source.id], mid[source.id], source, plan.st, limit, answer, episodes, plan.Effective(i));
      PassesStays(before[source.id], mid[source.id], source, plan.st, limit, answer, episodes, episodes',
                  plan.Effective(i));
    }
    assert SameRow(plan.sources[n].id, before, mid);
    forall i | n < i < |plan.sources|
      ensures SameRow(plan.sources[i].id, before, after)
    {
      assert SameRow(plan.sources[i].id, before, mid);
    }
  }

  /** What one run may do to the row of a source: nothing, or, in a backfill whose listing did not fail, move
    * its cursor over settled episodes. An effective pass does so, and moves it if anything was listed. */
  ghost predicate Passes(before: Progress, after: Progress, source: Source, st: Settings, limit: int, answer: Answer,
                         episodes: Episodes, effective: bool)
  {
    var found := Discover(answer, source.playlist, before.cursor, limit);
    || (after == before && !effective)
    || (st.mode == Backfill && answer != Fails
        && exists k: nat ::
             Consumes(before, after, found, k, source.minDuration, st, episodes)
             && (effective && found != [] ==> k > 0))
  }

  /** The cursor moves over the first `k` listed episodes, all of them settled, and the source is
    * completed exactly when nothing was listed. */
  ghost predicate Consumes(before: Progress, after: Progress, found: seq<Episode>, k: nat, minDuration: int,
                           st: Settings, episodes: Episodes)
  {
    && k <= |found| && after.cursor == before.cursor + k
    && (forall i :: 0 <= i < k ==> Settled(found[i], minDuration, st, episodes))
    && (after.completedAt.Some? <==> found == [])
  }

  lemma SamePasses(row: Progress, source: Source, st: Settings, answer: Answer, episodes: Episodes)
    ensures Passes(row, row, source, st, st.window, answer, episodes, false)
  {
  }

  lemma PassesEffectively(before: Progress, after: Progress, source: Source, st: Settings, limit: int,
                          faults: SourceFaults, episodes: Episodes, ok: bool)
    requires Passes(before, after, source, st, limit, faults.answer, episodes,
                    ok && st.mode == Backfill && source.maxNew > 0)
    requires (faults.Absent() ==> ok) && (st.mode == Backfill ==> st.window <= limit)
    ensures exists l: int ::
              st.window <= l
              && Passes(before, after, source, st, l, faults.answer, episodes, IsEffective(source, st, faults))
  {
    if st.mode == Recent {
      SamePasses(before, source, st, faults.answer, episodes);
      assert Passes(before, after, source, st, st.window, faults.answer, episodes, IsEffective(source, st, faults));
    } else {
      assert Passes(before, after, source, st, limit, faults.answer, episodes, IsEffective(source, st, faults));
    }
  }

  /** Settled stays settled while links are only added. */
  lemma PassesStays(before: Progress, after: Progress, source: Source, st: Settings, limit: int, answer: Answer,
                    episodes: Episodes, episodes': Episodes, effective: bool)
    requires Passes(before, after, source, st, limit, answer, episodes, effective) && LinksKept(episodes, episodes')
    ensures Passes(before, after, source, st, limit, answer, episodes', effective)
  {
    var found := Discover(answer, source.playlist, before.cursor, limit);
    if !(after == before && !effective) {
      var k: nat :| Consumes(before, after, found, k, source.minDuration, st, episodes)
          && (effective && found != [] ==> k > 0);
      assert Consumes(before, after, found, k, source.minDuration, st, episodes');
    }
  }

  /** The counters after one source. */
  predicate Counts(before: Stats, after: Stats, limit: int, st: Settings, ok: bool) {
    && after == before.(seen := after.seen, queued := after.queued, linked := after.linked,
                        filtered := after.filtered, completed := after.completed)
    && before.queued <= after.queued <= st.maxEnqueues && after.queued - before.queued <= Max(limit, 0)
    && Unaccounted(before) <= Unaccounted(after) <= Unaccounted(before) + (if ok then 0 else 1)
  }
}
