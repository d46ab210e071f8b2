/** The least-recently-checked rotation over the sources, which are known by their ids here. In the recent mode a
  * run stamps every source it checks; in the backfill mode only those that nothing disturbed. */
module Rotation {
  import opened Common
  import opened Discovery

  /** A null timestamp sorts first; ties go by catalog order and slug, given here as one rank. */
  predicate Before(a: string, b: string, checked: map<string, int>, rank: string -> int) {
    var x, y := Timestamp(checked, a), Timestamp(checked, b);
    if x.None? || y.None? then (if x.None? && y.None? then rank(a) < rank(b) else x.None?)
    else x.value < y.value || (x.value == y.value && rank(a) < rank(b))
  }

  function Timestamp(checked: map<string, int>, id: string): Option<int> {
    if id in checked then Some(checked[id]) else None
  }

  /** list_sources returns every source once, in that order. */
  ghost predicate InOrder(listed: seq<string>, all: set<string>, checked: map<string, int>, rank: string -> int) {
    && (forall x :: x in all <==> x in listed)
    && (forall i, j :: 0 <= i < j < |listed| ==> listed[i] != listed[j])
    && forall i, j :: 0 <= i < j < |listed| ==> Before(listed[i], listed[j], checked, rank)
  }

  ghost function Ahead(s: string, all: set<string>, checked: map<string, int>, rank: string -> int): set<string> {
    set x | x in all && Before(x, s, checked, rank)
  }

  /** One run: what it lists, how many of these it checks, and which of them get a new timestamp. */
  datatype Visit = Visit(listed: seq<string>, count: nat, stamped: set<string>, clock: int) {
    predicate Checks(s: string) {
      count <= |listed| && s in listed[..count]
    }
  }

  ghost predicate IsVisit(before: map<string, int>, after: map<string, int>, v: Visit, all: set<string>,
                          rank: string -> int) {
    && InOrder(v.listed, all, before, rank) && v.count <= |v.listed|
    && (forall id :: id in before ==> before[id] < v.clock)
    && (forall id :: id in v.stamped ==> v.Checks(id) && id in after && after[id] >= v.clock)
    && forall id :: id !in v.stamped ==> SameEntry(before, after, id)
  }

  /** A history of runs. Sources may drop out of the lists, as those whose backfill is completed do. */
  ghost predicate Visits(tables: seq<map<string, int>>, visits: seq<Visit>, alls: seq<set<string>>,
                         rank: string -> int) {
    && |tables| == |alls| == |visits| + 1
    && forall i :: 0 <= i < |visits| ==>
         IsVisit(tables[i], tables[i + 1], visits[i], alls[i], rank) && alls[i + 1] <= alls[i]
  }

  lemma Position(v: Visit, s: string) returns (at: nat)
    requires v.count <= |v.listed| && s in v.listed
    ensures at < |v.listed| && v.listed[at] == s && (at < v.count ==> v.Checks(s))
  {
    at :| at < |v.listed| && v.listed[at] == s;
    assert at < v.count ==> v.listed[..v.count][at] == s;
  }

  /** What a run checks comes before what it does not reach. */
  lemma CheckedComesFirst(before: map<string, int>, after: map<string, int>, v: Visit, all: set<string>,
                          rank: string -> int, x: string, s: string)
    requires IsVisit(before, after, v, all, rank) && s in all && !v.Checks(s) && v.Checks(x)
    ensures x in all && Before(x, s, before, rank)
  {
    var at := Position(v, s);
    var k :| 0 <= k < v.count && v.listed[..v.count][k] == x;
    assert v.listed[k] == x;
  }

  /** A run that does not reach `s` moves every source it stamps from before it to behind it. */
  lemma AheadShrinks(before: map<string, int>, after: map<string, int>, v: Visit, all: set<string>, all': set<string>,
                     rank: string -> int, s: string)
    requires IsVisit(before, after, v, all, rank) && s in all && !v.Checks(s) && all' <= all
    ensures v.stamped <= Ahead(s, all, before, rank)
    ensures Ahead(s, all', after, rank) <= Ahead(s, all, before, rank) - v.stamped
  {
    assert s !in v.stamped && SameEntry(before, after, s);
    forall x | x in v.stamped
      ensures x in Ahead(s, all, before, rank) && x !in Ahead(s, all', after, rank)
    {
      CheckedComesFirst(before, after, v, all, rank, x, s);
    }
    forall x | x in Ahead(s, all', after, rank)
      ensures x in Ahead(s, all, before, rank)
    {
      assert x !in v.stamped && SameEntry(before, after, x);
    }
  }

  lemma FewerAhead(before: map<string, int>, after: map<string, int>, v: Visit, all: set<string>, all': set<string>,
                   rank: string -> int, s: string)
    requires IsVisit(before, after, v, all, rank) && s in all && !v.Checks(s) && all' <= all
    ensures |Ahead(s, all', after, rank)| + |v.stamped| <= |Ahead(s, all, before, rank)|
  {
    AheadShrinks(before, after, v, all, all', rank, s);
    SubsetSize(Ahead(s, all', after, rank), Ahead(s, all, before, rank) - v.stamped);
  }

  function TotalStamps(visits: seq<Visit>): nat {
    if visits == [] then 0 else TotalStamps(visits[..|visits| - 1]) + |visits[|visits| - 1].stamped|
  }

  lemma {:induction false} AheadAfter(tables: seq<map<string, int>>, visits: seq<Visit>, alls: seq<set<string>>,
                                      rank: string -> int, s: string)
    requires Visits(tables, visits, alls, rank) && forall i :: 0 <= i < |alls| ==> s in alls[i]
    requires forall i :: 0 <= i < |visits| ==> !visits[i].Checks(s)
    ensures |Ahead(s, alls[|visits|], tables[|visits|], rank)| + TotalStamps(visits)
            <= |Ahead(s, alls[0], tables[0], rank)|
  {
    if visits != [] {
      var n := |visits| - 1;
      AheadAfter(tables[..n + 1], visits[..n], alls[..n + 1], rank, s);
      FewerAhead(tables[n], tables[n + 1], visits[n], alls[n], alls[n + 1], rank, s);
    }
  }

  /** While a source is listed, it is checked before the runs have given as many timestamps as there are sources. */
  lemma EverySourceIsChecked(tables: seq<map<string, int>>, visits: seq<Visit>, alls: seq<set<string>>,
                             rank: string -> int, s: string)
    requires Visits(tables, visits, alls, rank) && forall i :: 0 <= i < |alls| ==> s in alls[i]
    requires TotalStamps(visits) >= |alls[0]|
    ensures exists i :: 0 <= i < |visits| && visits[i].Checks(s)
  {
    if forall i :: 0 <= i < |visits| ==> !visits[i].Checks(s) {
      AheadAfter(tables, visits, alls, rank, s);
      assert !Before(s, s, tables[0], rank);
      SubsetSize(Ahead(s, alls[0], tables[0], rank), alls[0] - {s});
      assert false;
    }
  }

  lemma {:induction false} StampsAdd(visits: seq<Visit>)
    requires forall i :: 0 <= i < |visits| ==> visits[i].stamped != {}
    ensures TotalStamps(visits) >= |visits|
  {
    if visits != [] {
      StampsAdd(visits[..|visits| - 1]);
    }
  }

  /** So any `|alls[0]|` runs check it, if each of them stamps some source. */
  lemma CheckedWithinRuns(tables: seq<map<string, int>>, visits: seq<Visit>, alls: seq<set<string>>,
                          rank: string -> int, s: string)
    requires Visits(tables, visits, alls, rank) && forall i :: 0 <= i < |alls| ==> s in alls[i]
    requires |visits| >= |alls[0]| && forall i :: 0 <= i < |visits| ==> visits[i].stamped != {}
    ensures exists i :: 0 <= i < |visits| && visits[i].Checks(s)
  {
    StampsAdd(visits);
    EverySourceIsChecked(tables, visits, alls, rank, s);
  }

  // ----- The runs of the repository are such visits -----

  function Ids(sources: seq<Source>): (r: seq<string>)
    ensures |r| == |sources| && forall i :: 0 <= i < |r| ==> r[i] == sources[i].id
  {
    seq(|sources|, i requires 0 <= i < |sources| => sources[i].id)
  }

  lemma Checked(v: Visit, k: nat)
    requires k < v.count <= |v.listed|
    ensures v.Checks(v.listed[k])
  {
    assert v.listed[..v.count][k] == v.listed[k];
  }

  /** A run in the recent mode that ends normally stamps all it checks, and it checks at least the first. */
  lemma RecentRun(sources: seq<Source>, count: nat, before: map<string, int>, after: map<string, int>, clock: int,
                  all: set<string>, rank: string -> int) returns (v: Visit)
    requires InOrder(Ids(sources), all, before, rank) && count <= |sources| && (sources != [] ==> count > 0)
    requires forall id :: id in before ==> before[id] < clock
    requires Rotates(sources[..count], before, after, clock)
    ensures v.listed == Ids(sources) && v.count == count && v.clock == clock
    ensures IsVisit(before, after, v, all, rank) && (sources != [] ==> v.stamped != {})
  {
    var ids := Ids(sources);
    v := Visit(ids, count, set i | 0 <= i < count :: ids[i], clock);
    forall id | id in v.stamped
      ensures v.Checks(id) && id in after && after[id] >= clock
    {
      var i :| 0 <= i < count && ids[i] == id;
      Checked(v, i);
      assert sources[..count][i].id == id;
    }
    forall id | id !in v.stamped
      ensures SameEntry(before, after, id)
    {
      assert forall i :: 0 <= i < count ==> sources[..count][i].id == ids[i];
    }
    if sources != [] {
      assert ids[0] in v.stamped;
    }
  }

  /** The column the backfill mode sorts by. */
  function BackfillTable(progress: map<string, Progress>): map<string, int> {
    map id | id in progress && progress[id].checkedAt.Some? :: progress[id].checkedAt.value
  }

  /** A run in the backfill mode stamps at least what it checks undisturbed, whatever else fails. */
  lemma BackfillRun(plan: Plan, count: nat, before: map<string, Progress>, after: map<string, Progress>, clock: int,
                    all: set<string>, rank: string -> int) returns (v: Visit)
    requires InOrder(Ids(plan.sources), all, BackfillTable(before), rank) && count <= |plan.sources|
    requires forall id :: id in BackfillTable(before) ==> BackfillTable(before)[id] < clock
    requires Stamps(plan, count, before, after, clock)
    ensures v.listed == Ids(plan.sources) && v.count == count && v.clock == clock
    ensures IsVisit(BackfillTable(before), BackfillTable(after), v, all, rank)
    ensures forall i :: 0 <= i < count && plan.Undisturbed(i) ==> plan.sources[i].id in v.stamped
  {
    var ids, was, now := Ids(plan.sources), BackfillTable(before), BackfillTable(after);
    v := Visit(ids, count, set i | 0 <= i < count && ids[i] in now && now[ids[i]] >= clock :: ids[i], clock);
    forall id | id in v.stamped
      ensures v.Checks(id)
    {
      var i :| 0 <= i < count && ids[i] == id;
      Checked(v, i);
    }
    forall id | id !in v.stamped
      ensures SameEntry(was, now, id)
    {
      if i :| 0 <= i < count && ids[i] == id {
        assert Stamped(plan.sources[i].id, before, after, clock, plan.Undisturbed(i));
      } else {
        assert SameEntry(before, after, id);
      }
    }
    forall i | 0 <= i < count && plan.Undisturbed(i)
      ensures plan.sources[i].id in v.stamped
    {
      assert Stamped(plan.sources[i].id, before, after, clock, true);
    }
  }
}
