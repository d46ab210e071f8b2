/** When the billing interval of a profile depends on the order of its payment events. */
module BillingInterval {
  import opened Common
  import opened Billing

  /** Events some settled run can deliver: `latest` is the latest paid period, and no cancellation is for a later
    * one. */
  ghost predicate Attainable(es: set<Event>, horizon: int, latest: int) {
    && (exists i :: Paid(latest, i) in es)
    && forall e :: e in es ==> !e.Use? && horizon <= e.periodEnd <= latest
  }

  ghost predicate IsRun(ds: seq<Delivery>, es: set<Event>, horizon: int) {
    Unexpired(ds, horizon) && Settled(ds) && Events(ds) == es
  }

  /** The events of every settled run with a payment are of that kind. */
  lemma RunsAreAttainable(ds: seq<Delivery>, es: set<Event>, horizon: int) returns (latest: int)
    requires IsRun(ds, es, horizon) && exists p, i :: Paid(p, i) in es
    ensures Attainable(es, horizon, latest)
  {
    latest := LatestPaid(ds);
    forall e | e in es
      ensures horizon <= e.periodEnd <= latest
    {
      var k: nat :| k < |ds| && ds[k].event == e;
      if e.Cancel? {
        assert Redelivered(ds, k);
      }
    }
  }

  lemma {:induction false} LatestPaid(ds: seq<Delivery>) returns (latest: int)
    requires exists k :: 0 <= k < |ds| && ds[k].event.Paid?
    ensures exists i :: Paid(latest, i) in Events(ds)
    ensures forall k :: 0 <= k < |ds| && ds[k].event.Paid? ==> ds[k].event.periodEnd <= latest
  {
    var n := |ds| - 1;
    var last := ds[n].event;
    if exists k :: 0 <= k < n && ds[..n][k].event.Paid? {
      latest := LatestPaid(ds[..n]);
      var i :| Paid(latest, i) in Events(ds[..n]);
      var k :| 0 <= k < n && ds[..n][k].event == Paid(latest, i);
      assert ds[k].event == Paid(latest, i);
      if last.Paid? && last.periodEnd > latest {
        latest := last.periodEnd;
        assert ds[n].event == Paid(latest, last.interval);
      }
      assert forall j :: 0 <= j < n ==> ds[j] == ds[..n][j];
    } else {
      assert forall j :: 0 <= j < n ==> !ds[..n][j].event.Paid?;
      assert ds[n].event == Paid(last.periodEnd, last.interval);
      latest := last.periodEnd;
      assert forall j :: 0 <= j < n ==> ds[j] == ds[..n][j];
    }
  }

  /** All runs over these events end with the same interval. */
  ghost predicate Agrees(row: Profile, es: set<Event>, horizon: int) {
    forall a, b :: IsRun(a, es, horizon) && IsRun(b, es, horizon) ==>
      Final(row, a).billingInterval == Final(row, b).billingInterval
  }

  /** Every payment names the interval the row has, or none. */
  ghost predicate NamesOnly(es: set<Event>, interval: Option<Interval>) {
    forall e :: e in es && e.Paid? && e.interval.Some? ==> e.interval == interval
  }

  // ----- Runs -----

  lemma {:induction false} FinalConcat(row: Profile, a: seq<Delivery>, b: seq<Delivery>)
    ensures Final(row, a + b) == Final(Final(row, a), b)
  {
    if b == [] {
      assert a + b == a;
    } else {
      FinalConcat(row, a, b[..|b| - 1]);
      assert (a + b)[..|a + b| - 1] == a + b[..|b| - 1];
    }
  }

  lemma FinalOfOne(row: Profile, d: Delivery)
    ensures Final(row, [d]) == Deliver(row, d.event, d.clock).row
  {
    assert [d][..0] == [];
  }

  /** The events, one after the other. */
  lemma Listing(es: set<Event>, clock: Clock) returns (ds: seq<Delivery>)
    requires forall e :: e in es ==> !e.Use?
    ensures Events(ds) == es && forall k :: 0 <= k < |ds| ==> ds[k].clock == clock && !ds[k].event.Use?
  {
    ds := [];
    var left := es;
    while left != {}
      invariant left <= es && Events(ds) == es - left
      invariant forall k :: 0 <= k < |ds| ==> ds[k].clock == clock && !ds[k].event.Use?
      decreases left
    {
      var e :| e in left;
      EventsNext(ds, Delivery(e, clock));
      ds, left := ds + [Delivery(e, clock)], left - {e};
    }
  }

  lemma EventsNext(ds: seq<Delivery>, d: Delivery)
    requires !d.event.Use?
    ensures Events(ds + [d]) == Events(ds) + {d.event}
  {
    EventsConcat(ds, [d]);
    assert [d][0].event in Events([d]);
  }

  lemma EventsConcat(a: seq<Delivery>, b: seq<Delivery>)
    ensures Events(a + b) == Events(a) + Events(b)
  {
    forall e | e in Events(a) + Events(b)
      ensures e in Events(a + b)
    {
      if e in Events(a) {
        var k :| 0 <= k < |a| && a[k].event == e && !e.Use?;
        assert (a + b)[k].event == e;
      } else {
        var k :| 0 <= k < |b| && b[k].event == e && !e.Use?;
        assert (a + b)[|a| + k].event == e;
      }
    }
  }

  /** A run that starts with payments, one of them for the latest period, then delivers everything. */
  lemma RunStartingWith(first: seq<Event>, last: seq<Event>, es: set<Event>, horizon: int, latest: int, clock: Clock)
    returns (all: seq<Delivery>, ds: seq<Delivery>)
    requires Attainable(es, horizon, latest) && clock.now < horizon
    requires first != [] && first[|first| - 1].Paid? && first[|first| - 1].periodEnd == latest
    requires forall k :: 0 <= k < |first| ==> first[k] in es && first[k].Paid?
    requires forall k :: 0 <= k < |last| ==> last[k] in es && last[k].Paid?
    ensures Events(all) == es && (forall k :: 0 <= k < |all| ==> all[k].clock == clock)
    ensures ds == At(first, clock) + all + At(last, clock) && IsRun(ds, es, horizon)
  {
    all := Listing(es, clock);
    ds := At(first, clock) + all + At(last, clock);
    EventsConcat(At(first, clock) + all, At(last, clock));
    EventsConcat(At(first, clock), all);
    EventsOfList(first, clock, es);
    EventsOfList(last, clock, es);
    forall k | 0 <= k < |ds|
      ensures ds[k].event in es && ds[k].clock == clock
    {
      if |first| <= k < |first| + |all| {
        assert ds[k] == all[k - |first|] && all[k - |first|].event in Events(all);
      }
    }
    var f := |first| - 1;
    forall i: nat | i < |ds|
      ensures Redelivered(ds, i)
    {
      assert ds[i].event in es && ds[f].event == first[f];
      if ds[i].event.Cancel? {
        assert f < i;
      }
    }
  }

  function At(events: seq<Event>, clock: Clock): (r: seq<Delivery>)
    ensures |r| == |events| && forall k :: 0 <= k < |r| ==> r[k] == Delivery(events[k], clock)
  {
    seq(|events|, k requires 0 <= k < |events| => Delivery(events[k], clock))
  }

  lemma EventsOfList(events: seq<Event>, clock: Clock, es: set<Event>)
    requires forall k :: 0 <= k < |events| ==> events[k] in es
    ensures Events(At(events, clock)) <= es
  {
  }

  // ----- Agreement -----

  lemma {:induction false} IntervalStays(row: Profile, ds: seq<Delivery>)
    requires forall k :: 0 <= k < |ds| && ds[k].event.Paid? && ds[k].event.interval.Some? ==>
               ds[k].event.interval == row.billingInterval
    ensures Final(row, ds).billingInterval == row.billingInterval
  {
    if ds != [] {
      IntervalStays(row, ds[..|ds| - 1]);
    }
  }

  lemma NamesOnlyAgrees(row: Profile, es: set<Event>, horizon: int, ds: seq<Delivery>)
    requires NamesOnly(es, row.billingInterval) && IsRun(ds, es, horizon)
    ensures Final(row, ds).billingInterval == row.billingInterval
  {
    forall k | 0 <= k < |ds| && ds[k].event.Paid? && ds[k].event.interval.Some?
      ensures ds[k].event.interval == row.billingInterval
    {
      assert ds[k].event in Events(ds);
    }
    IntervalStays(row, ds);
  }

  lemma OneIntervalAgrees(row: Profile, es: set<Event>, horizon: int, latest: int, x: Interval, ds: seq<Delivery>)
    requires Dormant(row, horizon) && Attainable(es, horizon, latest) && IntervalsFor(es, latest) == {x}
             && IsRun(ds, es, horizon)
    ensures Final(row, ds).billingInterval == Some(x)
  {
    SettledAcceptsAll(row, ds, horizon);
    Convergence(row, ds, horizon);
    BillingIntervalConverges(row, ds, horizon, x);
  }

  // ----- Disagreement -----

  /** Once the latest period is recorded, later deliveries change nothing but its own interval. */
  lemma {:induction false} PeriodStays(row: Profile, ds: seq<Delivery>, latest: int)
    requires row.periodEnd == Some(latest)
    requires forall k :: 0 <= k < |ds| && !ds[k].event.Use? ==> ds[k].event.periodEnd <= latest
    ensures Final(row, ds).periodEnd == Some(latest)
    ensures (forall k ::
              0 <= k < |ds| && ds[k].event.Paid? && ds[k].event.periodEnd == latest ==> ds[k].event.interval.None?) ==>
              Final(row, ds).billingInterval == row.billingInterval
  {
    if ds != [] {
      PeriodStays(row, ds[..|ds| - 1], latest);
    }
  }

  /** A payment for the latest period, delivered last, decides. */
  lemma LastDecides(row: Profile, es: set<Event>, horizon: int, latest: int, x: Interval) returns (ds: seq<Delivery>)
    requires Dormant(row, horizon) && Attainable(es, horizon, latest) && Paid(latest, Some(x)) in es
    ensures IsRun(ds, es, horizon) && Final(row, ds).billingInterval == Some(x)
  {
    var clock, paid := Clock(horizon - 1, 0), Paid(latest, Some(x));
    var all;
    all, ds := RunStartingWith([paid], [paid], es, horizon, latest, clock);
    var first := At([paid], clock);
    assert first == [Delivery(paid, clock)];
    FinalConcat(row, first + all, first);
    FinalConcat(row, first, all);
    FinalOfOne(row, first[0]);
    var mid := Final(row, first);
    ListedAreEarlier(all, es, horizon, latest);
    PeriodStays(mid, all, latest);
    FinalOfOne(Final(row, first + all), first[0]);
  }

  lemma ListedAreEarlier(all: seq<Delivery>, es: set<Event>, horizon: int, latest: int)
    requires Attainable(es, horizon, latest) && Events(all) == es
    ensures forall k :: 0 <= k < |all| && !all[k].event.Use? ==> all[k].event in es && all[k].event.periodEnd <= latest
  {
    forall k | 0 <= k < |all| && !all[k].event.Use?
      ensures all[k].event in es
    {
      assert all[k].event in Events(all);
    }
  }

  /** If the latest period names no interval, what came before it stays: `first` ends with that period. */
  lemma FirstDecides(row: Profile, es: set<Event>, horizon: int, latest: int, first: seq<Event>)
    returns (ds: seq<Delivery>)
    requires Attainable(es, horizon, latest) && IntervalsFor(es, latest) == {}
    requires first != [] && first[|first| - 1].Paid? && first[|first| - 1].periodEnd == latest
    requires forall k :: 0 <= k < |first| ==> first[k] in es && first[k].Paid?
    requires Final(row, At(first, Clock(horizon - 1, 0))).periodEnd == Some(latest)
    ensures IsRun(ds, es, horizon)
    ensures Final(row, ds).billingInterval == Final(row, At(first, Clock(horizon - 1, 0))).billingInterval
  {
    var clock := Clock(horizon - 1, 0);
    var all;
    all, ds := RunStartingWith(first, [], es, horizon, latest, clock);
    assert ds == At(first, clock) + all;
    FinalConcat(row, At(first, clock), all);
    ListedAreEarlier(all, es, horizon, latest);
    NamedIntervals(es, latest);
    PeriodStays(Final(row, At(first, clock)), all, latest);
  }

  lemma NamedIntervals(es: set<Event>, p: int)
    ensures forall e ::
              e in es && e.Paid? && e.periodEnd == p && e.interval.Some? ==> e.interval.value in IntervalsFor(es, p)
  {
  }

  lemma EarlierIntervalMatters(row: Profile, es: set<Event>, horizon: int, latest: int, e: Event)
    requires Dormant(row, horizon) && Attainable(es, horizon, latest) && IntervalsFor(es, latest) == {}
    requires e in es && e.Paid? && e.interval.Some? && e.interval != row.billingInterval
    ensures !Agrees(row, es, horizon)
  {
    var clock := Clock(horizon - 1, 0);
    var i :| Paid(latest, i) in es;
    var top := Paid(latest, i);
    NamedIntervals(es, latest);
    FinalOfOne(row, Delivery(top, clock));
    assert At([top], clock) == [Delivery(top, clock)];
    var a := FirstDecides(row, es, horizon, latest, [top]);
    assert At([e, top], clock) == [Delivery(e, clock)] + [Delivery(top, clock)];
    FinalConcat(row, [Delivery(e, clock)], [Delivery(top, clock)]);
    FinalOfOne(row, Delivery(e, clock));
    FinalOfOne(Final(row, [Delivery(e, clock)]), Delivery(top, clock));
    var b := FirstDecides(row, es, horizon, latest, [e, top]);
    assert Final(row, a).billingInterval == row.billingInterval && Final(row, b).billingInterval == e.interval;
  }

  lemma TwoIntervalsMatter(row: Profile, es: set<Event>, horizon: int, latest: int, x: Interval, y: Interval)
    requires Dormant(row, horizon) && Attainable(es, horizon, latest) && x != y
    requires x in IntervalsFor(es, latest) && y in IntervalsFor(es, latest)
    ensures !Agrees(row, es, horizon)
  {
    var a := LastDecides(row, es, horizon, latest, x);
    var b := LastDecides(row, es, horizon, latest, y);
  }

  /** All settled runs over the same events end with the same interval exactly if the payments for the latest
    * period name exactly one, or name none and all earlier payments name the one the row has already. */
  lemma IntervalConvergesIff(row: Profile, es: set<Event>, horizon: int, latest: int)
    requires Dormant(row, horizon) && Attainable(es, horizon, latest)
    ensures Agrees(row, es, horizon) <==>
              || |IntervalsFor(es, latest)| == 1
              || (IntervalsFor(es, latest) == {} && NamesOnly(es, row.billingInterval))
  {
    var named := IntervalsFor(es, latest);
    if named == {} {
      if NamesOnly(es, row.billingInterval) {
        forall ds | IsRun(ds, es, horizon)
          ensures Final(row, ds).billingInterval == row.billingInterval
        {
          NamesOnlyAgrees(row, es, horizon, ds);
        }
      } else {
        var e :| e in es && e.Paid? && e.interval.Some? && e.interval != row.billingInterval;
        EarlierIntervalMatters(row, es, horizon, latest, e);
      }
    } else {
      var x :| x in named;
      if named == {x} {
        forall ds | IsRun(ds, es, horizon)
          ensures Final(row, ds).billingInterval == Some(x)
        {
          OneIntervalAgrees(row, es, horizon, latest, x, ds);
        }
      } else {
        var y :| y in named && y != x;
        TwoIntervalsMatter(row, es, horizon, latest, x, y);
        TwoMembers(named, x, y);
      }
    }
  }

  lemma TwoMembers<T>(s: set<T>, x: T, y: T)
    requires x in s && y in s && x != y
    ensures |s| >= 2
  {
    SubsetSize({x, y}, s);
  }
}
