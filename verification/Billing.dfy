/** Paid entitlements: the guarded row updates of `_update_subscription`, and what any
  * at-least-once, out-of-order delivery of payment events makes of a profile row. */
module Billing {
  import opened Common

  const PRO_LIMIT := 100
  const BASIC_LIMIT := 3

  datatype Tier = Free | Pro
  datatype Interval = Monthly | Annual

  /** A row of the profiles table. `periodEnd`, `billingInterval` and `cancelAtPeriodEnd` are nullable. */
  datatype Profile = Profile(
    customer: Option<string>,
    tier: Tier,
    usageCount: nat,
    usageLimit: nat,
    usageResetAt: int,
    extraCredits: nat,
    periodEnd: Option<int>,
    billingInterval: Option<Interval>,
    cancelAtPeriodEnd: Option<bool>)

  /** The database clock: `now()`, and the first instant of the next UTC calendar month. */
  datatype Clock = Clock(now: int, nextMonth: int)

  // ----- SQL's three-valued logic; a CASE or WHERE takes a branch only on True -----

  datatype Truth = True | False | Unknown

  function Known(b: bool): Truth {
    if b then True else False
  }

  function Or(a: Truth, b: Truth): Truth {
    if a == True || b == True then True
    else if a == False && b == False then False
    else Unknown
  }

  function And(a: Truth, b: Truth): Truth {
    if a == False || b == False then False
    else if a == True && b == True then True
    else Unknown
  }

  function Compare(a: Option<int>, holds: int -> bool): Truth {
    match a
    case None => Unknown
    case Some(x) => Known(holds(x))
  }

  function UsageLimit(tier: Tier): nat {
    if tier == Pro then PRO_LIMIT else BASIC_LIMIT
  }

  // ----- One row -----

  /** WHERE clause of the activation update, identifier aside. */
  predicate Accepts(row: Profile, periodEnd: int, clock: Clock) {
    And(Known(periodEnd > clock.now),
        Or(Known(row.periodEnd.None?), Compare(row.periodEnd, x => x <= periodEnd))) == True
  }

  /** SET clause of the activation update; every right-hand side reads the old row. */
  function Activated(row: Profile, tier: Tier, periodEnd: int, interval: Option<Interval>, clock: Clock): Profile {
    var resets := Or(Known(row.tier != tier), Compare(row.periodEnd, x => x <= clock.now)) == True;
    row.(
      tier := tier,
      usageLimit := UsageLimit(tier),
      usageCount := if resets then 0 else row.usageCount,
      usageResetAt := if resets then clock.nextMonth else row.usageResetAt,
      billingInterval := if interval.Some? then interval else row.billingInterval,
      cancelAtPeriodEnd :=
        if Or(Known(row.periodEnd.None?), Compare(row.periodEnd, x => x < periodEnd)) == True
        then Some(false) else row.cancelAtPeriodEnd,
      periodEnd := Some(periodEnd))
  }

  /** WHERE clause of the cancellation update. */
  predicate Cancels(row: Profile, periodEnd: int) {
    And(Known(row.tier == Pro), Compare(row.periodEnd, x => x == periodEnd)) == True
  }

  /** Whether a cancellation that matched no row may be dropped. */
  predicate Outlived(row: Profile, periodEnd: int) {
    Compare(row.periodEnd, x => x > periodEnd) == True
  }

  datatype Event =
    | Paid(periodEnd: int, interval: Option<Interval>)
    | Cancel(periodEnd: int)
    | Use

  /** What one delivery does to the one row its identifier selects. `accepted` is false when the
    * handler raises, so that the provider delivers the event again. */
  datatype Delivered = Delivered(row: Profile, accepted: bool)

  function Deliver(row: Profile, e: Event, clock: Clock): Delivered {
    match e
    case Paid(p, interval) =>
      Delivered(if Accepts(row, p, clock) then Activated(row, Pro, p, interval, clock) else row, true)
    case Cancel(p) =>
      if Cancels(row, p) then Delivered(row.(cancelAtPeriodEnd := Some(true)), true)
      else Delivered(row, p <= clock.now || Outlived(row, p))
    case Use =>
      // check_and_consume_quota, run sequentially
      if row.usageCount < row.usageLimit then Delivered(row.(usageCount := row.usageCount + 1), true)
      else if row.extraCredits > 0 then Delivered(row.(extraCredits := row.extraCredits - 1), true)
      else Delivered(row, false)
  }

  // ----- The table -----

  datatype Identifier = ByUser(id: string) | ByCustomer(customer: string)

  predicate Selects(who: Identifier, id: string, row: Profile) {
    match who
    case ByUser(u) => id == u
    case ByCustomer(c) => row.customer == Some(c)
  }

  class ProfileTable {
    var rows: map<string, Profile>

    /** creem_customer_id is declared unique. */
    ghost predicate Valid()
      reads this
    {
      forall a, b :: a in rows && b in rows && rows[a].customer.Some? && rows[a].customer == rows[b].customer ==> a == b
    }

    /** The cancellation branch; `ok` is false when it raises. */
    method RecordCancellation(who: Identifier, periodEnd: int, clock: Clock) returns (ok: bool)
      requires Valid()
      modifies this
      ensures Valid() && rows.Keys == old(rows.Keys)
      ensures forall id :: id in rows && !Selects(who, id, old(rows)[id]) ==> rows[id] == old(rows)[id]
      ensures forall id :: id in rows && Selects(who, id, old(rows)[id]) ==>
                Delivered(rows[id], ok) == Deliver(old(rows)[id], Cancel(periodEnd), clock)
      ensures (forall id :: id in rows ==> !Selects(who, id, old(rows)[id])) ==> ok == (periodEnd <= clock.now)
    {
      var matched := set id | id in rows && Selects(who, id, rows[id]) && Cancels(rows[id], periodEnd);
      rows := map id | id in rows :: if id in matched then rows[id].(cancelAtPeriodEnd := Some(true)) else rows[id];
      if matched != {} {
        return true;
      }
      var outlived := exists id :: id in rows && Selects(who, id, rows[id]) && Outlived(rows[id], periodEnd);
      return periodEnd <= clock.now || outlived;
    }

    /** `_update_subscription` for tier 'pro'; `ok` is false when it raises. */
    method UpdateSubscription(who: Identifier, periodEnd: int, interval: Option<Interval>, canceled: bool, clock: Clock)
      returns (ok: bool)
      requires Valid()
      modifies this
      ensures Valid() && rows.Keys == old(rows.Keys)
      ensures forall id :: id in rows && !Selects(who, id, old(rows)[id]) ==> rows[id] == old(rows)[id]
      ensures forall id :: id in rows && Selects(who, id, old(rows)[id]) ==>
                Delivered(rows[id], ok) ==
                Deliver(old(rows)[id], if canceled then Cancel(periodEnd) else Paid(periodEnd, interval), clock)
      ensures (forall id :: id in rows ==> !Selects(who, id, old(rows)[id])) ==>
                ok == (!canceled || periodEnd <= clock.now)
    {
      if canceled {
        ok := RecordCancellation(who, periodEnd, clock);
        return;
      }
      rows := map id | id in rows ::
        if Selects(who, id, rows[id]) && Accepts(rows[id], periodEnd, clock)
        then Activated(rows[id], Pro, periodEnd, interval, clock) else rows[id];
      return true;
    }
  }

  // ----- Runs -----

  datatype Delivery = Delivery(event: Event, clock: Clock)

  function Final(row: Profile, ds: seq<Delivery>): Profile {
    if ds == [] then row
    else Deliver(Final(row, ds[..|ds|-1]), ds[|ds|-1].event, ds[|ds|-1].clock).row
  }

  predicate AcceptedAt(row: Profile, ds: seq<Delivery>, i: nat)
    requires i < |ds|
  {
    Deliver(Final(row, ds[..i]), ds[i].event, ds[i].clock).accepted
  }

  /** The entitlement events that some delivery of the run got accepted. */
  function AcceptedSet(row: Profile, ds: seq<Delivery>): set<Event> {
    if ds == [] then {}
    else
      var before := AcceptedSet(row, ds[..|ds|-1]);
      var last := ds[|ds|-1];
      if !last.event.Use? && Deliver(Final(row, ds[..|ds|-1]), last.event, last.clock).accepted
      then before + {last.event} else before
  }

  /** Every delivery happens before `horizon` and every period in it ends no earlier. */
  predicate Unexpired(ds: seq<Delivery>, horizon: int) {
    forall i :: 0 <= i < |ds| ==>
      ds[i].clock.now < horizon && (!ds[i].event.Use? ==> horizon <= ds[i].event.periodEnd)
  }

  /** No unexpired paid period recorded yet. */
  predicate Dormant(row: Profile, horizon: int) {
    row.periodEnd.Some? ==> row.periodEnd.value < horizon
  }

  /** The row is the meaning of the set of accepted events: pro up to the latest paid period,
    * cancelled exactly when that very period was cancelled. */
  ghost predicate Represents(row: Profile, es: set<Event>, horizon: int) {
    if exists p, i :: Paid(p, i) in es then
      && row.tier == Pro
      && row.usageLimit == PRO_LIMIT
      && row.periodEnd.Some?
      && horizon <= row.periodEnd.value
      && (exists i :: Paid(row.periodEnd.value, i) in es)
      && (forall e :: e in es && !e.Use? ==> e.periodEnd <= row.periodEnd.value)
      && row.cancelAtPeriodEnd == Some(Cancel(row.periodEnd.value) in es)
    else
      Dormant(row, horizon) && forall p :: Cancel(p) !in es
  }

  lemma DeliverKeepsMeaning(row: Profile, es: set<Event>, e: Event, clock: Clock, horizon: int)
    requires Represents(row, es, horizon)
    requires clock.now < horizon && (!e.Use? ==> horizon <= e.periodEnd)
    ensures var d := Deliver(row, e, clock);
            Represents(d.row, if d.accepted && !e.Use? then es + {e} else es, horizon)
  {
    var d := Deliver(row, e, clock);
    var es' := if d.accepted && !e.Use? then es + {e} else es;
    if e.Paid? {
      assert Paid(e.periodEnd, e.interval) in es';
    }
    assert forall p, i :: Paid(p, i) in es ==> Paid(p, i) in es';
  }

  lemma {:induction false} RunKeepsMeaning(row: Profile, ds: seq<Delivery>, horizon: int)
    requires Dormant(row, horizon) && Unexpired(ds, horizon)
    ensures Represents(Final(row, ds), AcceptedSet(row, ds), horizon)
  {
    if ds != [] {
      var n := |ds| - 1;
      RunKeepsMeaning(row, ds[..n], horizon);
      DeliverKeepsMeaning(Final(row, ds[..n]), AcceptedSet(row, ds[..n]), ds[n].event, ds[n].clock, horizon);
    }
  }

  lemma {:induction false} AcceptedSetMembers(row: Profile, ds: seq<Delivery>, e: Event)
    ensures e in AcceptedSet(row, ds) <==>
            exists i :: 0 <= i < |ds| && ds[i].event == e && !e.Use? && AcceptedAt(row, ds, i)
  {
    if ds != [] {
      var n := |ds| - 1;
      var before := ds[..n];
      AcceptedSetMembers(row, before, e);
      forall i | 0 <= i < n
        ensures AcceptedAt(row, before, i) == AcceptedAt(row, ds, i)
      {
        assert before[..i] == ds[..i];
      }
      assert AcceptedAt(row, ds, n) == Deliver(Final(row, before), ds[n].event, ds[n].clock).accepted;
      if exists i :: 0 <= i < |ds| && ds[i].event == e && !e.Use? && AcceptedAt(row, ds, i) {
        var i :| 0 <= i < |ds| && ds[i].event == e && !e.Use? && AcceptedAt(row, ds, i);
        assert i == n || (before[i].event == e && AcceptedAt(row, before, i));
      }
      if e in AcceptedSet(row, before) {
        var i :| 0 <= i < n && before[i].event == e && !e.Use? && AcceptedAt(row, before, i);
        assert ds[i].event == e && AcceptedAt(row, ds, i);
      }
    }
  }

  /** A cancellation is accepted exactly when a payment for its period or a later one has been
    * delivered before it; until then the provider has to redeliver it. */
  lemma CancellationAcceptedIff(row: Profile, ds: seq<Delivery>, k: nat, horizon: int)
    requires Dormant(row, horizon) && Unexpired(ds, horizon)
    requires k < |ds| && ds[k].event.Cancel?
    ensures AcceptedAt(row, ds, k) <==>
            exists j :: 0 <= j < k && ds[j].event.Paid? && ds[k].event.periodEnd <= ds[j].event.periodEnd
  {
    var before, p := ds[..k], ds[k].event.periodEnd;
    var es := AcceptedSet(row, before);
    RunKeepsMeaning(row, before, horizon);
    forall j | 0 <= j < k && ds[j].event.Paid?
      ensures before[j].event in es
    {
      assert AcceptedAt(row, before, j);
      AcceptedSetMembers(row, before, before[j].event);
    }
    if AcceptedAt(row, ds, k) {
      var top := Final(row, before).periodEnd;
      assert exists q, i :: Paid(q, i) in es;
      var i :| Paid(top.value, i) in es;
      AcceptedSetMembers(row, before, Paid(top.value, i));
    }
  }

  function Events(ds: seq<Delivery>): set<Event> {
    set i | 0 <= i < |ds| && !ds[i].event.Use? :: ds[i].event
  }

  /** Delivery `i`, if a cancellation, is repeated after a payment for its period or a later one. */
  predicate Redelivered(ds: seq<Delivery>, i: nat)
    requires i < |ds|
  {
    ds[i].event.Cancel? ==>
      exists j, k :: 0 <= j < k < |ds| && ds[k].event == ds[i].event &&
        ds[j].event.Paid? && ds[i].event.periodEnd <= ds[j].event.periodEnd
  }

  /** Every cancellation was eventually redelivered late enough. */
  predicate Settled(ds: seq<Delivery>) {
    forall i: nat :: i < |ds| ==> Redelivered(ds, i)
  }

  lemma AcceptanceEntersSet(row: Profile, ds: seq<Delivery>, k: nat)
    requires k < |ds| && !ds[k].event.Use? && AcceptedAt(row, ds, k)
    ensures ds[k].event in AcceptedSet(row, ds)
  {
    AcceptedSetMembers(row, ds, ds[k].event);
  }

  lemma SettledAccepts(row: Profile, ds: seq<Delivery>, horizon: int, i: nat)
    requires Dormant(row, horizon) && Unexpired(ds, horizon) && Settled(ds)
    requires i < |ds| && !ds[i].event.Use?
    ensures ds[i].event in AcceptedSet(row, ds)
  {
    if ds[i].event.Cancel? {
      assert Redelivered(ds, i);
      var j, k :| 0 <= j < k < |ds| && ds[k].event == ds[i].event &&
        ds[j].event.Paid? && ds[i].event.periodEnd <= ds[j].event.periodEnd;
      CancellationAcceptedIff(row, ds, k, horizon);
      AcceptanceEntersSet(row, ds, k);
    } else {
      AcceptanceEntersSet(row, ds, i);
    }
  }

  lemma SettledAcceptsAll(row: Profile, ds: seq<Delivery>, horizon: int)
    requires Dormant(row, horizon) && Unexpired(ds, horizon) && Settled(ds)
    ensures AcceptedSet(row, ds) == Events(ds)
  {
    forall i | 0 <= i < |ds| && !ds[i].event.Use?
      ensures ds[i].event in AcceptedSet(row, ds)
    {
      SettledAccepts(row, ds, horizon, i);
    }
    forall e | e in AcceptedSet(row, ds)
      ensures e in Events(ds)
    {
      AcceptedSetMembers(row, ds, e);
    }
  }

  /** The outcome of a settled run depends on its set of events only. */
  lemma Convergence(row: Profile, ds: seq<Delivery>, horizon: int)
    requires Dormant(row, horizon) && Unexpired(ds, horizon) && Settled(ds)
    requires exists p, i :: Paid(p, i) in Events(ds)
    ensures var end := Final(row, ds);
            && end.tier == Pro && end.usageLimit == PRO_LIMIT
            && end.periodEnd.Some?
            && (exists i :: Paid(end.periodEnd.value, i) in Events(ds))
            && (forall p, i :: Paid(p, i) in Events(ds) ==> p <= end.periodEnd.value)
            && end.cancelAtPeriodEnd == Some(Cancel(end.periodEnd.value) in Events(ds))
  {
    RunKeepsMeaning(row, ds, horizon);
    SettledAcceptsAll(row, ds, horizon);
  }

  lemma OrderAndDuplicationDoNotMatter(
    row1: Profile, ds1: seq<Delivery>, row2: Profile, ds2: seq<Delivery>, horizon: int)
    requires Dormant(row1, horizon) && Unexpired(ds1, horizon) && Settled(ds1)
    requires Dormant(row2, horizon) && Unexpired(ds2, horizon) && Settled(ds2)
    requires Events(ds1) == Events(ds2)
    requires exists p, i :: Paid(p, i) in Events(ds1)
    ensures var a, b := Final(row1, ds1), Final(row2, ds2);
            && a.tier == b.tier && a.usageLimit == b.usageLimit
            && a.periodEnd == b.periodEnd && a.cancelAtPeriodEnd == b.cancelAtPeriodEnd
  {
    Convergence(row1, ds1, horizon);
    Convergence(row2, ds2, horizon);
    var a, b := Final(row1, ds1), Final(row2, ds2);
    var i :| Paid(a.periodEnd.value, i) in Events(ds1);
    var j :| Paid(b.periodEnd.value, j) in Events(ds2);
  }

  // ----- The billing interval is the one entitlement column that need not converge (see BillingInterval) -----

  /** The known intervals carried by the payments for the period `p`. */
  function IntervalsFor(es: set<Event>, p: int): set<Interval> {
    set e | e in es && e.Paid? && e.periodEnd == p && e.interval.Some? :: e.interval.value
  }

  /** It is determined when the payments for the latest period name exactly one interval. */
  lemma {:induction false} BillingIntervalConverges(row: Profile, ds: seq<Delivery>, horizon: int, x: Interval)
    requires Dormant(row, horizon) && Unexpired(ds, horizon)
    requires exists p, i :: Paid(p, i) in AcceptedSet(row, ds)
    ensures var end := Final(row, ds);
            end.periodEnd.Some? &&
            (IntervalsFor(AcceptedSet(row, ds), end.periodEnd.value) == {x} ==> end.billingInterval == Some(x))
  {
    RunKeepsMeaning(row, ds, horizon);
    var n := |ds| - 1;
    var before, last := ds[..n], ds[n];
    var es, es' := AcceptedSet(row, before), AcceptedSet(row, ds);
    var mid, end := Final(row, before), Final(row, ds);
    RunKeepsMeaning(row, before, horizon);
    var p := end.periodEnd.value;
    if IntervalsFor(es', p) == {x} {
      if last.event.Paid? && last.event.periodEnd == p && last.event.interval.Some? {
        assert last.event.interval.value in IntervalsFor(es', p);
      } else {
        // The last delivery adds no interval for p, so an earlier one already did.
        assert IntervalsFor(es, p) == {x} by {
          assert forall e :: e in es' && e != last.event ==> e in es;
          assert forall e :: e in es ==> e in es';
          assert forall y :: y in IntervalsFor(es, p) <==> y in IntervalsFor(es', p);
        }
        assert x in IntervalsFor(es, p);
        var e :| e in es && e.Paid? && e.periodEnd == p && e.interval == Some(x);
        assert Paid(e.periodEnd, e.interval) in es;
        BillingIntervalConverges(row, before, horizon, x);
        assert mid.periodEnd.value == p;
      }
    }
  }

  // ----- Monotone entitlement, usage never refilled -----

  /** Holds for every run, expired periods and lagging clocks included. */
  lemma {:induction false} PeriodEndNeverDecreases(row: Profile, ds: seq<Delivery>)
    ensures row.periodEnd.Some? ==>
              Final(row, ds).periodEnd.Some? && row.periodEnd.value <= Final(row, ds).periodEnd.value
    ensures row.tier == Pro ==> Final(row, ds).tier == Pro
  {
    if ds != [] {
      PeriodEndNeverDecreases(row, ds[..|ds|-1]);
    }
  }

  /** Uses granted by quota or credit in the run. */
  function Granted(row: Profile, ds: seq<Delivery>): nat {
    if ds == [] then 0
    else
      var n := |ds| - 1;
      Granted(row, ds[..n]) + if ds[n].event.Use? && AcceptedAt(row, ds, n) then 1 else 0
  }

  /** From an active entitlement, whatever is delivered before it ends, every granted use stays
    * charged: it is either in the usage count or taken from the credits. */
  lemma {:induction false} DeliveryNeverRefillsUsage(row: Profile, ds: seq<Delivery>, horizon: int)
    requires row.tier == Pro && row.periodEnd.Some? && horizon <= row.periodEnd.value
    requires forall i :: 0 <= i < |ds| ==> ds[i].clock.now < horizon
    ensures Final(row, ds).usageCount - Final(row, ds).extraCredits
         == row.usageCount - row.extraCredits + Granted(row, ds)
    ensures Final(row, ds).usageCount >= row.usageCount
    ensures Final(row, ds).usageResetAt == row.usageResetAt
  {
    if ds != [] {
      var n := |ds| - 1;
      DeliveryNeverRefillsUsage(row, ds[..n], horizon);
      PeriodEndNeverDecreases(row, ds[..n]);
    }
  }

  /** An activation clears the usage exactly when the tier changes or the recorded period is over. */
  lemma UsageClearedIff(row: Profile, p: int, interval: Option<Interval>, clock: Clock)
    requires row.usageCount > 0
    ensures Deliver(row, Paid(p, interval), clock).row.usageCount != row.usageCount <==>
              && clock.now < p
              && (row.periodEnd.Some? ==> row.periodEnd.value <= p)
              && (row.tier != Pro || (row.periodEnd.Some? && row.periodEnd.value <= clock.now))
  {
  }
}
