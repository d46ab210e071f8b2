/** The checkout.completed webhook: the order of receipt, credit and entitlement writes, and what
  * redelivery after failures and crashes makes of them. */
module Checkout {
  import opened Common
  import opened Billing

  datatype OrderStatus = Pending | Completed

  /** The handler's view of the event: `credits` is the price's credits, 0 when the price is unknown. */
  datatype Checkout = Checkout(
    id: Option<string>,
    user: Option<string>,
    customer: Option<string>,
    recurring: bool,
    periodEnd: Option<int>,
    interval: Option<Interval>,
    credits: nat)

  /** What goes wrong in one delivery: a failed order or credit write is logged and swallowed, a failed
    * entitlement write is raised, and the process may die between its two writes. */
  datatype Faults = Faults(receipt: bool, credit: bool, entitlement: bool, crash: bool)

  datatype Response = Success | AlreadyProcessed | Raised | Crashed

  function OrderOf(orders: map<string, OrderStatus>, id: Option<string>): Option<OrderStatus> {
    if id.Some? && id.value in orders then Some(orders[id.value]) else None
  }

  // ----- One-time purchases -----

  /** The order the checkout is recorded under, if any, and the credits of the buyer. */
  datatype TopUp = TopUp(order: Option<OrderStatus>, credits: nat)

  function DeliverTopUp(st: TopUp, amount: nat, f: Faults): TopUp {
    if st.order == Some(Completed) then st
    else TopUp(
           if st.order.Some? && !f.receipt then Some(Completed) else st.order,
           if f.crash || f.credit then st.credits else st.credits + amount)
  }

  // ----- Subscriptions -----

  datatype Renewal = Renewal(order: Option<OrderStatus>, row: Profile)

  function DeliverRenewal(st: Renewal, periodEnd: Option<int>, interval: Option<Interval>, f: Faults,
                          clock: Clock): Renewal {
    if st.order == Some(Completed) || (periodEnd.Some? && f.entitlement) then st
    else Renewal(
           RenewedOrder(st.order, periodEnd, f),
           if periodEnd.Some? then Deliver(st.row, Paid(periodEnd.value, interval), clock).row else st.row)
  }

  /** The delivery gets past both writes. */
  predicate PastBothWrites(periodEnd: Option<int>, f: Faults) {
    !(periodEnd.Some? && f.entitlement) && !f.crash && !f.receipt
  }

  function RenewedOrder(order: Option<OrderStatus>, periodEnd: Option<int>, f: Faults): Option<OrderStatus> {
    if order.Some? && PastBothWrites(periodEnd, f) then Some(Completed) else order
  }

  // ----- The whole store -----

  datatype Books = Books(orders: map<string, OrderStatus>, rows: map<string, Profile>)

  /** Another profile holds the customer. */
  predicate Taken(rows: map<string, Profile>, user: string, customer: string) {
    exists u :: u in rows && u != user && rows[u].customer == Some(customer)
  }

  function LinkedRows(rows: map<string, Profile>, user: string, customer: string): map<string, Profile> {
    if user in rows && !Taken(rows, user, customer) then rows[user := rows[user].(customer := Some(customer))]
    else rows
  }

  function Linked(b: Books, ev: Checkout): Books {
    if ev.user.Some? && ev.customer.Some? then b.(rows := LinkedRows(b.rows, ev.user.value, ev.customer.value)) else b
  }

  function Receipted(orders: map<string, OrderStatus>, id: Option<string>, f: Faults): map<string, OrderStatus> {
    if OrderOf(orders, id).Some? && !f.receipt then orders[id.value := Completed] else orders
  }

  function CreditedRows(rows: map<string, Profile>, user: string, amount: nat, f: Faults): map<string, Profile> {
    if user in rows && !f.credit then rows[user := rows[user].(extraCredits := rows[user].extraCredits + amount)]
    else rows
  }

  function PaidRows(rows: map<string, Profile>, user: string, periodEnd: int, interval: Option<Interval>,
                    clock: Clock): map<string, Profile> {
    if user in rows then rows[user := Deliver(rows[user], Paid(periodEnd, interval), clock).row] else rows
  }

  function Purchased(b: Books, ev: Checkout, f: Faults): Books {
    Books(Receipted(b.orders, ev.id, f),
          if !f.crash && ev.credits > 0 && ev.user.Some? then CreditedRows(b.rows, ev.user.value, ev.credits, f)
          else b.rows)
  }

  function Subscribed(b: Books, ev: Checkout, f: Faults, clock: Clock): Books {
    if ev.user.Some? && ev.periodEnd.Some? && f.entitlement then b
    else Books(
           if f.crash then b.orders else Receipted(b.orders, ev.id, f),
           if ev.user.Some? && ev.periodEnd.Some?
           then PaidRows(b.rows, ev.user.value, ev.periodEnd.value, ev.interval, clock) else b.rows)
  }

  /** The period an entitlement is written for: there is none without a user. */
  function Period(ev: Checkout): Option<int> {
    if ev.user.Some? then ev.periodEnd else None
  }

  /** What one delivery makes of orders and profiles. */
  function Handled(b: Books, ev: Checkout, f: Faults, clock: Clock): Books {
    var l := Linked(b, ev);
    if OrderOf(b.orders, ev.id) == Some(Completed) then l
    else if ev.recurring then Subscribed(l, ev, f, clock)
    else Purchased(l, ev, f)
  }

  class Store {
    const table: ProfileTable
    var orders: map<string, OrderStatus>

    constructor (table: ProfileTable)
      ensures this.table == table && orders == map[]
    {
      this.table := table;
      orders := map[];
    }

    /** link_creem_customer; a violated unique constraint is swallowed. */
    method LinkCustomer(user: string, customer: string)
      requires table.Valid()
      modifies table
      ensures table.Valid() && table.rows.Keys == old(table.rows.Keys)
      ensures table.rows == LinkedRows(old(table.rows), user, customer)
    {
      if user in table.rows && !Taken(table.rows, user, customer) {
        table.rows := table.rows[user := table.rows[user].(customer := Some(customer))];
      }
    }

    method CompleteOrder(id: Option<string>, f: Faults)
      modifies this`orders
      ensures orders == Receipted(old(orders), id, f)
    {
      if OrderOf(orders, id).Some? && !f.receipt {
        orders := orders[id.value := Completed];
      }
    }

    /** add_credits; a failed write is swallowed. */
    method AddCredits(user: string, amount: nat, f: Faults)
      requires table.Valid()
      modifies table
      ensures table.Valid() && table.rows.Keys == old(table.rows.Keys)
      ensures table.rows == CreditedRows(old(table.rows), user, amount, f)
    {
      if user in table.rows && !f.credit {
        var row := table.rows[user];
        table.rows := table.rows[user := row.(extraCredits := row.extraCredits + amount)];
      }
    }

    /** update_subscription_by_user for a paid period. */
    method Activate(user: string, periodEnd: int, interval: Option<Interval>, clock: Clock)
      requires table.Valid()
      modifies table
      ensures table.Valid() && table.rows.Keys == old(table.rows.Keys)
      ensures table.rows == PaidRows(old(table.rows), user, periodEnd, interval, clock)
    {
      ghost var expected := PaidRows(table.rows, user, periodEnd, interval, clock);
      var _ := table.UpdateSubscription(ByUser(user), periodEnd, interval, false, clock);
      assert forall u :: u in table.rows ==> table.rows[u] == expected[u];
      assert table.rows == expected;
    }

    /** The one-time branch: receipt first, then credits. */
    method CreditPurchase(ev: Checkout, f: Faults) returns (r: Response)
      requires table.Valid()
      modifies this`orders, table
      ensures table.Valid()
      ensures Books(orders, table.rows) == Purchased(Books(old(orders), old(table.rows)), ev, f)
      ensures r == if f.crash then Crashed else Success
    {
      CompleteOrder(ev.id, f);
      if f.crash {
        return Crashed;
      }
      if ev.credits > 0 && ev.user.Some? {
        AddCredits(ev.user.value, ev.credits, f);
      }
      return Success;
    }

    /** The recurring branch: entitlement first, then receipt. */
    method ActivateSubscription(ev: Checkout, f: Faults, clock: Clock) returns (r: Response)
      requires table.Valid()
      modifies this`orders, table
      ensures table.Valid()
      ensures Books(orders, table.rows) == Subscribed(Books(old(orders), old(table.rows)), ev, f, clock)
      ensures r == if ev.user.Some? && ev.periodEnd.Some? && f.entitlement then Raised
                   else if f.crash then Crashed else Success
    {
      if ev.user.Some? && ev.periodEnd.Some? {
        if f.entitlement {
          return Raised;
        }
        Activate(ev.user.value, ev.periodEnd.value, ev.interval, clock);
      }
      if f.crash {
        return Crashed;
      }
      CompleteOrder(ev.id, f);
      return Success;
    }

    /** One delivery of checkout.completed. */
    method HandleCheckout(ev: Checkout, f: Faults, clock: Clock) returns (r: Response)
      requires table.Valid()
      modifies this`orders, table
      ensures table.Valid()
      ensures Books(orders, table.rows) == Handled(Books(old(orders), old(table.rows)), ev, f, clock)
      ensures r == AlreadyProcessed <==> OrderOf(old(orders), ev.id) == Some(Completed)
      ensures r == Raised ==> orders == old(orders)
    {
      if ev.user.Some? && ev.customer.Some? {
        LinkCustomer(ev.user.value, ev.customer.value);
      }
      if OrderOf(orders, ev.id) == Some(Completed) {
        return AlreadyProcessed;
      }
      if ev.recurring {
        r := ActivateSubscription(ev, f, clock);
      } else {
        r := CreditPurchase(ev, f);
      }
    }
  }

  /** A delivery touches the order and the profile it names only. */
  lemma HandledIsLocal(b: Books, ev: Checkout, f: Faults, clock: Clock)
    ensures var after := Handled(b, ev, f, clock);
            && after.rows.Keys == b.rows.Keys && after.orders.Keys == b.orders.Keys
            && (forall o :: o in b.orders && Some(o) != ev.id ==> after.orders[o] == b.orders[o])
            && (forall u :: u in b.rows && Some(u) != ev.user ==> after.rows[u] == b.rows[u])
  {
  }

  /** The order is completed as a single order is. */
  lemma HandledOrder(b: Books, ev: Checkout, f: Faults, clock: Clock)
    ensures OrderOf(Handled(b, ev, f, clock).orders, ev.id) ==
              if ev.recurring then RenewedOrder(OrderOf(b.orders, ev.id), Period(ev), f)
              else DeliverTopUp(TopUp(OrderOf(b.orders, ev.id), 0), 0, f).order
  {
  }

  /** A subscription does to its order and profile what becomes of a single order and a single row. */
  lemma HandledSubscription(b: Books, ev: Checkout, f: Faults, clock: Clock)
    requires ev.recurring && ev.user.Some? && ev.user.value in b.rows
    ensures var u, after := ev.user.value, Handled(b, ev, f, clock);
            && u in after.rows
            && Renewal(OrderOf(after.orders, ev.id), after.rows[u]) ==
                 DeliverRenewal(Renewal(OrderOf(b.orders, ev.id), Linked(b, ev).rows[u]), ev.periodEnd, ev.interval,
                                f, clock)
  {
  }

  /** And so does a purchase, which changes nothing of the profile but its credits. */
  lemma HandledPurchase(b: Books, ev: Checkout, f: Faults, clock: Clock)
    requires !ev.recurring && ev.user.Some? && ev.user.value in b.rows
    ensures var u, after := ev.user.value, Handled(b, ev, f, clock);
            && u in after.rows
            && after.rows[u] == Linked(b, ev).rows[u].(extraCredits := after.rows[u].extraCredits)
            && TopUp(OrderOf(after.orders, ev.id), after.rows[u].extraCredits) ==
                 DeliverTopUp(TopUp(OrderOf(b.orders, ev.id), Linked(b, ev).rows[u].extraCredits), ev.credits, f)
  {
  }

  // ----- Redelivery of a one-time purchase -----

  function TopUps(st: TopUp, amount: nat, fs: seq<Faults>): TopUp {
    if fs == [] then st else DeliverTopUp(TopUps(st, amount, fs[..|fs|-1]), amount, fs[|fs|-1])
  }

  /** Some earlier delivery recorded the receipt. */
  predicate HasReceipt(order: Option<OrderStatus>, fs: seq<Faults>) {
    order == Some(Completed) || (order.Some? && exists f :: f in fs && !f.receipt)
  }

  /** Delivery `i` adds the credits. */
  predicate Credits(order: Option<OrderStatus>, fs: seq<Faults>, i: nat)
    requires i < |fs|
  {
    !fs[i].crash && !fs[i].credit && !HasReceipt(order, fs[..i])
  }

  function CreditCount(order: Option<OrderStatus>, fs: seq<Faults>): nat {
    if fs == [] then 0
    else CreditCount(order, fs[..|fs|-1]) + if Credits(order, fs, |fs| - 1) then 1 else 0
  }

  lemma {:induction false} OrderAfter(st: TopUp, amount: nat, fs: seq<Faults>)
    ensures TopUps(st, amount, fs).order == if HasReceipt(st.order, fs) then Some(Completed) else st.order
  {
    if fs != [] {
      var n := |fs| - 1;
      OrderAfter(st, amount, fs[..n]);
      assert fs == fs[..n] + [fs[n]];
    }
  }

  lemma {:induction false} CreditsAfter(st: TopUp, amount: nat, fs: seq<Faults>)
    ensures TopUps(st, amount, fs).credits == st.credits + amount * CreditCount(st.order, fs)
  {
    if fs != [] {
      var n := |fs| - 1;
      CreditsAfter(st, amount, fs[..n]);
      OrderAfter(st, amount, fs[..n]);
      OneMore(amount, CreditCount(st.order, fs[..n]));
    }
  }

  lemma OneMore(amount: nat, c: nat)
    ensures amount * (c + 1) == amount * c + amount && amount * (c + 0) == amount * c
  {
  }

  lemma {:induction false} CreditCountAtMostOne(order: Option<OrderStatus>, fs: seq<Faults>)
    ensures CreditCount(order, fs) == 0 <==> forall i: nat :: i < |fs| ==> !Credits(order, fs, i)
    ensures CreditCount(order, fs) <= 1 <==>
            forall i: nat, j: nat :: i < j < |fs| && Credits(order, fs, i) ==> !Credits(order, fs, j)
  {
    if fs != [] {
      var n := |fs| - 1;
      var before := fs[..n];
      CreditCountAtMostOne(order, before);
      forall i: nat | i < n
        ensures Credits(order, before, i) == Credits(order, fs, i)
      {
        assert before[..i] == fs[..i];
      }
    }
  }

  /** With a recorded order whose receipt write succeeds, a purchase is credited at most once, however
    * often it is redelivered and wherever a delivery dies; it is credited at all exactly when the
    * first delivery survives to a working credit write. */
  lemma CreditedAtMostOnce(st: TopUp, amount: nat, fs: seq<Faults>)
    requires st.order == Some(Pending)
    requires forall f :: f in fs ==> !f.receipt
    ensures TopUps(st, amount, fs).credits
         == st.credits + if fs != [] && !fs[0].crash && !fs[0].credit then amount else 0
  {
    CreditsAfter(st, amount, fs);
    forall i: nat | 0 < i < |fs|
      ensures !Credits(st.order, fs, i)
    {
      assert fs[..i][0] == fs[0];
    }
    CreditCountAtMostOne(st.order, fs);
    if fs != [] {
      assert fs[..0] == [];
      assert Credits(st.order, fs, 0) == (!fs[0].crash && !fs[0].credit);
    }
  }

  /** In general a purchase is credited twice exactly when two deliveries survive to a working credit
    * write although no receipt was recorded before the second. */
  lemma CreditedTwiceIff(st: TopUp, amount: nat, fs: seq<Faults>)
    requires amount > 0
    ensures TopUps(st, amount, fs).credits > st.credits + amount <==>
            exists i: nat, j: nat :: i < j < |fs|
              && !fs[i].crash && !fs[i].credit && !fs[j].crash && !fs[j].credit
              && !HasReceipt(st.order, fs[..j])
  {
    CreditsAfter(st, amount, fs);
    CreditCountAtMostOne(st.order, fs);
    TwiceIffAmount(amount, CreditCount(st.order, fs));
    forall i: nat, j: nat | i < j < |fs| && !HasReceipt(st.order, fs[..j])
      ensures !HasReceipt(st.order, fs[..i])
    {
      assert forall f :: f in fs[..i] ==> f in fs[..j];
    }
    if CreditCount(st.order, fs) > 1 {
      var i: nat, j: nat :| i < j < |fs| && Credits(st.order, fs, i) && Credits(st.order, fs, j);
    } else {
      forall i: nat, j: nat | i < j < |fs|
          && !fs[i].crash && !fs[i].credit && !fs[j].crash && !fs[j].credit && !HasReceipt(st.order, fs[..j])
        ensures false
      {
        assert Credits(st.order, fs, i) && Credits(st.order, fs, j);
      }
    }
  }

  lemma TwiceIffAmount(amount: nat, c: nat)
    requires amount > 0
    ensures amount * c > amount <==> c > 1
  {
    if c > 1 {
      assert amount * c >= amount * 2;
    }
  }

  // ----- Redelivery of a subscription -----

  datatype Attempt = Attempt(faults: Faults, clock: Clock)

  function Renewals(st: Renewal, periodEnd: Option<int>, interval: Option<Interval>, tries: seq<Attempt>): Renewal {
    if tries == [] then st
    else
      var n := |tries| - 1;
      DeliverRenewal(Renewals(st, periodEnd, interval, tries[..n]), periodEnd, interval, tries[n].faults,
                     tries[n].clock)
  }

  /** The profile is paid up to at least the period of the event. */
  predicate Entitled(row: Profile, periodEnd: Option<int>) {
    periodEnd.Some? && row.periodEnd.Some? && periodEnd.value <= row.periodEnd.value
  }

  /** Attempt `i` is carried out, because no earlier one closed the order, and its entitlement write works. */
  predicate Writes(order: Option<OrderStatus>, periodEnd: Option<int>, tries: seq<Attempt>, i: nat)
    requires i < |tries|
  {
    && !tries[i].faults.entitlement
    && forall j :: 0 <= j < i ==> order.None? || !PastBothWrites(periodEnd, tries[j].faults)
  }

  lemma {:induction false} ClosedIff(st: Renewal, periodEnd: Option<int>, interval: Option<Interval>,
                                     tries: seq<Attempt>)
    requires st.order != Some(Completed)
    ensures Renewals(st, periodEnd, interval, tries).order == Some(Completed) <==>
              st.order.Some? && exists j :: 0 <= j < |tries| && PastBothWrites(periodEnd, tries[j].faults)
    ensures Renewals(st, periodEnd, interval, tries).order.Some? <==> st.order.Some?
  {
    if tries != [] {
      var n := |tries| - 1;
      ClosedIff(st, periodEnd, interval, tries[..n]);
      assert forall j :: 0 <= j < n ==> tries[..n][j] == tries[j];
    }
  }

  /** Exactly when the deliveries of an event leave the profile entitled: it was before, or some attempt wrote
    * the entitlement before the period ended. */
  lemma {:induction false} EntitledIff(st: Renewal, periodEnd: Option<int>, interval: Option<Interval>,
                                       tries: seq<Attempt>)
    requires st.order != Some(Completed)
    ensures Entitled(Renewals(st, periodEnd, interval, tries).row, periodEnd) <==>
              || Entitled(st.row, periodEnd)
              || (periodEnd.Some? && exists i: nat ::
                   i < |tries| && Writes(st.order, periodEnd, tries, i) && tries[i].clock.now < periodEnd.value)
  {
    if tries != [] && periodEnd.Some? {
      var n := |tries| - 1;
      EntitledIff(st, periodEnd, interval, tries[..n]);
      ClosedIff(st, periodEnd, interval, tries[..n]);
      assert forall j :: 0 <= j < n ==> tries[..n][j] == tries[j];
      assert forall i: nat ::
               i < n ==> (Writes(st.order, periodEnd, tries[..n], i) <==> Writes(st.order, periodEnd, tries, i));
    }
  }

  /** The store after all deliveries of one event. */
  function Redelivered(b: Books, ev: Checkout, tries: seq<Attempt>): Books {
    if tries == [] then b
    else
      var n := |tries| - 1;
      Handled(Redelivered(b, ev, tries[..n]), ev, tries[n].faults, tries[n].clock)
  }

  /** The event's user is paid up to its period. */
  predicate HasEntitlement(b: Books, ev: Checkout) {
    ev.user.Some? && ev.user.value in b.rows && Entitled(b.rows[ev.user.value], ev.periodEnd)
  }

  lemma {:induction false} RedeliveredIsLocal(b: Books, ev: Checkout, tries: seq<Attempt>)
    ensures var after := Redelivered(b, ev, tries);
            && after.rows.Keys == b.rows.Keys && after.orders.Keys == b.orders.Keys
            && (forall o :: o in b.orders && Some(o) != ev.id ==> after.orders[o] == b.orders[o])
            && (forall u :: u in b.rows && Some(u) != ev.user ==> after.rows[u] == b.rows[u])
  {
    if tries != [] {
      var n := |tries| - 1;
      RedeliveredIsLocal(b, ev, tries[..n]);
      HandledIsLocal(Redelivered(b, ev, tries[..n]), ev, tries[n].faults, tries[n].clock);
    }
  }

  /** Linking the customer once more changes nothing. */
  lemma LinkedStays(b: Books, ev: Checkout, f: Faults, clock: Clock)
    requires ev.recurring && ev.user.Some? && ev.user.value in b.rows
    ensures var after := Handled(b, ev, f, clock);
            ev.user.value in after.rows && Linked(after, ev).rows[ev.user.value] == after.rows[ev.user.value]
  {
    HandledIsLocal(b, ev, f, clock);
    HandledSubscription(b, ev, f, clock);
    var after, u := Handled(b, ev, f, clock), ev.user.value;
    if ev.customer.Some? {
      assert Taken(after.rows, u, ev.customer.value) <==> Taken(b.rows, u, ev.customer.value);
    }
  }

  /** Order and profile of the event evolve as a single order and a single row do. */
  lemma {:induction false} RedeliveredRow(b: Books, ev: Checkout, tries: seq<Attempt>)
    requires ev.recurring && ev.user.Some? && ev.user.value in b.rows
    ensures var u, after := ev.user.value, Redelivered(b, ev, tries);
            && u in after.rows
            && Renewal(OrderOf(after.orders, ev.id), Linked(after, ev).rows[u]) ==
                 Renewals(Renewal(OrderOf(b.orders, ev.id), Linked(b, ev).rows[u]), ev.periodEnd, ev.interval, tries)
  {
    if tries != [] {
      var n := |tries| - 1;
      var before := Redelivered(b, ev, tries[..n]);
      RedeliveredRow(b, ev, tries[..n]);
      HandledSubscription(before, ev, tries[n].faults, tries[n].clock);
      LinkedStays(before, ev, tries[n].faults, tries[n].clock);
    }
  }

  lemma LinkedIsAsEntitled(b: Books, ev: Checkout)
    ensures HasEntitlement(Linked(b, ev), ev) <==> HasEntitlement(b, ev)
  {
  }

  /** An order that was not completed is so after the deliveries exactly if it is recorded and some delivery got
    * past both writes. */
  lemma {:induction false} RecordedIff(b: Books, ev: Checkout, tries: seq<Attempt>)
    requires ev.recurring && OrderOf(b.orders, ev.id) != Some(Completed)
    ensures OrderOf(Redelivered(b, ev, tries).orders, ev.id) == Some(Completed) <==>
              && OrderOf(b.orders, ev.id).Some?
              && exists j :: 0 <= j < |tries| && PastBothWrites(Period(ev), tries[j].faults)
    ensures OrderOf(Redelivered(b, ev, tries).orders, ev.id).Some? <==> OrderOf(b.orders, ev.id).Some?
  {
    if tries != [] {
      var n := |tries| - 1;
      RecordedIff(b, ev, tries[..n]);
      HandledOrder(Redelivered(b, ev, tries[..n]), ev, tries[n].faults, tries[n].clock);
      assert forall j :: 0 <= j < n ==> tries[..n][j] == tries[j];
    }
  }

  /** No entitlement comes of the event: it names no user or no period, its user has no profile, or the user was
    * not entitled before and every write came after the end of the period. */
  ghost predicate LeavesUnpaid(b: Books, ev: Checkout, tries: seq<Attempt>) {
    || ev.user.None? || ev.user.value !in b.rows || ev.periodEnd.None?
    || (!HasEntitlement(b, ev) && forall i: nat ::
          i < |tries| && Writes(OrderOf(b.orders, ev.id), ev.periodEnd, tries, i) ==>
            ev.periodEnd.value <= tries[i].clock.now)
  }

  /** Over every sequence of deliveries to the store, a subscription order that they completed lacks its
    * entitlement exactly in these cases. */
  lemma ReceiptWithoutEntitlementIff(b: Books, ev: Checkout, tries: seq<Attempt>)
    requires ev.recurring && OrderOf(b.orders, ev.id) != Some(Completed)
    requires OrderOf(Redelivered(b, ev, tries).orders, ev.id) == Some(Completed)
    ensures !HasEntitlement(Redelivered(b, ev, tries), ev) <==> LeavesUnpaid(b, ev, tries)
    ensures Period(ev).Some? ==>
              exists i: nat :: i < |tries| && Writes(OrderOf(b.orders, ev.id), ev.periodEnd, tries, i)
  {
    var after, order := Redelivered(b, ev, tries), OrderOf(b.orders, ev.id);
    RecordedIff(b, ev, tries);
    RedeliveredIsLocal(b, ev, tries);
    var j :| 0 <= j < |tries| && PastBothWrites(Period(ev), tries[j].faults);
    var first := FirstPass(Period(ev), tries, j);
    assert Period(ev).Some? ==> Writes(order, ev.periodEnd, tries, first);
    if ev.user.Some? && ev.user.value in b.rows {
      RedeliveredRow(b, ev, tries);
      EntitledIff(Renewal(order, Linked(b, ev).rows[ev.user.value]), ev.periodEnd, ev.interval, tries);
      LinkedIsAsEntitled(b, ev);
      LinkedIsAsEntitled(after, ev);
    }
  }

  /** And all of these cases do occur: whatever store and event meet the condition, one delivery in which nothing
    * fails completes the order and leaves the user without. */
  lemma ReceiptWithoutEntitlementHappens(b: Books, ev: Checkout, clock: Clock)
    requires ev.recurring && OrderOf(b.orders, ev.id) == Some(Pending)
    requires || ev.user.None? || ev.user.value !in b.rows || ev.periodEnd.None?
             || (!HasEntitlement(b, ev) && ev.periodEnd.value <= clock.now)
    ensures var after := Handled(b, ev, Faults(false, false, false, false), clock);
            OrderOf(after.orders, ev.id) == Some(Completed) && !HasEntitlement(after, ev)
  {
    var none := Faults(false, false, false, false);
    HandledIsLocal(b, ev, none, clock);
    HandledOrder(b, ev, none, clock);
    if ev.user.Some? && ev.user.value in b.rows {
      HandledSubscription(b, ev, none, clock);
      LinkedIsAsEntitled(b, ev);
    }
  }

  lemma {:induction false} FirstPass(periodEnd: Option<int>, tries: seq<Attempt>, j: nat) returns (first: nat)
    requires j < |tries| && PastBothWrites(periodEnd, tries[j].faults)
    ensures first <= j && PastBothWrites(periodEnd, tries[first].faults)
    ensures forall i :: 0 <= i < first ==> !PastBothWrites(periodEnd, tries[i].faults)
  {
    first := 0;
    while !PastBothWrites(periodEnd, tries[first].faults)
      invariant first <= j && forall i :: 0 <= i < first ==> !PastBothWrites(periodEnd, tries[i].faults)
      decreases j - first
    {
      first := first + 1;
    }
  }

  /** Once some delivery gets past both writes, the order is closed and later deliveries change nothing. */
  lemma {:induction false} RenewalEventuallyRecorded(st: Renewal, p: Option<int>, interval: Option<Interval>,
                                                     tries: seq<Attempt>, k: nat)
    requires st.order == Some(Pending) && k < |tries| && PastBothWrites(p, tries[k].faults)
    ensures Renewals(st, p, interval, tries) == Renewals(st, p, interval, tries[..k+1])
    ensures Renewals(st, p, interval, tries).order == Some(Completed)
  {
    var n := |tries| - 1;
    if k < n {
      RenewalEventuallyRecorded(st, p, interval, tries[..n], k);
      assert tries[..n][..k+1] == tries[..k+1];
    } else {
      assert tries[..k+1] == tries;
      OrderStays(st, p, interval, tries[..n]);
    }
  }

  lemma {:induction false} OrderStays(st: Renewal, p: Option<int>, interval: Option<Interval>, tries: seq<Attempt>)
    requires st.order.Some?
    ensures Renewals(st, p, interval, tries).order.Some?
  {
    if tries != [] {
      OrderStays(st, p, interval, tries[..|tries|-1]);
    }
  }
}
