/** The books over whole runs, and what the larger money operations achieve. */
module LedgerRuns {
  import opened Wrappers
  import opened Domain
  import opened Sums
  import StopOrder
  import StopPlan
  import Payments
  import Payouts
  import Bookings
  import Routes
  import opened Runs
  import opened Evolution
  import opened TripInvariant
  import opened Ledger

  // ---- every run keeps the books ----

  lemma RouteStepKeepsLinks(w: World, dist: Distance, op: Op)
    requires op.CreateRoute? || op.AddRouteStop? || op.UpdateSchedule? || op.StartRoute? || op.CancelRoute?
             || op.FinalizeRoute? || op.Sweep?
    ensures SameLinks(w, Trip(w, dist, op))
  {
    hide StopOrder.Inserted, Routes.WithStops, Routes.RouteRefusal, ConfirmedOn, Routes.Unverified;
  }

  lemma BookingStepKeepsLinks(w: World, dist: Distance, op: Op)
    requires op.CreateBooking? || op.CancelBooking? || op.CompleteBooking? || op.MarkNoShow? || op.VerifyOtp?
    ensures SameLinks(w, Trip(w, dist, op))
  {
    hide StopOrder.Inserted, StopOrder.Removed, Bookings.BookingRefusal, ConfirmedOn;
  }

  lemma PaymentRowKeepsLinks(w: World, p: Id, x: Payment)
    requires p in w.payments ==> x.payout == w.payments[p].payout
    ensures SameLinks(w, w)
    ensures p in w.payments ==> SameLinks(w, w.(payments := w.payments[p := x]))
  {
  }

  lemma PaymentStepKeepsLinks(w: World, op: Op)
    requires op.CreatePaypalOrder? || op.Capture? || op.ReversePayment?
    ensures SameLinks(w, Money(w, op))
  {
    hide SameLinks;
    var x := if op.p in Money(w, op).payments then Money(w, op).payments[op.p]
             else Payment(0, 0, "", Efectivo, Pending, None, None, None, None);
    PaymentRowKeepsLinks(w, op.p, x);
  }

  lemma PayoutStepKeepsLinks(w: World, op: Op)
    requires op.ExecutePayout? || op.SyncPayouts? || op.FailPayout?
    ensures SameLinks(w, Money(w, op))
  {
    hide Payouts.AfterBatch, Payouts.Synced;
  }

  lemma MoneyStepKeepsLedger(w: World, op: Op)
    requires KeysBelow(w) && LedgerSound(w) && Answers(w, op)
    ensures LedgerSound(Money(w, op))
  {
    hide KeysBelow, LedgerSound, Evolves, SameLinks, Payments.CreatePayment, Payments.CreatePaypalOrder,
      Payments.Capture,
         Payments.ReversePayment, Payouts.RequestPayout, Payouts.ExecutePayout, Payouts.SyncPayouts, Payouts.FailPayout;
    match op
    case CreatePayment(passenger, b, payBy) => CreatePaymentKeeps(w, passenger, b, payBy);
    case RequestPayout(driver, amount, hasEmail, period, rows) =>
      RequestPayoutKeeps(w, driver, amount, hasEmail, period, rows);
    case GeneratePayouts(period, start, end, rows) =>
      Payouts.DriversDistinct(w, rows);
      CreatePayoutsKeeps(w, rows, period, Payouts.DriversOf(w, rows));
    case CreatePaypalOrder(_, _, _) => PaymentStepKeepsLedger(w, op);
    case Capture(_, _, _, _, _) => PaymentStepKeepsLedger(w, op);
    case ReversePayment(_, _) => PaymentStepKeepsLedger(w, op);
    case ExecutePayout(_, _, _, _) => PayoutStepKeepsLedger(w, op);
    case SyncPayouts(_, _) => PayoutStepKeepsLedger(w, op);
    case FailPayout(_) => PayoutStepKeepsLedger(w, op);
    case _ =>
  }

  lemma PaymentStepKeepsLedger(w: World, op: Op)
    requires KeysBelow(w) && LedgerSound(w)
    requires op.CreatePaypalOrder? || op.Capture? || op.ReversePayment?
    ensures LedgerSound(Money(w, op))
  {
    hide KeysBelow, LedgerSound, Evolves, SameLinks, Money;
    MoneyStepEvolves(w, op);
    PaymentStepKeepsLinks(w, op);
    SameLinksKeepLedger(w, Money(w, op));
  }

  lemma PayoutStepKeepsLedger(w: World, op: Op)
    requires KeysBelow(w) && LedgerSound(w)
    requires op.ExecutePayout? || op.SyncPayouts? || op.FailPayout?
    ensures LedgerSound(Money(w, op))
  {
    hide KeysBelow, LedgerSound, Evolves, SameLinks, Money;
    MoneyStepEvolves(w, op);
    PayoutStepKeepsLinks(w, op);
    SameLinksKeepLedger(w, Money(w, op));
  }

  lemma StepKeepsLedger(w: World, dist: Distance, op: Op)
    requires KeysBelow(w) && LedgerSound(w)
    ensures LedgerSound(Apply(w, dist, op))
  {
    hide KeysBelow, LedgerSound, Evolves, SameLinks, Trip, Money, Answers;
    if IsTrip(op) {
      TripStepEvolves(w, dist, op);
      if op.CreateBooking? || op.CancelBooking? || op.CompleteBooking? || op.MarkNoShow? || op.VerifyOtp? {
        BookingStepKeepsLinks(w, dist, op);
      } else {
        RouteStepKeepsLinks(w, dist, op);
      }
      SameLinksKeepLedger(w, Trip(w, dist, op));
    } else if Answers(w, op) {
      MoneyStepKeepsLedger(w, op);
    }
  }

  lemma {:induction false} RunKeepsLedger(w: World, dist: Distance, ops: seq<Op>)
    requires KeysBelow(w) && LedgerSound(w)
    ensures LedgerSound(Run(w, dist, ops))
    decreases |ops|
  {
    hide KeysBelow, LedgerSound, Apply;
    if ops != [] {
      var init := ops[..|ops| - 1];
      RunEvolves(w, dist, init);
      RunKeepsLedger(w, dist, init);
      StepKeepsLedger(Run(w, dist, init), dist, ops[|ops| - 1]);
    }
  }

  /** In every reachable state each payout is worth exactly the payments in it, those are for rides of its driver,
      and every booking has at most one payment, for the price of its ride. */
  lemma LedgerAlwaysSound(w: World)
    requires Reachable(w)
    ensures LedgerSound(w) && KeysBelow(w)
  {
    hide LedgerSound, KeysBelow, Evolves, TripsSound;
    var dist: Distance, ops: seq<Op> :| w == Run(EmptyWorld, dist, ops);
    EmptyIsSound();
    EmptyLedger();
    RunEvolves(EmptyWorld, dist, ops);
    RunKeepsLedger(EmptyWorld, dist, ops);
  }

  lemma EmptyLedger()
    ensures LedgerSound(EmptyWorld)
  {
  }

  // ---- what payouts are worth ----

  function PayoutsOf(w: World, driver: Id): set<Id> {
    set id | id in w.payouts && w.payouts[id].driver == driver
  }

  function PayoutAmounts(payouts: map<Id, Payout>): Id -> int {
    (id: Id) => if id in payouts then payouts[id].amount else 0
  }

  /** The payments that were put into any of these payouts. */
  function LinkedToAny(payments: map<Id, Payment>, ids: set<Id>): set<Id> {
    set p | p in payments && payments[p].payout.Some? && payments[p].payout.value in ids
  }

  lemma {:induction false} PayoutsWorth(w: World, ids: set<Id>)
    requires AmountsSound(w) && ids <= w.payouts.Keys
    ensures Sum(PayoutAmounts(w.payouts), ids) == Worth(w.payments, LinkedToAny(w.payments, ids))
    decreases ids
  {
    if ids == {} {
      assert LinkedToAny(w.payments, ids) == {};
    } else {
      var id :| id in ids;
      var rest := ids - {id};
      PayoutsWorth(w, rest);
      SumTakeOut(PayoutAmounts(w.payouts), ids, id);
      LinkedSplits(w.payments, ids, id);
      hide LinkedTo, LinkedToAny;
      SumUnion(AmountIn(w.payments), LinkedToAny(w.payments, rest), LinkedTo(w.payments, id));
    }
  }

  lemma LinkedSplits(payments: map<Id, Payment>, ids: set<Id>, id: Id)
    requires id in ids
    ensures LinkedToAny(payments, ids) == LinkedToAny(payments, ids - {id}) + LinkedTo(payments, id)
    ensures LinkedToAny(payments, ids - {id}) !! LinkedTo(payments, id)
  {
  }

  // ---- monthly payouts ----

  /** The rows of a driver get that driver's new payout; other payments stay as they are. */
  lemma RowLinked(w: World, rows: seq<Id>, period: string, p: Id)
    requires (forall i :: 0 <= i < |rows| ==> rows[i] in w.payments) && p in w.payments
    ensures var after := Payouts.CreatePayouts(w, w, rows, period, Payouts.DriversOf(w, rows));
            p in after.payments
            && if p in rows && DriverOf(w, p).Some? then
                 var link := after.payments[p].payout;
                 after.payments[p] == w.payments[p].(payout := link) && link.Some? && link.value >= w.nextId
                 && link.value in after.payouts && Some(after.payouts[link.value].driver) == DriverOf(w, p)
               else after.payments[p] == w.payments[p]
  {
    hide Payouts.DriversOf, Payouts.CreatePayouts, Payouts.IndexIn, DriverOf, Payouts.NoRepeats, Payouts.GroupTotal;
    var drivers := Payouts.DriversOf(w, rows);
    Payouts.DriversDistinct(w, rows);
    Payouts.PaymentLinked(w, w, rows, period, drivers, p);
    if p in rows && DriverOf(w, p).Some? {
      PayoutOfDriver(w, rows, period, drivers, DriverOf(w, p).value);
    }
  }

  lemma PayoutOfDriver(w: World, rows: seq<Id>, period: string, drivers: seq<Id>, driver: Id)
    requires (forall i :: 0 <= i < |rows| ==> rows[i] in w.payments) && driver in drivers
    ensures var after := Payouts.CreatePayouts(w, w, rows, period, drivers);
            var id := w.nextId + Payouts.IndexIn(drivers, driver);
            id in after.payouts && after.payouts[id].driver == driver
  {
    Payouts.PayoutsCreated(w, w, rows, period, drivers);
    hide Payouts.CreatePayouts, Payouts.GroupTotal;
  }

  /** What generating the payouts of a month does to one payment: an eligible one goes into a new payout of its driver,
      any other is left alone. */
  lemma EligibleAreLinked(w: World, period: string, start: int, end: int, rows: seq<Id>, p: Id)
    requires PaymentsSound(w) && KeysBelow(w) && IsListing(rows, Payouts.Eligible(w.payments, start, end))
    requires p in w.payments
    ensures var after := Payouts.GeneratePayouts(w, period, start, end, rows).0;
            p in after.payments
            && if p in Payouts.Eligible(w.payments, start, end) then
                 var link := after.payments[p].payout;
                 after.payments[p] == w.payments[p].(payout := link) && link.Some? && link.value !in w.payouts
                 && link.value in after.payouts && Some(after.payouts[link.value].driver) == DriverOf(w, p)
               else after.payments[p] == w.payments[p]
  {
    RowLinked(w, rows, period, p);
    KeysAreFresh(w);
    hide Payouts.DriversOf, Payouts.CreatePayouts, KeysBelow;
  }

  /** Rows n, n + 1, ... that belong to different drivers: one of them, or none, is a given driver's. */
  lemma CountMade(before: map<Id, Payout>, after: map<Id, Payout>, n: Id, drivers: seq<Id>, driver: Id)
    requires Payouts.NoRepeats(drivers) && forall id :: id in before ==> id < n
    requires forall id :: id in after <==> id in before || n <= id < n + |drivers|
    requires forall id :: n <= id < n + |drivers| ==> after[id].driver == drivers[id - n]
    ensures |set id | id in after && id !in before && after[id].driver == driver| == if driver in drivers then 1 else 0
  {
    var made := set id | id in after && id !in before && after[id].driver == driver;
    if driver in drivers {
      var id := n + Payouts.IndexIn(drivers, driver);
      assert forall x :: x in before ==> x != id;
      assert after[id].driver == drivers[id - n] == driver && id in after;
      assert forall other :: other in made ==> drivers[other - n] == drivers[id - n];
      assert made == {id};
    } else {
      assert made == {};
    }
  }

  /** The new payouts of one driver among those made for a list of drivers. */
  lemma MadeFor(w: World, rows: seq<Id>, period: string, drivers: seq<Id>, driver: Id)
    requires KeysBelow(w) && Payouts.NoRepeats(drivers) && forall i :: 0 <= i < |rows| ==> rows[i] in w.payments
    ensures var after := Payouts.CreatePayouts(w, w, rows, period, drivers);
            var made := set id | id in after.payouts && id !in w.payouts && after.payouts[id].driver == driver;
            (forall id :: id in w.payouts ==> id in after.payouts && after.payouts[id] == w.payouts[id])
            && |made| == if driver in drivers then 1 else 0
  {
    Payouts.PayoutsCreated(w, w, rows, period, drivers);
    hide Payouts.CreatePayouts, Payouts.GroupTotal, Payouts.NoRepeats;
    CountMade(w.payouts, Payouts.CreatePayouts(w, w, rows, period, drivers).payouts, w.nextId, drivers, driver);
  }

  /** One new payout for every driver with an eligible payment, and no other. */
  lemma OnePayoutPerDriver(w: World, period: string, start: int, end: int, rows: seq<Id>, driver: Id)
    requires KeysBelow(w) && IsListing(rows, Payouts.Eligible(w.payments, start, end))
    ensures var after := Payouts.GeneratePayouts(w, period, start, end, rows).0;
            var owed := exists p :: p in Payouts.Eligible(w.payments, start, end) && DriverOf(w, p) == Some(driver);
            var made := set id | id in after.payouts && id !in w.payouts && after.payouts[id].driver == driver;
            (forall id :: id in w.payouts ==> id in after.payouts && after.payouts[id] == w.payouts[id])
            && |made| == if owed then 1 else 0
  {
    var drivers := Payouts.DriversOf(w, rows);
    Payouts.DriversDistinct(w, rows);
    MadeFor(w, rows, period, drivers, driver);
    hide Payouts.DriversOf, Payouts.CreatePayouts, KeysBelow, Payouts.NoRepeats, DriverOf, Payouts.Eligible;
  }

  /** The payouts that a step added. */
  function NewPayouts(before: World, after: World): set<Id> {
    set id | id in after.payouts && id !in before.payouts
  }

  lemma NewLinksAreEligible(w: World, period: string, start: int, end: int, rows: seq<Id>)
    requires LedgerSound(w) && KeysBelow(w) && IsListing(rows, Payouts.Eligible(w.payments, start, end))
    ensures var after := Payouts.GeneratePayouts(w, period, start, end, rows).0;
            LinkedToAny(after.payments, NewPayouts(w, after)) == Payouts.Eligible(w.payments, start, end)
  {
    var after := Payouts.GeneratePayouts(w, period, start, end, rows).0;
    Payouts.NoPaymentAppears(w, w, rows, period, Payouts.DriversOf(w, rows));
    assert after.payments.Keys == w.payments.Keys;
    hide Payouts.GeneratePayouts, KeysBelow, DriverOf, Payouts.Eligible, PaymentsSound, AmountsSound;
    forall p | p in w.payments
      ensures p in LinkedToAny(after.payments, NewPayouts(w, after)) <==> p in Payouts.Eligible(w.payments, start, end)
    {
      EligibleAreLinked(w, period, start, end, rows, p);
    }
    EligibleArePayments(w.payments, start, end);
  }

  lemma EligibleArePayments(payments: map<Id, Payment>, start: int, end: int)
    ensures Payouts.Eligible(payments, start, end) <= payments.Keys
  {
  }

  /** The payouts made for a month are worth together what was eligible. */
  lemma GeneratedTotal(w: World, period: string, start: int, end: int, rows: seq<Id>)
    requires LedgerSound(w) && KeysBelow(w) && IsListing(rows, Payouts.Eligible(w.payments, start, end))
    ensures var after := Payouts.GeneratePayouts(w, period, start, end, rows).0;
            Sum(PayoutAmounts(after.payouts), NewPayouts(w, after))
            == Worth(w.payments, Payouts.Eligible(w.payments, start, end))
  {
    hide Payouts.GeneratePayouts, Payouts.Eligible, KeysBelow, PaymentsSound, LinksSound, AmountsSound, Worth, Evolves,
         LinkedToAny;
    var after := Payouts.GeneratePayouts(w, period, start, end, rows).0;
    GeneratedKeepsBooks(w, period, start, end, rows);
    NewLinksAreEligible(w, period, start, end, rows);
    EligibleArePayments(w.payments, start, end);
    PayoutsWorth(after, NewPayouts(w, after));
    WorthEvolves(w, after, Payouts.Eligible(w.payments, start, end));
  }

  lemma GeneratedKeepsBooks(w: World, period: string, start: int, end: int, rows: seq<Id>)
    requires LedgerSound(w) && KeysBelow(w) && IsListing(rows, Payouts.Eligible(w.payments, start, end))
    ensures var after := Payouts.GeneratePayouts(w, period, start, end, rows).0;
            AmountsSound(after) && Evolves(w, after)
  {
    hide Payouts.GeneratePayouts, KeysBelow, PaymentsSound, LinksSound, AmountsSound, Evolves;
    MoneyStepKeepsLedger(w, GeneratePayouts(period, start, end, rows));
    GeneratePayoutsEvolves(w, period, start, end, rows);
  }

  /** Generating a month again makes nothing, at any later time, as long as no further payment of that month was
      paid. */
  lemma NothingLeftToGenerate(
      w: World, period: string, start: int, end: int, rows: seq<Id>, later: World, again: seq<Id>)
    requires PaymentsSound(w) && KeysBelow(w) && IsListing(rows, Payouts.Eligible(w.payments, start, end))
    requires var after := Payouts.GeneratePayouts(w, period, start, end, rows).0;
             Evolves(after, later)
             && forall p :: p in later.payments && later.payments[p].status == Paid ==>
                              p in after.payments && after.payments[p].status == Paid
                              && later.payments[p].paidAt == after.payments[p].paidAt
    requires IsListing(again, Payouts.Eligible(later.payments, start, end))
    ensures Payouts.GeneratePayouts(later, period, start, end, again) == (later, Generated(0))
  {
    hide KeysBelow, PaymentsSound, DriverOf;
    var after := Payouts.GeneratePayouts(w, period, start, end, rows).0;
    Payouts.NoPaymentAppears(w, w, rows, period, Payouts.DriversOf(w, rows));
    assert after.payments.Keys == w.payments.Keys;
    assert again == [] by {
      hide Payouts.GeneratePayouts;
      if again != [] {
        var p := again[0];
        assert PaymentEvolves(after.payments[p], later.payments[p]);
        EligibleAreLinked(w, period, start, end, rows, p);
      }
    }
  }

  // ---- cancelling a route ----

  /** Whatever refunds PayPal grants, a cancelled route keeps no pending or paid payment: a paid one is reversed, or
      failed if it was captured and the refund was not granted; a pending one fails; all others stay as they are. */
  lemma CancelRouteSettles(w: World, driver: Id, r: Id, refunds: set<Id>, p: Id)
    requires p in w.payments && Routes.OwnerRefusal(w, driver, r) == None
    ensures var after := Routes.CancelRoute(w, driver, r, refunds).0;
            p in after.payments
            && if Routes.OnRoute(w, p, r) then
                 after.payments[p].status
                 == match w.payments[p].status
                    case Paid =>
                      if w.payments[p].capture.Some? && w.payments[p].payBy != Efectivo && p !in refunds then Failed
                      else Reversed
                    case Pending => Failed
                    case other => other
               else after.payments[p] == w.payments[p]
  {
    hide Routes.CancelledBookings;
  }

  lemma CancelledRouteOwesNothing(w: World, driver: Id, r: Id, refunds: set<Id>)
    requires Routes.OwnerRefusal(w, driver, r) == None
    ensures var after := Routes.CancelRoute(w, driver, r, refunds).0;
            Routes.OpenPayments(after, r) == {} && ConfirmedOn(after.bookings, r) == {}
  {
    var after := Routes.CancelRoute(w, driver, r, refunds).0;
    forall p | p in after.payments && Routes.OnRoute(after, p, r)
      ensures after.payments[p].status != Paid && after.payments[p].status != Pending
    {
      assert p in w.payments && Routes.OnRoute(w, p, r);
      CancelRouteSettles(w, driver, r, refunds, p);
    }
  }

  // ---- the sweep ----

  /** The sweep finalizes exactly the active routes whose departure has come and that nobody still rides on. */
  lemma SweepFinalizesExactly(w: World, now: int, r: Id)
    requires r in w.routes
    ensures var after := Routes.Sweep(w, now);
            r in after.routes && after == w.(routes := after.routes)
            && after.routes[r] == w.routes[r].(state := after.routes[r].state)
            && (after.routes[r].state != w.routes[r].state <==>
                  w.routes[r].state == Activa && w.routes[r].departure <= now
                  && forall b :: b in w.bookings && w.bookings[b].route == r ==> w.bookings[b].state != Confirmada)
            && (after.routes[r].state != w.routes[r].state ==> after.routes[r].state == Finalizada)
  {
    assert forall b :: b in w.bookings && w.bookings[b].route == r && w.bookings[b].state == Confirmada
                       ==> b in ConfirmedOn(w.bookings, r);
  }

  // ---- what the state guarantees to the service methods ----

  /** In every reachable state a route carries at most as many bookings as it has seats, and giving back the seat of a
      confirmed booking never runs into the cap at the total. */
  lemma SeatsNeverClamped(w: World, r: Id)
    requires Reachable(w) && r in w.routes
    ensures |SeatedOn(w.bookings, r)| <= w.routes[r].totalSeats && w.routes[r].freeSeats >= 0
    ensures ConfirmedOn(w.bookings, r) != {} ==>
              w.routes[r].state == Activa && Bookings.SeatBack(w.routes[r]).freeSeats == w.routes[r].freeSeats + 1
    ensures forall dist: Distance, q: Bookings.Request ::
              q.route == r && Bookings.CreateBooking(w, dist, q).1.Created? ==>
              Bookings.Max(w.routes[r].freeSeats - 1, 0) == w.routes[r].freeSeats - 1
              && r in Bookings.CreateBooking(w, dist, q).0.routes
              && Bookings.CreateBooking(w, dist, q).0.routes[r].freeSeats == w.routes[r].freeSeats - 1
  {
    TripsAlwaysSound(w);
    assert SeatRule(w.routes[r], |SeatedOn(w.bookings, r)|);
    hide StopsNumbered, SeatsConserved, BookingsSound;
    forall dist: Distance, q: Bookings.Request | q.route == r && Bookings.CreateBooking(w, dist, q).1.Created?
      ensures w.routes[r].freeSeats > 0 && r in Bookings.CreateBooking(w, dist, q).0.routes
              && Bookings.CreateBooking(w, dist, q).0.routes[r].freeSeats == w.routes[r].freeSeats - 1
    {
      SeatTaken(w, dist, q);
    }
    if ConfirmedOn(w.bookings, r) != {} {
      var b :| b in ConfirmedOn(w.bookings, r);
      assert b in SeatedOn(w.bookings, r);
    }
  }

  lemma SeatTaken(w: World, dist: Distance, q: Bookings.Request)
    requires Bookings.CreateBooking(w, dist, q).1.Created?
    ensures q.route in w.routes && w.routes[q.route].freeSeats > 0
            && q.route in Bookings.CreateBooking(w, dist, q).0.routes
            && Bookings.CreateBooking(w, dist, q).0.routes[q.route].freeSeats == w.routes[q.route].freeSeats - 1
  {
    hide StopOrder.Inserted, Bookings.Debts, Bookings.BookedBy;
  }

  /** Every reachable state meets what the methods that change stops and payments require of it. */
  lemma RequirementsMet(w: World, r: Id, b: Id)
    requires Reachable(w)
    ensures StopOrder.UniqueOrdersOn(w.stops, r) && w.nextId !in w.stops
    ensures Bookings.OnePaymentFor(w.payments, b)
    ensures forall s :: s in w.stops ==> s < w.nextId
  {
    TripsAlwaysSound(w);
    LedgerAlwaysSound(w);
    KeysAreFresh(w);
    assert r in w.routes ==> StopOrder.NumberedTo(w.stops, r, |StopPlan.StopsOn(w.stops, r)|);
  }
}
