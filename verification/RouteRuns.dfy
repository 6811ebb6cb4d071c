/** How routes end, what is fixed once they have started or closed, and what becomes of the seats and payments of a
    cancelled route, over whole runs. */
module RouteRuns {
  import opened Wrappers
  import opened Domain
  import StopOrder
  import Payouts
  import Bookings
  import Routes
  import opened Runs
  import opened Evolution
  import opened TripInvariant
  import opened Ledger
  import opened LedgerRuns
  import PaypalRuns

  // ---- how an active route ends ----

  ghost predicate NoneConfirmed(w: World, r: Id) {
    forall b :: b in w.bookings && w.bookings[b].route == r ==> w.bookings[b].state != Confirmada
  }

  /** The step closes booking b of route r as completed or absent, and no other booking of the route is confirmed. */
  ghost predicate ClosesLast(w: World, op: Op, r: Id) {
    (op.CompleteBooking? && Bookings.CanComplete(w, op.driver, op.b)
     && w.bookings[op.b].route == r && Bookings.NoneConfirmedBut(w.bookings, r, op.b))
    || (op.MarkNoShow? && Bookings.CanMarkNoShow(w, op.driver, op.b, op.now)
        && w.bookings[op.b].route == r && Bookings.NoneConfirmedBut(w.bookings, r, op.b))
  }

  ghost predicate Ends(w: World, op: Op, r: Id)
    requires r in w.routes
  {
    ClosesLast(w, op, r)
    || (op.FinalizeRoute? && op.r == r && op.driver == w.routes[r].driver && NoneConfirmed(w, r))
    || (op.Sweep? && w.routes[r].departure <= op.now && NoneConfirmed(w, r))
  }

  lemma NoneConfirmedIsEmpty(w: World, r: Id)
    ensures ConfirmedOn(w.bookings, r) == {} <==> NoneConfirmed(w, r)
  {
    assert forall b :: b in ConfirmedOn(w.bookings, r) <==>
                       b in w.bookings && w.bookings[b].route == r && w.bookings[b].state == Confirmada;
  }

  lemma LastIsClosed(bookings: map<Id, Booking>, r: Id, b: Id, x: Booking)
    requires b in bookings && x.state != Confirmada && x.route == bookings[b].route
    ensures ConfirmedOn(bookings[b := x], r) == {} <==> Bookings.NoneConfirmedBut(bookings, r, b)
  {
    var after := bookings[b := x];
    if Bookings.NoneConfirmedBut(bookings, r, b) {
      assert forall c :: c in after ==> c !in ConfirmedOn(after, r);
    }
    if ConfirmedOn(after, r) == {} {
      forall c | c in bookings && bookings[c].route == r && bookings[c].state == Confirmada ensures c == b {
        assert c !in ConfirmedOn(after, r);
      }
    }
  }

  lemma EndsByClosing(w: World, dist: Distance, op: Op, r: Id)
    requires r in w.routes && w.routes[r].state == Activa && (op.CompleteBooking? || op.MarkNoShow?)
    ensures var after := Trip(w, dist, op);
            r in after.routes && after.routes[r].state == if ClosesLast(w, op, r) then Finalizada else Activa
  {
    hide StopOrder.Removed, Bookings.PendingFailed, ConfirmedOn;
    if op.b in w.bookings {
      var booking := w.bookings[op.b];
      LastIsClosed(w.bookings, r, op.b, booking.(state := Completada));
      LastIsClosed(w.bookings, r, op.b, booking.(state := NoShow));
    }
  }

  lemma EndsOtherwise(w: World, dist: Distance, op: Op, r: Id)
    requires r in w.routes && w.routes[r].state == Activa && (op.FinalizeRoute? || op.Sweep? || op.CancelRoute?)
    ensures var after := Trip(w, dist, op);
            r in after.routes
            && after.routes[r].state ==
               if Ends(w, op, r) then Finalizada
               else if op.CancelRoute? && op.r == r && op.driver == w.routes[r].driver then RutaCancelada else Activa
  {
    NoneConfirmedIsEmpty(w, r);
    hide NoneConfirmed, ConfirmedOn, Routes.CancelledBookings, Routes.PaymentsCancelled, Routes.OpenPayments;
  }

  lemma RouteTripsStayActive(w: World, dist: Distance, op: Op, r: Id)
    requires KeysBelow(w) && r in w.routes && w.routes[r].state == Activa
    requires op.CreateRoute? || op.AddRouteStop? || op.UpdateSchedule? || op.StartRoute?
    ensures var after := Trip(w, dist, op); r in after.routes && after.routes[r].state == Activa
  {
    hide StopOrder.Inserted, Routes.WithStops, Routes.RouteRefusal, Routes.Unverified;
  }

  lemma BookingTripsStayActive(w: World, dist: Distance, op: Op, r: Id)
    requires KeysBelow(w) && r in w.routes && w.routes[r].state == Activa
    requires op.CreateBooking? || op.CancelBooking? || op.VerifyOtp?
    ensures var after := Trip(w, dist, op); r in after.routes && after.routes[r].state == Activa
  {
    hide StopOrder.Inserted, Bookings.BookingRefusal, Bookings.CancelledPayments, Bookings.DriverRefusal;
  }

  lemma StaysActive(w: World, dist: Distance, op: Op, r: Id)
    requires KeysBelow(w) && r in w.routes && w.routes[r].state == Activa
    requires !op.CompleteBooking? && !op.MarkNoShow? && !op.FinalizeRoute? && !op.Sweep? && !op.CancelRoute?
    ensures var after := Apply(w, dist, op); r in after.routes && after.routes[r].state == Activa
  {
    hide Trip, Money;
    if op.CreateBooking? || op.CancelBooking? || op.VerifyOtp? {
      BookingTripsStayActive(w, dist, op, r);
    } else if IsTrip(op) {
      RouteTripsStayActive(w, dist, op, r);
    } else if Answers(w, op) {
      MoneyLeavesTrips(w, op);
    }
  }

  /** A step of any kind finalizes an active route exactly when it closes its last confirmed booking, or its driver
      finalizes it or the sweep finds it departed while nothing is confirmed; and only its driver cancels it. */
  lemma RouteEndsExactlyWhen(w: World, dist: Distance, op: Op, r: Id)
    requires KeysBelow(w) && r in w.routes && w.routes[r].state == Activa
    ensures var after := Apply(w, dist, op);
            r in after.routes
            && (after.routes[r].state == Finalizada <==> Ends(w, op, r))
            && (after.routes[r].state == RutaCancelada
                <==> op.CancelRoute? && op.r == r && op.driver == w.routes[r].driver)
  {
    if op.CompleteBooking? || op.MarkNoShow? {
      EndsByClosing(w, dist, op, r);
    } else if op.FinalizeRoute? || op.Sweep? || op.CancelRoute? {
      EndsOtherwise(w, dist, op, r);
    } else {
      StaysActive(w, dist, op, r);
      hide Apply;
    }
    hide Trip, Money, NoneConfirmed, KeysBelow, Bookings.CanComplete, Bookings.CanMarkNoShow;
  }

  // ---- the schedule ----

  /** The step sets the departure or the start of route r. */
  predicate Schedules(w: World, op: Op, r: Id)
    requires r in w.routes
  {
    (op.UpdateSchedule? && op.r == r && Routes.CanReschedule(w, op.driver, r, op.departure, op.now))
    || (op.StartRoute? && op.r == r && Routes.CanStart(w, op.driver, r))
  }

  lemma SchedulingTrips(w: World, dist: Distance, op: Op, r: Id)
    requires r in w.routes && (op.UpdateSchedule? || op.StartRoute?)
    ensures var after := Trip(w, dist, op);
            r in after.routes
            && after.routes[r] ==
               if !Schedules(w, op, r) then w.routes[r]
               else if op.UpdateSchedule? then w.routes[r].(departure := op.departure.value)
               else w.routes[r].(startedAt := Some(op.now))
  {
    assert Routes.Unverified(w.bookings, r) == {} <==>
           forall b :: b in w.bookings && w.bookings[b].route == r && w.bookings[b].state == Confirmada ==>
                         w.bookings[b].otpUsed
    by {
      assert forall b :: b in Routes.Unverified(w.bookings, r) <==>
        b in w.bookings && w.bookings[b].route == r && w.bookings[b].state == Confirmada && !w.bookings[b].otpUsed;
    }
    hide Routes.Unverified;
  }

  lemma OtherTripsKeepSchedule(w: World, dist: Distance, op: Op, r: Id)
    requires KeysBelow(w) && r in w.routes && IsTrip(op) && !op.UpdateSchedule? && !op.StartRoute?
    ensures var after := Trip(w, dist, op);
            r in after.routes && after.routes[r].departure == w.routes[r].departure
            && after.routes[r].startedAt == w.routes[r].startedAt
  {
    hide StopOrder.Inserted, StopOrder.Removed, Routes.WithStops, Routes.RouteRefusal, Bookings.BookingRefusal,
      Bookings.CancelledPayments, Bookings.PendingFailed, Routes.CancelledBookings, Routes.PaymentsCancelled,
      Routes.OpenPayments, ConfirmedOn, Bookings.DriverRefusal, Routes.OwnerRefusal;
  }

  /** A step of any kind changes departure or start of a route exactly when its driver reschedules the active route
      before it starts, or starts it with every confirmed passenger's code checked. */
  lemma ScheduledExactlyWhen(w: World, dist: Distance, op: Op, r: Id)
    requires KeysBelow(w) && r in w.routes
    ensures var after := Apply(w, dist, op);
            r in after.routes
            && (!Schedules(w, op, r) ==>
                  after.routes[r].departure == w.routes[r].departure
                  && after.routes[r].startedAt == w.routes[r].startedAt)
            && (Schedules(w, op, r) ==>
                  w.routes[r].state == Activa && w.routes[r].startedAt == None
                  && after.routes[r] == if op.UpdateSchedule? then w.routes[r].(departure := op.departure.value)
                                        else w.routes[r].(startedAt := Some(op.now)))
  {
    if op.UpdateSchedule? || op.StartRoute? {
      SchedulingTrips(w, dist, op, r);
    } else if IsTrip(op) {
      OtherTripsKeepSchedule(w, dist, op, r);
    } else if Answers(w, op) {
      MoneyLeavesTrips(w, op);
    }
    hide Trip, Money, KeysBelow;
  }

  /** Once a route has started or is closed, neither its departure nor its start ever changes again. */
  lemma {:induction false} ScheduleIsFixed(w: World, dist: Distance, ops: seq<Op>, r: Id)
    requires KeysBelow(w) && r in w.routes && (w.routes[r].startedAt.Some? || w.routes[r].state != Activa)
    ensures var now := Run(w, dist, ops).routes;
            r in now && now[r].departure == w.routes[r].departure && now[r].startedAt == w.routes[r].startedAt
    decreases |ops|
  {
    if ops != [] {
      var n := |ops| - 1;
      RunEvolves(w, dist, ops[..n]);
      ScheduleIsFixed(w, dist, ops[..n], r);
      ScheduledExactlyWhen(Run(w, dist, ops[..n]), dist, ops[n], r);
      hide KeysBelow, Apply, Schedules;
    }
  }

  // ---- the seats of a closed route ----

  /** The seats that are neither free nor held by a booking. */
  function Deficit(w: World, r: Id): int
    requires r in w.routes
  {
    w.routes[r].totalSeats - w.routes[r].freeSeats - |SeatedOn(w.bookings, r)|
  }

  lemma SeatedWithoutConfirmed(bookings: map<Id, Booking>, r: Id)
    ensures var after := Routes.CancelledBookings(bookings, r);
            |SeatedOn(bookings, r)| == |SeatedOn(after, r)| + |ConfirmedOn(bookings, r)|
  {
    var after := Routes.CancelledBookings(bookings, r);
    assert SeatedOn(bookings, r) == SeatedOn(after, r) + ConfirmedOn(bookings, r);
    assert SeatedOn(after, r) !! ConfirmedOn(bookings, r);
  }

  /** Cancelling a route loses exactly the seats of its confirmed bookings. */
  lemma CancellingLosesSeats(w: World, driver: Id, r: Id, refunds: set<Id>)
    requires SeatsConserved(w.routes, w.bookings) && Routes.OwnsActive(w, driver, r)
    ensures var after := Routes.CancelRoute(w, driver, r, refunds).0;
            r in after.routes && after.routes[r].state == RutaCancelada
            && Deficit(after, r) == |ConfirmedOn(w.bookings, r)|
  {
    SeatedWithoutConfirmed(w.bookings, r);
    assert SeatRule(w.routes[r], |SeatedOn(w.bookings, r)|);
    hide SeatsConserved, SeatedOn, ConfirmedOn, Routes.CancelledBookings, Routes.PaymentsCancelled, Routes.OpenPayments;
  }

  /** The seats and seat holders of route r are the same. */
  ghost predicate SeatsKept(before: World, after: World, r: Id)
    requires r in before.routes
  {
    r in after.routes && after.routes[r].freeSeats == before.routes[r].freeSeats
    && after.routes[r].totalSeats == before.routes[r].totalSeats
    && SeatedOn(after.bookings, r) == SeatedOn(before.bookings, r)
  }

  /** The bookings are those of before, and route r has as many free seats. */
  ghost predicate SeatsUntouched(w: World, after: World, r: Id)
    requires r in w.routes
  {
    after.bookings.Keys == w.bookings.Keys
    && r in after.routes && after.routes[r].freeSeats == w.routes[r].freeSeats
  }

  lemma RouteTripsTouchNoSeats(w: World, dist: Distance, op: Op, r: Id)
    requires KeysBelow(w) && r in w.routes
    requires IsTrip(op) && !op.CreateBooking? && !op.CancelBooking?
    requires !op.CompleteBooking? && !op.MarkNoShow? && !op.VerifyOtp?
    ensures SeatsUntouched(w, Trip(w, dist, op), r)
  {
    hide StopOrder.Inserted, Routes.WithStops, Routes.RouteRefusal, Routes.PaymentsCancelled, Routes.OpenPayments,
      ConfirmedOn, Routes.OwnerRefusal, Routes.Unverified;
  }

  lemma DriverStepsTouchNoSeats(w: World, dist: Distance, op: Op, r: Id)
    requires r in w.routes && (op.CompleteBooking? || op.MarkNoShow? || op.VerifyOtp?)
    ensures SeatsUntouched(w, Trip(w, dist, op), r)
  {
    hide StopOrder.Removed, Bookings.PendingFailed, ConfirmedOn;
  }

  /** No step but a booking adds a booking, and only that and its cancellation change the free seats of a route. */
  lemma BookingsAppear(w: World, dist: Distance, op: Op, r: Id)
    requires KeysBelow(w) && r in w.routes && IsTrip(op) && !op.CreateBooking? && !op.CancelBooking?
    ensures SeatsUntouched(w, Trip(w, dist, op), r)
  {
    if op.CompleteBooking? || op.MarkNoShow? || op.VerifyOtp? {
      DriverStepsTouchNoSeats(w, dist, op, r);
    } else {
      RouteTripsTouchNoSeats(w, dist, op, r);
    }
    hide Trip, SeatsUntouched;
  }

  lemma BookingElsewhere(w: World, dist: Distance, op: Op, r: Id)
    requires TripsSound(w) && KeysBelow(w) && r in w.routes && w.routes[r].state != Activa
    requires op.CreateBooking? || op.CancelBooking?
    ensures var after := Trip(w, dist, op);
            r in after.routes && after.routes[r].freeSeats == w.routes[r].freeSeats
            && forall b :: b in after.bookings && b !in w.bookings ==> after.bookings[b].route != r
  {
    hide StopOrder.Inserted, Bookings.Debts, Bookings.BookedBy, Bookings.CancelledPayments, StopsNumbered,
      SeatsConserved;
    if op.CancelBooking? && op.b in w.bookings && w.bookings[op.b].state == Confirmada {
      assert w.routes[w.bookings[op.b].route].state == Activa;
    }
  }

  lemma ClosedKeepsSeats(w: World, dist: Distance, op: Op, r: Id)
    requires TripsSound(w) && KeysBelow(w) && r in w.routes && w.routes[r].state != Activa
    ensures SeatsKept(w, Apply(w, dist, op), r)
  {
    var after := Apply(w, dist, op);
    StepEvolves(w, dist, op);
    if IsTrip(op) {
      if op.CreateBooking? || op.CancelBooking? {
        BookingElsewhere(w, dist, op, r);
      } else {
        BookingsAppear(w, dist, op, r);
      }
      SeatedStay(w, after, r);
    } else if Answers(w, op) {
      MoneyLeavesTrips(w, op);
    }
    hide Trip, Money, KeysBelow, TripsSound, SeatedOn, PaymentsEvolve, PayoutsEvolve;
  }

  lemma SeatedStay(w: World, after: World, r: Id)
    requires TripsSound(w) && Evolves(w, after) && r in w.routes && w.routes[r].state != Activa
    requires forall b :: b in after.bookings && b !in w.bookings ==> after.bookings[b].route != r
    ensures SeatedOn(after.bookings, r) == SeatedOn(w.bookings, r)
  {
    hide SeatsConserved, StopsNumbered, PaymentsEvolve, PayoutsEvolve, RoutesEvolve;
    forall b | b in w.bookings && w.bookings[b].route == r
      ensures b in after.bookings && after.bookings[b].route == r && after.bookings[b].state == w.bookings[b].state
    {
      assert BookingEvolves(w.bookings[b], after.bookings[b]);
    }
    forall b | b in after.bookings && after.bookings[b].route == r
      ensures b in w.bookings && w.bookings[b].route == r
    {
      assert b in w.bookings;
      assert BookingEvolves(w.bookings[b], after.bookings[b]);
    }
  }

  /** The seats of a closed route, and those who hold them, never change again. */
  lemma {:induction false} ClosedSeatsAreFixed(w: World, dist: Distance, ops: seq<Op>, r: Id)
    requires TripsSound(w) && KeysBelow(w) && r in w.routes && w.routes[r].state != Activa
    ensures SeatsKept(w, Run(w, dist, ops), r)
    decreases |ops|
  {
    if ops != [] {
      var n := |ops| - 1;
      RunEvolves(w, dist, ops[..n]);
      RunKeepsTrips(w, dist, ops[..n]);
      ClosedSeatsAreFixed(w, dist, ops[..n], r);
      ClosedKeepsSeats(Run(w, dist, ops[..n]), dist, ops[n], r);
      hide KeysBelow, TripsSound, Apply, SeatedOn;
    }
  }

  /** At any time after a route was cancelled, its free and held seats fall short of all seats by the number of bookings
      that were confirmed when it was cancelled; so they add up exactly when none was. */
  lemma CancelledSeatsExactly(w: World, dist: Distance, driver: Id, r: Id, refunds: set<Id>, ops: seq<Op>)
    requires Reachable(w) && Routes.OwnsActive(w, driver, r)
    ensures var later := Run(Apply(w, dist, CancelRoute(driver, r, refunds)), dist, ops);
            r in later.routes && Deficit(later, r) == |ConfirmedOn(w.bookings, r)|
            && (later.routes[r].freeSeats + |SeatedOn(later.bookings, r)| == later.routes[r].totalSeats
                <==> ConfirmedOn(w.bookings, r) == {})
  {
    hide KeysBelow, TripsSound, LedgerSound, Apply, Run, SeatedOn, ConfirmedOn, Routes.CancelRoute, Routes.OpenPayments;
    CancelledIsSettled(w, dist, driver, r, refunds);
    TripsAlwaysSound(w);
    CancellingLosesSeats(w, driver, r, refunds);
    ClosedSeatsAreFixed(Apply(w, dist, CancelRoute(driver, r, refunds)), dist, ops, r);
  }

  // ---- the payments of a closed route ----

  lemma OnlyPayingAddsPayments(w: World, dist: Distance, op: Op)
    requires KeysBelow(w) && !op.CreatePayment?
    ensures Apply(w, dist, op).payments.Keys == w.payments.Keys
  {
    hide Trip, Money;
    if IsTrip(op) {
      if op.CreateBooking? || op.CancelBooking? || op.CompleteBooking? || op.MarkNoShow? || op.VerifyOtp? {
        BookingStepKeepsLinks(w, dist, op);
      } else {
        RouteStepKeepsLinks(w, dist, op);
      }
    } else if Answers(w, op) {
      if op.RequestPayout? || op.GeneratePayouts? {
        NewPayoutsAddNoPayments(w, op);
      } else if op.ExecutePayout? || op.SyncPayouts? || op.FailPayout? {
        PayoutStepKeepsLinks(w, op);
      } else {
        PaymentStepKeepsLinks(w, op);
      }
    }
  }

  lemma NewPayoutsAddNoPayments(w: World, op: Op)
    requires (op.RequestPayout? || op.GeneratePayouts?) && Answers(w, op)
    ensures Money(w, op).payments.Keys == w.payments.Keys
  {
    if op.GeneratePayouts? {
      Payouts.NoPaymentAppears(w, w, op.rows, op.period, Payouts.DriversOf(w, op.rows));
    }
    hide Payouts.DriversOf, Payouts.CreatePayouts, Payouts.AmountsOf;
  }

  lemma NewPaymentIsConfirmed(w: World, dist: Distance, op: Op, p: Id)
    requires op.CreatePayment? && p in Apply(w, dist, op).payments && p !in w.payments
    ensures var b := Apply(w, dist, op).payments[p].booking; b in w.bookings && w.bookings[b].state == Confirmada
    ensures Apply(w, dist, op).bookings == w.bookings
  {
  }

  /** The payment belongs to a booking of route r. */
  predicate PaysFor(w: World, p: Id, r: Id) {
    p in w.payments && Routes.OnRoute(w, p, r)
  }

  /** A step gives a closed route no payment, and leaves no payment of it pending that was not. */
  lemma ClosedPaymentStep(w: World, dist: Distance, op: Op, r: Id, p: Id)
    requires TripsSound(w) && KeysBelow(w) && PaymentsSound(w) && r in w.routes && w.routes[r].state != Activa
    requires PaysFor(Apply(w, dist, op), p, r)
    ensures PaysFor(w, p, r)
    ensures w.payments[p].status != Pending ==> Apply(w, dist, op).payments[p].status != Pending
  {
    var after := Apply(w, dist, op);
    StepEvolves(w, dist, op);
    hide Apply, KeysBelow, SeatsConserved, StopsNumbered, PayoutsEvolve, RoutesEvolve;
    if p !in w.payments {
      if op.CreatePayment? {
        NewPaymentIsConfirmed(w, dist, op, p);
      } else {
        OnlyPayingAddsPayments(w, dist, op);
      }
      assert false;
    }
    assert PaymentEvolves(w.payments[p], after.payments[p]);
    var b := w.payments[p].booking;
    assert BookingEvolves(w.bookings[b], after.bookings[b]);
  }

  /** The money of payment p arrives at some step of the run. */
  ghost predicate ReceivedDuring(w: World, dist: Distance, ops: seq<Op>, p: Id) {
    exists i :: 0 <= i < |ops| && ReceivedAt(w, dist, ops, i, p)
  }

  ghost predicate ReceivedAt(w: World, dist: Distance, ops: seq<Op>, i: nat, p: Id)
    requires i < |ops|
  {
    var before := Run(w, dist, ops[..i]); p in before.payments && PaypalRuns.Receives(before, ops[i], p)
  }

  lemma ReceivedStep(w: World, dist: Distance, ops: seq<Op>, p: Id)
    requires ops != []
    ensures var n := |ops| - 1; var before := Run(w, dist, ops[..n]);
            (ReceivedDuring(w, dist, ops[..n], p) || (p in before.payments && PaypalRuns.Receives(before, ops[n], p))
             ==> ReceivedDuring(w, dist, ops, p))
  {
    hide Run, PaypalRuns.Receives;
    var n := |ops| - 1;
    if ReceivedDuring(w, dist, ops[..n], p) {
      var i :| 0 <= i < n && ReceivedAt(w, dist, ops[..n], i, p);
      assert ops[..n][..i] == ops[..i];
      assert ReceivedAt(w, dist, ops, i, p);
    }
    if p in Run(w, dist, ops[..n]).payments && PaypalRuns.Receives(Run(w, dist, ops[..n]), ops[n], p) {
      assert ReceivedAt(w, dist, ops, n, p);
    }
  }

  /** From a closed route without pending or paid payments on, no payment of it is ever pending, and one is paid only if
      PayPal reported its order completed, for its own money, since then. */
  lemma {:induction false} SettledUntilReceived(w: World, dist: Distance, ops: seq<Op>, r: Id, p: Id)
    requires TripsSound(w) && KeysBelow(w) && LedgerSound(w) && r in w.routes && w.routes[r].state != Activa
    requires Routes.OpenPayments(w, r) == {}
    requires PaysFor(Run(w, dist, ops), p, r)
    ensures PaysFor(w, p, r) && Run(w, dist, ops).payments[p].status != Pending
    ensures Run(w, dist, ops).payments[p].status == Paid ==> ReceivedDuring(w, dist, ops, p)
    decreases |ops|
  {
    if ops == [] {
      assert p !in Routes.OpenPayments(w, r);
    } else {
      var n := |ops| - 1;
      var before := Run(w, dist, ops[..n]);
      RunEvolves(w, dist, ops[..n]);
      RunKeepsTrips(w, dist, ops[..n]);
      RunKeepsLedger(w, dist, ops[..n]);
      ReceivedStep(w, dist, ops, p);
      hide KeysBelow, TripsSound, Apply, PaypalRuns.Receives, PaymentsSound, LinksSound, AmountsSound, PaysFor,
        ReceivedDuring;
      ClosedPaymentStep(before, dist, ops[n], r, p);
      SettledUntilReceived(w, dist, ops[..n], r, p);
      assert p in before.payments by { PaysForPayment(before, p, r); }
      if before.payments[p].status != Paid { PaypalRuns.PaidExactlyWhenReceived(before, dist, ops[n], p); }
    }
  }

  lemma PaysForPayment(w: World, p: Id, r: Id)
    requires PaysFor(w, p, r)
    ensures p in w.payments
  {
  }

  // ---- which settled payments can still become paid ----

  ghost predicate CanBecomePaid(w: World, dist: Distance, p: Id) {
    exists ops: seq<Op> :: var payments := Run(w, dist, ops).payments; p in payments && payments[p].status == Paid
  }

  lemma {:induction false} NoOrderNeverPaid(w: World, dist: Distance, ops: seq<Op>, p: Id)
    requires KeysBelow(w) && p in w.payments && !PaypalRuns.HasOrder(w.payments[p])
    requires w.payments[p].status != Pending && w.payments[p].status != Paid
    ensures var payments := Run(w, dist, ops).payments; p in payments && payments[p].status != Paid
    decreases |ops|
  {
    if ops != [] {
      var n := |ops| - 1;
      var before := Run(w, dist, ops[..n]);
      RunEvolves(w, dist, ops[..n]);
      NoOrderNeverPaid(w, dist, ops[..n], p);
      assert PaymentEvolves(w.payments[p], before.payments[p]);
      hide Apply, KeysBelow, RoutesEvolve, BookingsEvolve, PayoutsEvolve, PaymentsEvolve;
      PaypalRuns.PaidExactlyWhenReceived(before, dist, ops[n], p);
    }
  }

  /** A payment that is settled but not paid becomes paid in some run exactly when it has an order at PayPal. */
  lemma BecomesPaidExactlyWhen(w: World, dist: Distance, p: Id)
    requires KeysBelow(w) && p in w.payments && w.payments[p].booking in w.bookings
    requires w.payments[p].status != Pending && w.payments[p].status != Paid
    ensures CanBecomePaid(w, dist, p) <==> PaypalRuns.HasOrder(w.payments[p])
  {
    if PaypalRuns.HasOrder(w.payments[p]) {
      var op := PaypalRuns.PayingCapture(w, p);
      assert PaypalRuns.Receives(w, op, p);
      PaypalRuns.PaidExactlyWhenReceived(w, dist, op, p);
      assert Run(w, dist, []) == w && [op][..0] == [];
      assert Run(w, dist, [op]) == Apply(w, dist, op);
    } else if ops: seq<Op> :| p in Run(w, dist, ops).payments && Run(w, dist, ops).payments[p].status == Paid {
      NoOrderNeverPaid(w, dist, ops, p);
      assert false;
    }
  }

  /** After a route was cancelled no payment is added to it, none of its payments is ever pending, and one that is paid
      was captured since; that can happen to a payment exactly when it had an order at PayPal at the cancellation. */
  lemma CancelledPaymentsOverRuns(
      w: World, dist: Distance, driver: Id, r: Id, refunds: set<Id>, ops: seq<Op>, p: Id)
    requires Reachable(w) && Routes.OwnsActive(w, driver, r)
    ensures var cancelled := Apply(w, dist, CancelRoute(driver, r, refunds));
            var later := Run(cancelled, dist, ops);
            PaysFor(later, p, r) ==>
              PaysFor(w, p, r) && p in later.payments && later.payments[p].status != Pending
              && (later.payments[p].status == Paid ==> ReceivedDuring(cancelled, dist, ops, p))
    ensures var cancelled := Apply(w, dist, CancelRoute(driver, r, refunds));
            PaysFor(w, p, r) ==> (CanBecomePaid(cancelled, dist, p) <==> PaypalRuns.HasOrder(w.payments[p]))
  {
    CancelledIsSettled(w, dist, driver, r, refunds);
    var cancelled := Apply(w, dist, CancelRoute(driver, r, refunds));
    hide KeysBelow, TripsSound, LedgerSound, Apply, Run, PaysFor, Routes.OpenPayments, CanBecomePaid,
      PaypalRuns.HasOrder;
    if PaysFor(Run(cancelled, dist, ops), p, r) {
      SettledUntilReceived(cancelled, dist, ops, r, p);
      PaysForPayment(Run(cancelled, dist, ops), p, r);
      SamePayer(w, driver, r, refunds, p);
    }
    if PaysFor(w, p, r) {
      CancelledPayment(w, driver, r, refunds, p);
      BecomesPaidExactlyWhen(cancelled, dist, p);
    }
  }

  lemma CancelledIsSettled(w: World, dist: Distance, driver: Id, r: Id, refunds: set<Id>)
    requires Reachable(w) && Routes.OwnsActive(w, driver, r)
    ensures var cancelled := Apply(w, dist, CancelRoute(driver, r, refunds));
            cancelled == Routes.CancelRoute(w, driver, r, refunds).0
            && TripsSound(cancelled) && KeysBelow(cancelled) && LedgerSound(cancelled)
            && r in cancelled.routes && cancelled.routes[r].state != Activa && Routes.OpenPayments(cancelled, r) == {}
  {
    var op := CancelRoute(driver, r, refunds);
    var cancelled := Apply(w, dist, op);
    TripsAlwaysSound(w);
    LedgerAlwaysSound(w);
    assert cancelled == Routes.CancelRoute(w, driver, r, refunds).0;
    CancelRouteKeeps(w, driver, r, refunds);
    CancelledRouteOwesNothing(w, driver, r, refunds);
    StepEvolves(w, dist, op);
    StepKeepsLedger(w, dist, op);
    CancelledState(w, driver, r, refunds);
    hide KeysBelow, TripsSound, LedgerSound, Apply, Run, PaysFor, Routes.CancelRoute, Routes.OpenPayments;
  }

  /** The cancellation settles a payment and leaves its order and its booking. */
  lemma CancelledPayment(w: World, driver: Id, r: Id, refunds: set<Id>, p: Id)
    requires Routes.OwnsActive(w, driver, r) && PaysFor(w, p, r)
    ensures var after := Routes.CancelRoute(w, driver, r, refunds).0;
            p in w.payments && p in after.payments && after.payments[p].booking in after.bookings
            && (PaypalRuns.HasOrder(after.payments[p]) <==> PaypalRuns.HasOrder(w.payments[p]))
            && after.payments[p].status != Pending && after.payments[p].status != Paid
  {
    CancelRouteSettles(w, driver, r, refunds, p);
  }

  lemma CancelledState(w: World, driver: Id, r: Id, refunds: set<Id>)
    requires Routes.OwnsActive(w, driver, r)
    ensures var after := Routes.CancelRoute(w, driver, r, refunds).0;
            r in after.routes && after.routes[r].state == RutaCancelada
  {
    hide Routes.CancelledBookings, Routes.PaymentsCancelled, Routes.OpenPayments;
  }

  lemma SamePayer(w: World, driver: Id, r: Id, refunds: set<Id>, p: Id)
    requires PaysFor(Routes.CancelRoute(w, driver, r, refunds).0, p, r)
    ensures PaysFor(w, p, r)
  {
    hide Routes.OpenPayments;
  }
}
