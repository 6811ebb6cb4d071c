/** What holds of routes, stops and bookings in every state that a run reaches. */
module TripInvariant {
  import opened Wrappers
  import opened Domain
  import opened StopPlan
  import opened StopOrder
  import Bookings
  import Payouts
  import Routes
  import Sums
  import opened Runs
  import opened Evolution

  /** Free seats and seated bookings add up to all seats; only a cancelled route may have lost some. */
  predicate SeatRule(route: Route, seated: nat) {
    route.freeSeats >= 0
    && (if route.state == RutaCancelada then route.freeSeats + seated <= route.totalSeats
        else route.freeSeats + seated == route.totalSeats)
  }

  ghost predicate SeatsConserved(routes: map<Id, Route>, bookings: map<Id, Booking>) {
    forall r :: r in routes ==> SeatRule(routes[r], |SeatedOn(bookings, r)|)
  }

  /** Only an active route has confirmed bookings. */
  ghost predicate ClosedHaveNoneOpen(routes: map<Id, Route>, bookings: map<Id, Booking>) {
    forall b :: b in bookings && bookings[b].state == Confirmada ==>
                  bookings[b].route in routes && routes[bookings[b].route].state == Activa
  }

  ghost predicate BookingsSound(routes: map<Id, Route>, bookings: map<Id, Booking>) {
    (forall b :: b in bookings ==> bookings[b].route in routes)
    && (forall b :: b in bookings && bookings[b].state == Completada ==> bookings[b].otpUsed)
    && (forall a, b :: a in bookings && b in bookings && a != b && bookings[a].route == bookings[b].route
                       ==> bookings[a].passenger != bookings[b].passenger)
  }

  /** Every route's stops are numbered 1, 2, ... without gaps. */
  ghost predicate StopsNumbered(routes: map<Id, Route>, stops: map<Id, Stop>) {
    (forall s :: s in stops ==> stops[s].route in routes)
    && (forall r :: r in routes ==> NumberedTo(stops, r, |StopsOn(stops, r)|))
  }

  ghost predicate TripsSound(w: World) {
    SeatsConserved(w.routes, w.bookings) && ClosedHaveNoneOpen(w.routes, w.bookings)
    && BookingsSound(w.routes, w.bookings) && StopsNumbered(w.routes, w.stops)
  }

  // ---- one row of a table ----

  /** A route row may change anything but driver and seats, and may only close when nothing is confirmed on it. */
  lemma RouteRowKeeps(w: World, r: Id, x: Route)
    requires TripsSound(w) && r in w.routes
    requires x.totalSeats == w.routes[r].totalSeats && x.freeSeats == w.routes[r].freeSeats
    requires x.state == w.routes[r].state
             || (x.state == Finalizada && w.routes[r].state != RutaCancelada && ConfirmedOn(w.bookings, r) == {})
    ensures TripsSound(w.(routes := w.routes[r := x]))
  {
    hide SeatedOn, NumberedTo, StopsOn;
    forall b | b in w.bookings && w.bookings[b].state == Confirmada && w.bookings[b].route == r
      ensures x.state == Activa
    {
      assert b in ConfirmedOn(w.bookings, r);
    }
  }

  lemma SeatedAfterSave(bookings: map<Id, Booking>, b: Id, x: Booking, r: Id)
    requires b in bookings && x.route == bookings[b].route && x.state != ReservaCancelada
    requires bookings[b].state != ReservaCancelada
    ensures SeatedOn(bookings[b := x], r) == SeatedOn(bookings, r)
  {
  }

  lemma SeatsAfterClosing(routes: map<Id, Route>, bookings: map<Id, Booking>, b: Id, x: Booking)
    requires SeatsConserved(routes, bookings) && b in bookings && bookings[b].state == Confirmada
    requires x.route == bookings[b].route && x.state != ReservaCancelada
    ensures SeatsConserved(routes, bookings[b := x])
  {
    hide SeatedOn, SeatRule;
    forall r | r in routes
      ensures SeatRule(routes[r], |SeatedOn(bookings[b := x], r)|)
    {
      SeatedAfterSave(bookings, b, x, r);
    }
  }

  /** A confirmed booking may close, with its code checked if it is completed; it keeps its seat. */
  lemma BookingRowKeeps(w: World, b: Id, x: Booking)
    requires TripsSound(w) && b in w.bookings && w.bookings[b].state == Confirmada
    requires x.route == w.bookings[b].route && x.passenger == w.bookings[b].passenger
    requires x.state != ReservaCancelada && (x.state == Completada ==> x.otpUsed)
    ensures TripsSound(w.(bookings := w.bookings[b := x]))
  {
    hide SeatsConserved, StopsNumbered;
    SeatsAfterClosing(w.routes, w.bookings, b, x);
  }

  /** A route whose stops are the same rows stays numbered. */
  lemma OtherRouteUntouched(stops: map<Id, Stop>, after: map<Id, Stop>, r: Id)
    requires NumberedTo(stops, r, |StopsOn(stops, r)|)
    requires forall s :: s in after && after[s].route == r ==> s in stops && stops[s] == after[s]
    requires forall s :: s in stops && stops[s].route == r ==> s in after && stops[s] == after[s]
    ensures NumberedTo(after, r, |StopsOn(after, r)|)
  {
    assert StopsOn(after, r) == StopsOn(stops, r);
  }

  /** A stop table that changed on route r only is judged there. */
  lemma StopsOfOneRoute(routes: map<Id, Route>, stops: map<Id, Stop>, after: map<Id, Stop>, r: Id)
    requires StopsNumbered(routes, stops)
    requires forall s :: s in after && after[s].route != r ==> s in stops && stops[s] == after[s]
    requires forall s :: s in stops && stops[s].route != r ==> s in after && stops[s] == after[s]
    requires r in routes && NumberedTo(after, r, |StopsOn(after, r)|)
    ensures StopsNumbered(routes, after)
  {
    hide NumberedTo;
    forall other | other in routes
      ensures NumberedTo(after, other, |StopsOn(after, other)|)
    {
      if other != r {
        OtherRouteUntouched(stops, after, other);
      }
    }
  }

  lemma InsertedKeeps(routes: map<Id, Route>, stops: map<Id, Stop>, dist: Distance, r: Id, p: Place, stop: Id)
    requires StopsNumbered(routes, stops) && r in routes && stop !in stops
    ensures StopsNumbered(routes, Inserted(dist, stops, r, p, stop))
  {
    hide NumberedTo, Inserted, PlannedOrder, StopListing, WithInserted, FirstBestGap;
    InsertionRefines(dist, stops, r, |StopsOn(stops, r)|, p, stop);
    var after := Inserted(dist, stops, r, p, stop);
    InsertedElsewhere(dist, stops, r, p, stop);
    NumberedCount(after, r, |StopsOn(stops, r)| + 1);
    StopsOfOneRoute(routes, stops, after, r);
  }

  lemma NumberedCount(stops: map<Id, Stop>, r: Id, n: nat)
    requires NumberedTo(stops, r, n)
    ensures n == |StopsOn(stops, r)|
  {
  }

  lemma InsertedElsewhere(dist: Distance, stops: map<Id, Stop>, r: Id, p: Place, stop: Id)
    requires stop !in stops
    ensures var after := Inserted(dist, stops, r, p, stop);
            (forall s :: s in after && after[s].route != r ==> s in stops && stops[s] == after[s])
            && (forall s :: s in stops && stops[s].route != r ==> s in after && stops[s] == after[s])
  {
    hide PlannedOrder;
  }

  lemma RemovedKeeps(routes: map<Id, Route>, stops: map<Id, Stop>, r: Id, s: Id)
    requires StopsNumbered(routes, stops) && r in routes
    ensures StopsNumbered(routes, Removed(stops, r, s))
  {
    if s in StopsOn(stops, r) {
      hide NumberedTo, Removed, StopListing, Without;
      RemovalRefines(stops, r, |StopsOn(stops, r)|, s);
      var after := Removed(stops, r, s);
      RemovedElsewhere(stops, r, s);
      NumberedCount(after, r, |StopsOn(stops, r)| - 1);
      StopsOfOneRoute(routes, stops, after, r);
    } else {
      assert Removed(stops, r, s) == stops;
    }
  }

  lemma RemovedElsewhere(stops: map<Id, Stop>, r: Id, s: Id)
    ensures var after := Removed(stops, r, s);
            (forall x :: x in after && after[x].route != r ==> x in stops && stops[x] == after[x])
            && (forall x :: x in stops && stops[x].route != r ==> x in after && stops[x] == after[x])
  {
  }

  // ---- the steps of the booking service ----

  lemma SeatsAfterBooking(routes: map<Id, Route>, bookings: map<Id, Booking>, id: Id, x: Booking, free: int)
    requires SeatsConserved(routes, bookings) && id !in bookings && x.state == Confirmada
    requires x.route in routes && routes[x.route].state == Activa && routes[x.route].freeSeats > 0
    requires free == routes[x.route].freeSeats - 1
    ensures SeatsConserved(routes[x.route := routes[x.route].(freeSeats := free)], bookings[id := x])
  {
    hide SeatedOn;
    var after := routes[x.route := routes[x.route].(freeSeats := free)];
    forall r | r in after
      ensures SeatRule(after[r], |SeatedOn(bookings[id := x], r)|)
    {
      SeatedAfterInsert(bookings, id, x, r);
    }
  }

  lemma SeatedAfterInsert(bookings: map<Id, Booking>, b: Id, x: Booking, r: Id)
    requires b !in bookings && x.state == Confirmada
    ensures b !in SeatedOn(bookings, r)
    ensures SeatedOn(bookings[b := x], r) == if x.route == r then SeatedOn(bookings, r) + {b} else SeatedOn(bookings, r)
  {
  }

  lemma SoundAfterBooking(w: World, id: Id, x: Booking, y: Route)
    requires ClosedHaveNoneOpen(w.routes, w.bookings) && BookingsSound(w.routes, w.bookings)
    requires id !in w.bookings && x.state == Confirmada && x.route in w.routes && y.state == Activa
    requires Bookings.BookedBy(w.bookings, x.route, x.passenger) == {}
    ensures ClosedHaveNoneOpen(w.routes[x.route := y], w.bookings[id := x])
    ensures BookingsSound(w.routes[x.route := y], w.bookings[id := x])
  {
    forall b | b in w.bookings && w.bookings[b].route == x.route
      ensures w.bookings[b].passenger != x.passenger
    {
      assert b !in Bookings.BookedBy(w.bookings, x.route, x.passenger);
    }
  }

  lemma NumberedWithRoute(routes: map<Id, Route>, stops: map<Id, Stop>, r: Id, y: Route)
    requires StopsNumbered(routes, stops) && r in routes
    ensures StopsNumbered(routes[r := y], stops)
  {
    hide NumberedTo;
  }

  lemma CreateBookingKeeps(w: World, dist: Distance, q: Bookings.Request)
    requires KeysBelow(w) && TripsSound(w)
    ensures TripsSound(Bookings.CreateBooking(w, dist, q).0)
  {
    hide SeatsConserved, StopsNumbered, ClosedHaveNoneOpen, BookingsSound, Inserted, Bookings.BookedBy, Bookings.Debts;
    if Bookings.BookingRefusal(w, q).None? {
      var route, id := w.routes[q.route], w.nextId;
      var seated := route.(freeSeats := Bookings.Max(route.freeSeats - 1, 0));
      var booking := Booking(q.route, q.passenger, Confirmada, q.payBy, q.otp, false,
                             if q.pickup.PickupAt? then Some(id + 1) else None);
      assert id !in w.bookings && id + 1 !in w.stops by { KeysAreFresh(w); }
      SeatsAfterBooking(w.routes, w.bookings, id, booking, seated.freeSeats);
      SoundAfterBooking(w, id, booking, seated);
      NumberedWithRoute(w.routes, w.stops, q.route, seated);
      if q.pickup.PickupAt? {
        InsertedKeeps(w.routes[q.route := seated], w.stops, dist, q.route, q.pickup.place, id + 1);
      }
    }
  }

  lemma KeysAreFresh(w: World)
    requires KeysBelow(w)
    ensures forall id :: id >= w.nextId ==> id !in w.routes && id !in w.bookings && id !in w.stops
                                            && id !in w.payments && id !in w.payouts
  {
  }

  lemma SeatsAfterCancelling(routes: map<Id, Route>, bookings: map<Id, Booking>, b: Id)
    requires SeatsConserved(routes, bookings) && b in bookings && bookings[b].state == Confirmada
    requires bookings[b].route in routes && routes[bookings[b].route].state == Activa
    ensures var r := bookings[b].route;
            routes[r].freeSeats < routes[r].totalSeats
            && SeatsConserved(routes[r := Bookings.SeatBack(routes[r])],
                              bookings[b := bookings[b].(state := ReservaCancelada)])
  {
    hide SeatedOn;
    var own, x := bookings[b].route, bookings[b].(state := ReservaCancelada);
    SeatedAfterCancel(bookings, b, x, own);
    var after := routes[own := Bookings.SeatBack(routes[own])];
    forall r | r in after
      ensures SeatRule(after[r], |SeatedOn(bookings[b := x], r)|)
    {
      SeatedAfterCancel(bookings, b, x, r);
    }
  }

  lemma SeatedAfterCancel(bookings: map<Id, Booking>, b: Id, x: Booking, r: Id)
    requires b in bookings && bookings[b].state == Confirmada
    requires x == bookings[b].(state := ReservaCancelada)
    ensures b in SeatedOn(bookings, r) <==> r == x.route
    ensures SeatedOn(bookings[b := x], r) == if r == x.route then SeatedOn(bookings, r) - {b} else SeatedOn(bookings, r)
  {
  }

  lemma CancelBookingKeeps(w: World, passenger: Id, b: Id, now: int, refunded: bool)
    requires TripsSound(w)
    ensures TripsSound(Bookings.CancelBooking(w, passenger, b, now, refunded).0)
  {
    hide SeatsConserved, StopsNumbered, Bookings.CancelledPayments;
    if b in w.bookings && w.bookings[b].state == Confirmada {
      SeatsAfterCancelling(w.routes, w.bookings, b);
      var r := w.bookings[b].route;
      NumberedWithRoute(w.routes, w.stops, r, Bookings.SeatBack(w.routes[r]));
    }
  }

  lemma FinalizedIfReadyKeeps(w: World, r: Id)
    requires TripsSound(w)
    ensures TripsSound(Bookings.FinalizedIfReady(w, r))
  {
    hide TripsSound;
    if ConfirmedOn(w.bookings, r) == {} && r in w.routes && w.routes[r].state == Activa {
      RouteRowKeeps(w, r, w.routes[r].(state := Finalizada));
    }
  }

  lemma CompleteBookingKeeps(w: World, driver: Id, b: Id)
    requires TripsSound(w)
    ensures TripsSound(Bookings.CompleteBooking(w, driver, b).0)
  {
    hide TripsSound, Bookings.FinalizedIfReady;
    if Bookings.DriverRefusal(w, driver, b).None? && w.bookings[b].otpUsed {
      var x := w.bookings[b].(state := Completada);
      BookingRowKeeps(w, b, x);
      FinalizedIfReadyKeeps(w.(bookings := w.bookings[b := x]), x.route);
    }
  }

  lemma MarkNoShowKeeps(w: World, driver: Id, b: Id, now: int)
    requires TripsSound(w)
    ensures TripsSound(Bookings.MarkNoShow(w, driver, b, now).0)
  {
    hide SeatsConserved, StopsNumbered, ClosedHaveNoneOpen, BookingsSound, Bookings.FinalizedIfReady,
         Bookings.PendingFailed, Removed;
    if Bookings.DriverRefusal(w, driver, b).None? {
      var x := w.bookings[b].(state := NoShow);
      BookingRowKeeps(w, b, x);
      var stops := if x.pickupStop.Some? then Removed(w.stops, x.route, x.pickupStop.value) else w.stops;
      if x.pickupStop.Some? {
        RemovedKeeps(w.routes, w.stops, x.route, x.pickupStop.value);
      }
      FinalizedIfReadyKeeps(
        w.(bookings := w.bookings[b := x], stops := stops, payments := Bookings.PendingFailed(w.payments, b)), x.route);
    }
  }

  lemma VerifyOtpKeeps(w: World, driver: Id, b: Id, otp: string)
    requires TripsSound(w)
    ensures TripsSound(Bookings.VerifyOtp(w, driver, b, otp).0)
  {
    hide TripsSound;
    if Bookings.DriverRefusal(w, driver, b).None? {
      BookingRowKeeps(w, b, w.bookings[b].(otpUsed := true));
    }
  }

  // ---- the steps of the route service ----

  lemma NewStopsNumbered(stops: map<Id, Stop>, r: Id, places: seq<Place>, first: Id)
    requires forall s :: s in stops ==> s < first && stops[s].route != r
    ensures var after := Routes.WithStops(stops, r, places, first);
            (forall s :: s in after <==> s in stops || first <= s < first + |places|)
            && (forall s :: s in stops ==> after[s] == stops[s])
            && (forall s :: s in after && s !in stops ==> after[s].route == r && after[s].orden == s - first + 1)
    decreases |places|
  {
    if places != [] {
      NewStopsNumbered(stops, r, places[..|places| - 1], first);
    }
  }

  /** Consecutive ids numbered from 1 on. */
  lemma ConsecutiveStops(after: map<Id, Stop>, r: Id, first: Id, n: nat)
    requires forall s :: s in StopsOn(after, r) <==> first <= s < first + n
    requires forall s :: s in StopsOn(after, r) ==> after[s].orden == s - first + 1
    ensures NumberedTo(after, r, |StopsOn(after, r)|)
  {
    var rows: seq<Id> := seq(n, i requires 0 <= i => first + i);
    forall s | s in StopsOn(after, r)
      ensures s in rows
    {
      assert s == rows[s - first];
    }
    ListingLength(rows, StopsOn(after, r));
  }

  lemma NewRouteNumbered(routes: map<Id, Route>, stops: map<Id, Stop>, r: Id, y: Route, places: seq<Place>, first: Id)
    requires StopsNumbered(routes, stops) && r !in routes && forall s :: s in stops ==> s < first
    ensures StopsNumbered(routes[r := y], Routes.WithStops(stops, r, places, first))
  {
    hide Routes.WithStops, NumberedTo;
    var after := Routes.WithStops(stops, r, places, first);
    NewStopsNumbered(stops, r, places, first);
    ConsecutiveStops(after, r, first, |places|);
    forall other | other in routes
      ensures NumberedTo(after, other, |StopsOn(after, other)|)
    {
      OtherRouteUntouched(stops, after, other);
    }
  }

  lemma CreateRouteKeeps(w: World, q: Routes.Request, now: int)
    requires KeysBelow(w) && TripsSound(w)
    ensures TripsSound(Routes.CreateRoute(w, q, now).0)
  {
    hide StopsNumbered, Routes.WithStops, KeysBelow;
    if Routes.RouteRefusal(q, now).None? {
      KeysAreFresh(w);
      var r := w.nextId;
      var route := Route(q.driver, q.seats, q.seats, q.price, Activa, q.departure.value, None);
      NewRouteNumbered(w.routes, w.stops, r, route, q.places, r + 1);
      assert SeatedOn(w.bookings, r) == {};
    }
  }

  lemma AddRouteStopKeeps(w: World, dist: Distance, driver: Id, r: Id, p: Place)
    requires KeysBelow(w) && TripsSound(w)
    ensures TripsSound(Routes.AddRouteStop(w, dist, driver, r, p).0)
  {
    hide SeatsConserved, StopsNumbered, ClosedHaveNoneOpen, BookingsSound, Inserted;
    if Routes.OwnerRefusal(w, driver, r).None? {
      assert w.nextId !in w.stops by { KeysAreFresh(w); }
      InsertedKeeps(w.routes, w.stops, dist, r, p, w.nextId);
    }
  }

  lemma UpdateScheduleKeeps(w: World, driver: Id, r: Id, departure: Option<int>, now: int)
    requires TripsSound(w)
    ensures TripsSound(Routes.UpdateSchedule(w, driver, r, departure, now).0)
  {
    hide TripsSound;
    if Routes.OwnerRefusal(w, driver, r).None? && departure.Some? {
      RouteRowKeeps(w, r, w.routes[r].(departure := departure.value));
    }
  }

  lemma StartRouteKeeps(w: World, driver: Id, r: Id, now: int)
    requires TripsSound(w)
    ensures TripsSound(Routes.StartRoute(w, driver, r, now).0)
  {
    hide TripsSound;
    if Routes.OwnerRefusal(w, driver, r).None? {
      RouteRowKeeps(w, r, w.routes[r].(startedAt := Some(now)));
    }
  }

  lemma FinalizeRouteKeeps(w: World, driver: Id, r: Id)
    requires TripsSound(w)
    ensures TripsSound(Routes.FinalizeRoute(w, driver, r).0)
  {
    hide TripsSound;
    if r in w.routes && w.routes[r].state != RutaCancelada && ConfirmedOn(w.bookings, r) == {} {
      RouteRowKeeps(w, r, w.routes[r].(state := Finalizada));
    }
  }

  lemma SweepKeeps(w: World, now: int)
    requires TripsSound(w)
    ensures TripsSound(Routes.Sweep(w, now))
  {
    hide SeatedOn, NumberedTo, StopsOn;
    var after := Routes.Sweep(w, now);
    forall b | b in w.bookings && w.bookings[b].state == Confirmada
      ensures after.routes[w.bookings[b].route].state == Activa
    {
      assert b in ConfirmedOn(w.bookings, w.bookings[b].route);
    }
  }

  lemma SeatsAfterRouteCancelled(routes: map<Id, Route>, bookings: map<Id, Booking>, r: Id)
    requires SeatsConserved(routes, bookings) && r in routes && routes[r].state == Activa
    ensures SeatsConserved(routes[r := routes[r].(state := RutaCancelada)], Routes.CancelledBookings(bookings, r))
  {
    var after := Routes.CancelledBookings(bookings, r);
    assert SeatedOn(after, r) <= SeatedOn(bookings, r);
    Sums.SubsetSize(SeatedOn(after, r), SeatedOn(bookings, r));
    assert forall other :: other in routes && other != r ==> SeatedOn(after, other) == SeatedOn(bookings, other);
  }

  lemma CancelRouteKeeps(w: World, driver: Id, r: Id, refunds: set<Id>)
    requires TripsSound(w)
    ensures TripsSound(Routes.CancelRoute(w, driver, r, refunds).0)
  {
    hide SeatsConserved, StopsNumbered, Routes.PaymentsCancelled, Routes.OpenPayments;
    if Routes.OwnerRefusal(w, driver, r).None? {
      SeatsAfterRouteCancelled(w.routes, w.bookings, r);
      NumberedWithRoute(w.routes, w.stops, r, w.routes[r].(state := RutaCancelada));
    }
  }

  // ---- every run ----

  lemma TripStepKeeps(w: World, dist: Distance, op: Op)
    requires KeysBelow(w) && TripsSound(w)
    ensures TripsSound(Trip(w, dist, op))
  {
    hide TripsSound, KeysBelow, Routes.CreateRoute, Routes.AddRouteStop, Routes.UpdateSchedule, Routes.StartRoute,
         Routes.CancelRoute, Routes.FinalizeRoute, Routes.Sweep, Bookings.CreateBooking, Bookings.CancelBooking,
         Bookings.CompleteBooking, Bookings.MarkNoShow, Bookings.VerifyOtp;
    match op
    case CreateRoute(route, now) => CreateRouteKeeps(w, route, now);
    case AddRouteStop(driver, r, place) => AddRouteStopKeeps(w, dist, driver, r, place);
    case UpdateSchedule(driver, r, departure, now) => UpdateScheduleKeeps(w, driver, r, departure, now);
    case StartRoute(driver, r, now) => StartRouteKeeps(w, driver, r, now);
    case CancelRoute(driver, r, refunds) => CancelRouteKeeps(w, driver, r, refunds);
    case FinalizeRoute(driver, r) => FinalizeRouteKeeps(w, driver, r);
    case Sweep(now) => SweepKeeps(w, now);
    case CreateBooking(booking) => CreateBookingKeeps(w, dist, booking);
    case CancelBooking(passenger, b, now, refunded) => CancelBookingKeeps(w, passenger, b, now, refunded);
    case CompleteBooking(driver, b) => CompleteBookingKeeps(w, driver, b);
    case MarkNoShow(driver, b, now) => MarkNoShowKeeps(w, driver, b, now);
    case VerifyOtp(driver, b, otp) => VerifyOtpKeeps(w, driver, b, otp);
    case _ =>
  }

  /** Payments and payouts do not touch routes, stops or bookings. */
  predicate SameTrips(w: World, after: World) {
    after.routes == w.routes && after.stops == w.stops && after.bookings == w.bookings
  }

  lemma PaymentsLeaveTrips(w: World, op: Op)
    requires op.CreatePayment? || op.CreatePaypalOrder? || op.Capture? || op.ReversePayment?
    requires Answers(w, op)
    ensures SameTrips(w, Money(w, op))
  {
  }

  lemma PayoutsLeaveTrips(w: World, op: Op)
    requires op.RequestPayout? || op.ExecutePayout? || op.SyncPayouts? || op.FailPayout?
    requires Answers(w, op)
    ensures SameTrips(w, Money(w, op))
  {
    hide Answers, Payouts.TakenRows, Payouts.Linked;
  }

  lemma MoneyLeavesTrips(w: World, op: Op)
    requires Answers(w, op)
    ensures SameTrips(w, Money(w, op))
  {
    if op.GeneratePayouts? {
      hide Payouts.DriversOf;
      Payouts.PayoutsCreated(w, w, op.rows, op.period, Payouts.DriversOf(w, op.rows));
    } else if op.CreatePayment? || op.CreatePaypalOrder? || op.Capture? || op.ReversePayment? {
      PaymentsLeaveTrips(w, op);
    } else if op.RequestPayout? || op.ExecutePayout? || op.SyncPayouts? || op.FailPayout? {
      PayoutsLeaveTrips(w, op);
    }
  }

  lemma {:induction false} RunKeepsTrips(w: World, dist: Distance, ops: seq<Op>)
    requires KeysBelow(w) && TripsSound(w)
    ensures TripsSound(Run(w, dist, ops))
    decreases |ops|
  {
    if ops != [] {
      hide KeysBelow, Trip, Money, SeatsConserved, StopsNumbered, ClosedHaveNoneOpen, BookingsSound;
      var init, op := ops[..|ops| - 1], ops[|ops| - 1];
      var before := Run(w, dist, init);
      RunEvolves(w, dist, init);
      RunKeepsTrips(w, dist, init);
      if IsTrip(op) {
        TripStepKeeps(before, dist, op);
      } else if Answers(before, op) {
        MoneyLeavesTrips(before, op);
      }
    }
  }

  lemma EmptyIsSound()
    ensures KeysBelow(EmptyWorld) && TripsSound(EmptyWorld)
  {
  }

  lemma ReachedKeys(dist: Distance, ops: seq<Op>)
    ensures KeysBelow(Run(EmptyWorld, dist, ops))
  {
    EmptyIsSound();
    RunEvolves(EmptyWorld, dist, ops);
    hide KeysBelow, Evolves, TripsSound;
  }

  /** In every reachable state: seats are conserved, routes that are closed have no confirmed booking, a completed
      booking had its code checked, nobody has two bookings on a route, and stops are numbered without gaps. */
  lemma TripsAlwaysSound(w: World)
    requires Reachable(w)
    ensures TripsSound(w)
  {
    var dist: Distance, ops: seq<Op> :| w == Run(EmptyWorld, dist, ops);
    EmptyIsSound();
    RunKeepsTrips(EmptyWorld, dist, ops);
  }
}
