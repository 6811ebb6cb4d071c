/** What no step of the system ever takes back: rows stay, closed routes and bookings stay closed,
    and a payment keeps its amount, its booking and the payout it was put into. */
module Evolution {
  import opened Wrappers
  import opened Domain
  import opened StopOrder
  import Database
  import Payments
  import Payouts
  import Withdrawal
  import Bookings
  import Routes
  import opened Runs

  // ---- one row ----

  predicate RouteEvolves(before: Route, after: Route) {
    after.driver == before.driver && after.price == before.price && after.totalSeats == before.totalSeats
    && (before.state != Activa ==> after.state == before.state)
    && (before.startedAt.Some? ==> after.startedAt == before.startedAt)
  }

  predicate BookingEvolves(before: Booking, after: Booking) {
    after.route == before.route && after.passenger == before.passenger
    && after.payBy == before.payBy && after.otp == before.otp
    && (before.otpUsed ==> after.otpUsed)
    && (before.state != Confirmada ==> after.state == before.state)
  }

  predicate PaymentEvolves(before: Payment, after: Payment) {
    after.booking == before.booking && after.amount == before.amount
    && after.currency == before.currency && after.payBy == before.payBy
    && (before.payout.Some? ==> after.payout == before.payout)
    && (before.paidAt.Some? ==> after.paidAt.Some?)
    && (after.status == Paid ==> after.paidAt.Some? || before.status == Paid)
    && (before.status != Pending ==> after.status != Pending && after.order == before.order)
  }

  predicate PayoutEvolves(before: Payout, after: Payout) {
    after.driver == before.driver && after.amount == before.amount && after.period == before.period
    && after.attempts >= before.attempts
    && (before.status != PayoutPending ==> after.status != PayoutPending)
    && (before.status == PayoutFailed ==> after.status == PayoutFailed)
  }

  // ---- one table ----

  ghost predicate RoutesEvolve(before: map<Id, Route>, after: map<Id, Route>) {
    forall id :: id in before ==> id in after && RouteEvolves(before[id], after[id])
  }

  ghost predicate BookingsEvolve(before: map<Id, Booking>, after: map<Id, Booking>) {
    forall id :: id in before ==> id in after && BookingEvolves(before[id], after[id])
  }

  ghost predicate PaymentsEvolve(before: map<Id, Payment>, after: map<Id, Payment>) {
    forall id :: id in before ==> id in after && PaymentEvolves(before[id], after[id])
  }

  ghost predicate PayoutsEvolve(before: map<Id, Payout>, after: map<Id, Payout>) {
    forall id :: id in before ==> id in after && PayoutEvolves(before[id], after[id])
  }

  /** The ids in use are below the counter. */
  ghost predicate Below(ids: set<Id>, next: Id) {
    forall id :: id in ids ==> id < next
  }

  ghost predicate KeysBelow(w: World) {
    Below(w.routes.Keys, w.nextId) && Below(w.stops.Keys, w.nextId) && Below(w.bookings.Keys, w.nextId)
    && Below(w.payments.Keys, w.nextId) && Below(w.payouts.Keys, w.nextId)
  }

  ghost predicate Evolves(before: World, after: World) {
    before.nextId <= after.nextId
    && RoutesEvolve(before.routes, after.routes) && BookingsEvolve(before.bookings, after.bookings)
    && PaymentsEvolve(before.payments, after.payments) && PayoutsEvolve(before.payouts, after.payouts)
  }

  /** What one step from `before` has to keep. */
  ghost predicate GoodStep(before: World, after: World) {
    Evolves(before, after) && KeysBelow(after)
  }

  // ---- saving one row ----

  lemma NothingChanges(w: World)
    requires KeysBelow(w)
    ensures GoodStep(w, w)
  {
  }

  lemma EvolvesTransitive(a: World, b: World, c: World)
    requires Evolves(a, b) && Evolves(b, c)
    ensures Evolves(a, c)
  {
    hide RouteEvolves, BookingEvolves, PaymentEvolves, PayoutEvolves;
    forall id | id in a.routes
      ensures id in c.routes && RouteEvolves(a.routes[id], c.routes[id])
    {
      RouteTransitive(a.routes[id], b.routes[id], c.routes[id]);
    }
    forall id | id in a.bookings
      ensures id in c.bookings && BookingEvolves(a.bookings[id], c.bookings[id])
    {
      BookingTransitive(a.bookings[id], b.bookings[id], c.bookings[id]);
    }
    forall id | id in a.payments
      ensures id in c.payments && PaymentEvolves(a.payments[id], c.payments[id])
    {
      PaymentTransitive(a.payments[id], b.payments[id], c.payments[id]);
    }
    forall id | id in a.payouts
      ensures id in c.payouts && PayoutEvolves(a.payouts[id], c.payouts[id])
    {
      PayoutTransitive(a.payouts[id], b.payouts[id], c.payouts[id]);
    }
  }

  lemma RouteTransitive(a: Route, b: Route, c: Route)
    requires RouteEvolves(a, b) && RouteEvolves(b, c)
    ensures RouteEvolves(a, c)
  {
  }

  lemma BookingTransitive(a: Booking, b: Booking, c: Booking)
    requires BookingEvolves(a, b) && BookingEvolves(b, c)
    ensures BookingEvolves(a, c)
  {
  }

  lemma PaymentTransitive(a: Payment, b: Payment, c: Payment)
    requires PaymentEvolves(a, b) && PaymentEvolves(b, c)
    ensures PaymentEvolves(a, c)
  {
  }

  lemma PayoutTransitive(a: Payout, b: Payout, c: Payout)
    requires PayoutEvolves(a, b) && PayoutEvolves(b, c)
    ensures PayoutEvolves(a, c)
  {
  }

  lemma RouteSaved(w: World, id: Id, x: Route)
    requires id in w.routes ==> RouteEvolves(w.routes[id], x)
    ensures RoutesEvolve(w.routes, w.routes[id := x])
  {
  }

  lemma BookingSaved(w: World, id: Id, x: Booking)
    requires id in w.bookings ==> BookingEvolves(w.bookings[id], x)
    ensures BookingsEvolve(w.bookings, w.bookings[id := x])
  {
  }

  lemma PaymentSaved(w: World, id: Id, x: Payment)
    requires id in w.payments ==> PaymentEvolves(w.payments[id], x)
    ensures PaymentsEvolve(w.payments, w.payments[id := x])
  {
  }

  lemma PayoutSaved(w: World, id: Id, x: Payout)
    requires id in w.payouts ==> PayoutEvolves(w.payouts[id], x)
    ensures PayoutsEvolve(w.payouts, w.payouts[id := x])
  {
  }

  // ---- every step ----

  lemma CreateRouteEvolves(w: World, q: Routes.Request, now: int)
    requires KeysBelow(w)
    ensures GoodStep(w, Routes.CreateRoute(w, q, now).0)
  {
    hide RoutesEvolve, BookingsEvolve, PaymentsEvolve, PayoutsEvolve;
    NothingChanges(w);
    if q.departure.Some? {
      var route := Route(q.driver, q.seats, q.seats, q.price, Activa, q.departure.value, None);
      RouteSaved(w, w.nextId, route);
      WithStopsKeys(w.stops, w.nextId, q.places, w.nextId + 1);
    }
  }

  lemma {:induction false} WithStopsKeys(stops: map<Id, Stop>, r: Id, places: seq<Place>, first: Id)
    ensures forall s :: s in Routes.WithStops(stops, r, places, first)
                        <==> s in stops || first <= s < first + |places|
    decreases |places|
  {
    if places != [] {
      WithStopsKeys(stops, r, places[..|places| - 1], first);
    }
  }

  lemma AddRouteStopEvolves(w: World, dist: Distance, driver: Id, r: Id, p: Place)
    requires KeysBelow(w)
    ensures GoodStep(w, Routes.AddRouteStop(w, dist, driver, r, p).0)
  {
    hide RoutesEvolve, BookingsEvolve, PaymentsEvolve, PayoutsEvolve, PlannedOrder;
    NothingChanges(w);
  }

  lemma UpdateScheduleEvolves(w: World, driver: Id, r: Id, departure: Option<int>, now: int)
    requires KeysBelow(w)
    ensures GoodStep(w, Routes.UpdateSchedule(w, driver, r, departure, now).0)
  {
    hide RoutesEvolve, BookingsEvolve, PaymentsEvolve, PayoutsEvolve;
    NothingChanges(w);
    if Routes.OwnerRefusal(w, driver, r).None? && departure.Some? {
      RouteSaved(w, r, w.routes[r].(departure := departure.value));
    }
  }

  lemma StartRouteEvolves(w: World, driver: Id, r: Id, now: int)
    requires KeysBelow(w)
    ensures GoodStep(w, Routes.StartRoute(w, driver, r, now).0)
  {
    hide RoutesEvolve, BookingsEvolve, PaymentsEvolve, PayoutsEvolve;
    NothingChanges(w);
    if Routes.OwnerRefusal(w, driver, r).None? && w.routes[r].startedAt.None? {
      RouteSaved(w, r, w.routes[r].(startedAt := Some(now)));
    }
  }

  lemma RefundEvolves(payment: Payment, refunded: bool)
    requires payment.status == Paid
    ensures PaymentEvolves(payment, Payments.Refund(payment, refunded))
  {
  }

  lemma CancelRouteEvolves(w: World, driver: Id, r: Id, refunds: set<Id>)
    requires KeysBelow(w)
    ensures GoodStep(w, Routes.CancelRoute(w, driver, r, refunds).0)
  {
    hide RoutesEvolve, BookingsEvolve, PaymentsEvolve, PayoutsEvolve;
    NothingChanges(w);
    if Routes.OwnerRefusal(w, driver, r).None? {
      RouteSaved(w, r, w.routes[r].(state := RutaCancelada));
      BookingsCancelledEvolve(w.bookings, r);
      PaymentsCancelledEvolve(w.payments, Routes.OpenPayments(w, r), refunds);
    }
  }

  lemma BookingsCancelledEvolve(bookings: map<Id, Booking>, r: Id)
    ensures BookingsEvolve(bookings, Routes.CancelledBookings(bookings, r))
  {
  }

  lemma PaymentsCancelledEvolve(payments: map<Id, Payment>, open: set<Id>, refunds: set<Id>)
    ensures PaymentsEvolve(payments, Routes.PaymentsCancelled(payments, open, refunds))
  {
  }

  lemma FinalizeRouteEvolves(w: World, driver: Id, r: Id)
    requires KeysBelow(w)
    ensures GoodStep(w, Routes.FinalizeRoute(w, driver, r).0)
  {
    hide RoutesEvolve, BookingsEvolve, PaymentsEvolve, PayoutsEvolve;
    NothingChanges(w);
    if r in w.routes && w.routes[r].state != RutaCancelada {
      RouteSaved(w, r, w.routes[r].(state := Finalizada));
    }
  }

  lemma SweepEvolves(w: World, now: int)
    requires KeysBelow(w)
    ensures GoodStep(w, Routes.Sweep(w, now))
  {
    hide ConfirmedOn;
    NothingChanges(w);
  }

  lemma CreateBookingEvolves(w: World, dist: Distance, q: Bookings.Request)
    requires KeysBelow(w)
    ensures GoodStep(w, Bookings.CreateBooking(w, dist, q).0)
  {
    hide RoutesEvolve, BookingsEvolve, PaymentsEvolve, PayoutsEvolve, PlannedOrder;
    NothingChanges(w);
    if Bookings.BookingRefusal(w, q).None? {
      var route, n := w.routes[q.route], w.nextId;
      RouteSaved(w, q.route, route.(freeSeats := Bookings.Max(route.freeSeats - 1, 0)));
      var booking := Booking(q.route, q.passenger, Confirmada, q.payBy, q.otp, false, None);
      BookingSaved(w, n, booking);
      BookingSaved(w, n, booking.(pickupStop := Some(n + 1)));
    }
  }

  lemma CancelBookingEvolves(w: World, passenger: Id, b: Id, now: int, refunded: bool)
    requires KeysBelow(w)
    ensures GoodStep(w, Bookings.CancelBooking(w, passenger, b, now, refunded).0)
  {
    hide RoutesEvolve, BookingsEvolve, PaymentsEvolve, PayoutsEvolve;
    NothingChanges(w);
    if b in w.bookings && w.bookings[b].state == Confirmada {
      var r := w.bookings[b].route;
      BookingSaved(w, b, w.bookings[b].(state := ReservaCancelada));
      if r in w.routes {
        RouteSaved(w, r, Bookings.SeatBack(w.routes[r]));
      }
      CancelledPaymentsEvolve(w.payments, b, Bookings.RefundDue(w, r, now), refunded);
    }
  }

  lemma CancelledPaymentsEvolve(payments: map<Id, Payment>, b: Id, due: bool, refunded: bool)
    ensures PaymentsEvolve(payments, Bookings.CancelledPayments(payments, b, due, refunded))
  {
  }

  lemma FinalizedIfReadyEvolves(w: World, r: Id)
    requires KeysBelow(w)
    ensures GoodStep(w, Bookings.FinalizedIfReady(w, r))
  {
    hide RoutesEvolve, BookingsEvolve, PaymentsEvolve, PayoutsEvolve;
    NothingChanges(w);
    if r in w.routes && w.routes[r].state == Activa {
      RouteSaved(w, r, w.routes[r].(state := Finalizada));
    }
  }

  lemma CompleteBookingEvolves(w: World, driver: Id, b: Id)
    requires KeysBelow(w)
    ensures GoodStep(w, Bookings.CompleteBooking(w, driver, b).0)
  {
    hide RoutesEvolve, BookingsEvolve, PaymentsEvolve, PayoutsEvolve, Bookings.FinalizedIfReady;
    NothingChanges(w);
    if Bookings.DriverRefusal(w, driver, b).None? {
      var closed := w.(bookings := w.bookings[b := w.bookings[b].(state := Completada)]);
      BookingSaved(w, b, w.bookings[b].(state := Completada));
      FinalizedIfReadyEvolves(closed, w.bookings[b].route);
      EvolvesTransitive(w, closed, Bookings.FinalizedIfReady(closed, w.bookings[b].route));
    }
  }

  lemma MarkNoShowEvolves(w: World, driver: Id, b: Id, now: int)
    requires KeysBelow(w)
    ensures GoodStep(w, Bookings.MarkNoShow(w, driver, b, now).0)
  {
    hide RoutesEvolve, BookingsEvolve, PaymentsEvolve, PayoutsEvolve, Bookings.FinalizedIfReady, Bookings.PendingFailed;
    NothingChanges(w);
    if Bookings.DriverRefusal(w, driver, b).None? {
      var booking := w.bookings[b];
      var stops := if booking.pickupStop.Some? then Removed(w.stops, booking.route, booking.pickupStop.value)
                   else w.stops;
      var closed := w.(bookings := w.bookings[b := booking.(state := NoShow)], stops := stops,
                       payments := Bookings.PendingFailed(w.payments, b));
      BookingSaved(w, b, booking.(state := NoShow));
      PendingFailedEvolve(w.payments, b);
      FinalizedIfReadyEvolves(closed, booking.route);
      EvolvesTransitive(w, closed, Bookings.FinalizedIfReady(closed, booking.route));
    }
  }

  lemma PendingFailedEvolve(payments: map<Id, Payment>, b: Id)
    ensures PaymentsEvolve(payments, Bookings.PendingFailed(payments, b))
    ensures Bookings.PendingFailed(payments, b).Keys == payments.Keys
  {
  }

  lemma VerifyOtpEvolves(w: World, driver: Id, b: Id, otp: string)
    requires KeysBelow(w)
    ensures GoodStep(w, Bookings.VerifyOtp(w, driver, b, otp).0)
  {
    hide RoutesEvolve, BookingsEvolve, PaymentsEvolve, PayoutsEvolve;
    NothingChanges(w);
    if b in w.bookings {
      BookingSaved(w, b, w.bookings[b].(otpUsed := true));
    }
  }

  lemma CreatePaymentEvolves(w: World, passenger: Id, b: Id, payBy: PayMethod)
    requires KeysBelow(w)
    ensures GoodStep(w, Payments.CreatePayment(w, passenger, b, payBy).0)
  {
    hide RoutesEvolve, BookingsEvolve, PaymentsEvolve, PayoutsEvolve;
    NothingChanges(w);
    if b in w.bookings && w.bookings[b].route in w.routes {
      var price := w.routes[w.bookings[b].route].price;
      PaymentSaved(w, w.nextId, Payment(b, price, "USD", payBy, Pending, None, None, None, None));
    }
  }

  lemma CreatePaypalOrderEvolves(w: World, passenger: Id, p: Id, placed: Payments.OrderReply)
    requires KeysBelow(w)
    ensures GoodStep(w, Payments.CreatePaypalOrder(w, passenger, p, placed).0)
  {
    hide RoutesEvolve, BookingsEvolve, PaymentsEvolve, PayoutsEvolve;
    NothingChanges(w);
    if p in w.payments && w.payments[p].status == Pending && placed.OrderPlaced? {
      PaymentSaved(w, p, w.payments[p].(order := Some(placed.order)));
    }
  }

  lemma CaptureEvolves(w: World, passenger: Id, p: Id, order: string, captured: Payments.CaptureReply, now: int)
    requires KeysBelow(w)
    ensures GoodStep(w, Payments.Capture(w, passenger, p, order, captured, now).0)
  {
    hide RoutesEvolve, BookingsEvolve, PaymentsEvolve, PayoutsEvolve;
    NothingChanges(w);
    if p in w.payments && captured.CaptureCompleted? {
      PaymentSaved(w, p, w.payments[p].(status := Failed));
      PaymentSaved(w, p, w.payments[p].(status := Paid, paidAt := Some(now), capture := captured.capture));
    }
  }

  lemma ReversePaymentEvolves(w: World, p: Id, refunded: bool)
    requires KeysBelow(w)
    ensures GoodStep(w, Payments.ReversePayment(w, p, refunded).0)
  {
    hide RoutesEvolve, BookingsEvolve, PaymentsEvolve, PayoutsEvolve;
    NothingChanges(w);
    if p in w.payments && w.payments[p].status == Paid {
      RefundEvolves(w.payments[p], refunded);
      PaymentSaved(w, p, Payments.Refund(w.payments[p], refunded));
    }
  }

  lemma WithPayoutEvolves(w: World, payout: Payout, taken: set<Id>)
    requires KeysBelow(w) && forall p :: p in taken && p in w.payments ==> w.payments[p].payout == None
    ensures GoodStep(w, Payouts.WithPayout(w, payout, taken))
  {
    hide RoutesEvolve, BookingsEvolve, PayoutsEvolve;
    NothingChanges(w);
    PayoutSaved(w, w.nextId, payout);
  }

  lemma RequestPayoutEvolves(w: World, driver: Id, amount: int, hasEmail: bool, period: string, rows: seq<Id>)
    requires KeysBelow(w) && Database.IsAgeListing(w, driver, rows)
    ensures GoodStep(w, Payouts.RequestPayout(w, driver, amount, hasEmail, period, rows).0)
  {
    hide Evolves, KeysBelow, Payouts.WithPayout;
    NothingChanges(w);
    var taken := Withdrawal.Withdraw(Payouts.AmountsOf(w.payments, rows), amount);
    if taken.Some? {
      var payout := Payout(driver, period, taken.value.total, PayoutPending, None, 0, None);
      WithPayoutEvolves(w, payout, Payouts.TakenRows(rows, taken.value.chosen));
    }
  }

  lemma GeneratePayoutsEvolves(w: World, period: string, start: int, end: int, rows: seq<Id>)
    requires KeysBelow(w) && IsListing(rows, Payouts.Eligible(w.payments, start, end))
    ensures GoodStep(w, Payouts.GeneratePayouts(w, period, start, end, rows).0)
  {
    hide RoutesEvolve, BookingsEvolve, Payouts.CreatePayouts, Payouts.DriversOf, DriverOf;
    NothingChanges(w);
    var drivers := Payouts.DriversOf(w, rows);
    Payouts.DriversDistinct(w, rows);
    Payouts.PayoutsCreated(w, w, rows, period, drivers);
    Payouts.NoPaymentAppears(w, w, rows, period, drivers);
    forall p | p in w.payments
      ensures PaymentEvolves(w.payments[p], Payouts.CreatePayouts(w, w, rows, period, drivers).payments[p])
    {
      Payouts.PaymentLinked(w, w, rows, period, drivers, p);
    }
  }

  lemma ExecutePayoutEvolves(w: World, id: Id, hasEmail: bool, answer: Payouts.BatchReply, now: int)
    requires KeysBelow(w)
    ensures GoodStep(w, Payouts.ExecutePayout(w, id, hasEmail, answer, now).0)
  {
    hide RoutesEvolve, BookingsEvolve, PaymentsEvolve, PayoutsEvolve;
    NothingChanges(w);
    if id in w.payouts && w.payouts[id].status == PayoutPending {
      var sent := w.payouts[id].(attempts := w.payouts[id].attempts + 1);
      PayoutSaved(w, id, sent.(status := PayoutFailed));
      if answer.BatchAnswer? {
        PayoutSaved(w, id, Payouts.AfterBatch(sent.(batch := answer.batch), answer.status, now));
      }
    }
  }

  lemma SyncPayoutsEvolves(w: World, answers: map<Id, Payouts.BatchReply>, now: int)
    requires KeysBelow(w)
    ensures GoodStep(w, Payouts.SyncPayouts(w, answers, now))
  {
    hide RoutesEvolve, BookingsEvolve, PaymentsEvolve;
    NothingChanges(w);
  }

  lemma FailPayoutEvolves(w: World, id: Id)
    requires KeysBelow(w)
    ensures GoodStep(w, Payouts.FailPayout(w, id).0)
  {
    hide RoutesEvolve, BookingsEvolve, PaymentsEvolve, PayoutsEvolve;
    NothingChanges(w);
    if id in w.payouts {
      PayoutSaved(w, id, w.payouts[id].(status := PayoutFailed, attempts := w.payouts[id].attempts + 1));
    }
  }


  lemma TripStepEvolves(w: World, dist: Distance, op: Op)
    requires KeysBelow(w)
    ensures GoodStep(w, Trip(w, dist, op))
  {
    hide GoodStep, KeysBelow, Routes.CreateRoute, Routes.AddRouteStop, Routes.UpdateSchedule, Routes.StartRoute,
         Routes.CancelRoute, Routes.FinalizeRoute, Routes.Sweep, Bookings.CreateBooking, Bookings.CancelBooking,
         Bookings.CompleteBooking, Bookings.MarkNoShow, Bookings.VerifyOtp;
    match op
    case CreateRoute(route, now) => CreateRouteEvolves(w, route, now);
    case AddRouteStop(driver, r, place) => AddRouteStopEvolves(w, dist, driver, r, place);
    case UpdateSchedule(driver, r, departure, now) => UpdateScheduleEvolves(w, driver, r, departure, now);
    case StartRoute(driver, r, now) => StartRouteEvolves(w, driver, r, now);
    case CancelRoute(driver, r, refunds) => CancelRouteEvolves(w, driver, r, refunds);
    case FinalizeRoute(driver, r) => FinalizeRouteEvolves(w, driver, r);
    case Sweep(now) => SweepEvolves(w, now);
    case CreateBooking(booking) => CreateBookingEvolves(w, dist, booking);
    case CancelBooking(passenger, b, now, refunded) => CancelBookingEvolves(w, passenger, b, now, refunded);
    case CompleteBooking(driver, b) => CompleteBookingEvolves(w, driver, b);
    case MarkNoShow(driver, b, now) => MarkNoShowEvolves(w, driver, b, now);
    case VerifyOtp(driver, b, otp) => VerifyOtpEvolves(w, driver, b, otp);
    case _ => NothingChanges(w);
  }

  lemma MoneyStepEvolves(w: World, op: Op)
    requires KeysBelow(w) && Answers(w, op)
    ensures GoodStep(w, Money(w, op))
  {
    hide GoodStep, KeysBelow, Payments.CreatePayment, Payments.CreatePaypalOrder, Payments.Capture,
         Payments.ReversePayment, Payouts.RequestPayout, Payouts.GeneratePayouts, Payouts.ExecutePayout,
         Payouts.SyncPayouts, Payouts.FailPayout;
    match op
    case CreatePayment(passenger, b, payBy) => CreatePaymentEvolves(w, passenger, b, payBy);
    case CreatePaypalOrder(passenger, p, placed) => CreatePaypalOrderEvolves(w, passenger, p, placed);
    case Capture(passenger, p, order, captured, now) => CaptureEvolves(w, passenger, p, order, captured, now);
    case ReversePayment(p, refunded) => ReversePaymentEvolves(w, p, refunded);
    case RequestPayout(driver, amount, hasEmail, period, rows) =>
      RequestPayoutEvolves(w, driver, amount, hasEmail, period, rows);
    case GeneratePayouts(period, start, end, rows) => GeneratePayoutsEvolves(w, period, start, end, rows);
    case ExecutePayout(payout, hasEmail, answer, now) => ExecutePayoutEvolves(w, payout, hasEmail, answer, now);
    case SyncPayouts(answers, now) => SyncPayoutsEvolves(w, answers, now);
    case FailPayout(payout) => FailPayoutEvolves(w, payout);
    case _ => NothingChanges(w);
  }

  lemma StepEvolves(w: World, dist: Distance, op: Op)
    requires KeysBelow(w)
    ensures GoodStep(w, Apply(w, dist, op))
  {
    hide GoodStep, KeysBelow, Trip, Money;
    if IsTrip(op) {
      TripStepEvolves(w, dist, op);
    } else if Answers(w, op) {
      MoneyStepEvolves(w, op);
    } else {
      NothingChanges(w);
    }
  }

  /** Over any run, from any moment on: routes and bookings that are closed stay as they are, every payment keeps its
      booking, amount and payout, a payment never becomes pending again, and a payout keeps driver and amount. */
  lemma {:induction false} RunEvolves(w: World, dist: Distance, ops: seq<Op>)
    requires KeysBelow(w)
    ensures Evolves(w, Run(w, dist, ops)) && KeysBelow(Run(w, dist, ops))
    decreases |ops|
  {
    hide Evolves, KeysBelow, Apply;
    if ops == [] {
      NothingChanges(w);
    } else {
      var before := Run(w, dist, ops[..|ops| - 1]);
      RunEvolves(w, dist, ops[..|ops| - 1]);
      StepEvolves(before, dist, ops[|ops| - 1]);
      EvolvesTransitive(w, before, Run(w, dist, ops));
    }
  }
}
