/** Every refusal names a reason that is true of the request: what each answer of a service tells its caller. */
module Refusals {
  import opened Wrappers
  import opened JsText
  import opened Domain
  import Database
  import Payments
  import Payouts
  import Withdrawal
  import Bookings
  import Routes

  /** Of a booking request. */
  ghost predicate BookingFault(w: World, q: Bookings.Request, why: Failure) {
    match why
    case PassengerBlocked => q.blocked
    case PassengerHasDebt =>
      exists b :: b in w.bookings && w.bookings[b].passenger == q.passenger && w.bookings[b].payBy == Efectivo
                  && w.bookings[b].state == NoShow
    case PickupInvalid => q.pickup.IncompletePickup?
    case NotFound => q.route !in w.routes
    case NotActive => q.route in w.routes && w.routes[q.route].state != Activa
    case RouteFull => q.route in w.routes && w.routes[q.route].freeSeats <= 0
    case PriceRequired => q.route in w.routes && w.routes[q.route].price <= 0
    case AlreadyBooked =>
      exists b :: b in w.bookings && w.bookings[b].route == q.route && w.bookings[b].passenger == q.passenger
    case _ => false
  }

  lemma BookingRefusedTruly(w: World, dist: Distance, q: Bookings.Request)
    ensures var reply := Bookings.CreateBooking(w, dist, q).1; reply.Refused? ==> BookingFault(w, q, reply.why)
  {
    if Bookings.Debts(w.bookings, q.passenger) != {} { var b :| b in Bookings.Debts(w.bookings, q.passenger); }
    if Bookings.BookedBy(w.bookings, q.route, q.passenger) != {} {
      var b :| b in Bookings.BookedBy(w.bookings, q.route, q.passenger);
    }
  }

  /** Of what a driver does to a booking: check its code, complete it, or mark the passenger absent. */
  predicate DriverFault(w: World, driver: Id, b: Id, why: Failure) {
    match why
    case NotFound => b !in w.bookings
    case Forbidden =>
      b in w.bookings && (w.bookings[b].route !in w.routes || w.routes[w.bookings[b].route].driver != driver)
    case NotActive => b in w.bookings && w.bookings[b].state != Confirmada
    case _ => false
  }

  lemma DriverRefusedTruly(w: World, driver: Id, b: Id, otp: string, now: int)
    ensures var reply := Bookings.CompleteBooking(w, driver, b).1;
            reply.Refused? ==>
              DriverFault(w, driver, b, reply.why)
              || (reply.why == OtpMissing && b in w.bookings && !w.bookings[b].otpUsed)
    ensures var reply := Bookings.VerifyOtp(w, driver, b, otp).1;
            reply.Refused? ==>
              DriverFault(w, driver, b, reply.why)
              || (reply.why == OtpAlreadyUsed && b in w.bookings && w.bookings[b].otpUsed)
              || (reply.why == OtpInvalid && b in w.bookings && w.bookings[b].otp != Trim(otp))
    ensures var reply := Bookings.MarkNoShow(w, driver, b, now).1;
            reply.Refused? ==>
              DriverFault(w, driver, b, reply.why)
              || (reply.why == NoShowTooEarly && b in w.bookings && w.bookings[b].route in w.routes
                  && now < w.routes[w.bookings[b].route].departure + 30 * MINUTE)
  {
    hide Bookings.FinalizedIfReady, Trim, Bookings.PendingFailed;
  }

  lemma CancellationRefusedTruly(w: World, passenger: Id, b: Id, now: int, refunded: bool)
    ensures var reply := Bookings.CancelBooking(w, passenger, b, now, refunded).1;
            reply.Refused? ==>
              (reply.why == NotFound && (b !in w.bookings || w.bookings[b].passenger != passenger))
              || (reply.why == NotActive && b in w.bookings && w.bookings[b].state != Confirmada)
  {
    hide Bookings.CancelledPayments;
  }

  /** Of a new route. */
  predicate RouteFault(q: Routes.Request, now: int, why: Failure) {
    match why
    case InvalidDeparture => q.departure == None
    case StopsRequired => |q.places| < 2
    case DepartureTooSoon => q.departure.Some? && q.departure.value < now + 15 * MINUTE
    case DriverBlocked => q.blocked
    case NoVehicle => q.vehicleSeats == None
    case SeatsExceedVehicle => q.vehicleSeats.Some? && q.seats > q.vehicleSeats.value
    case PriceRequired => q.price <= 0
    case _ => false
  }

  lemma RouteRefusedTruly(w: World, q: Routes.Request, now: int)
    ensures var reply := Routes.CreateRoute(w, q, now).1; reply.Refused? ==> RouteFault(q, now, reply.why)
  {
    hide Routes.WithStops;
  }

  /** Of what a driver does to an own route. */
  predicate OwnerFault(w: World, driver: Id, r: Id, why: Failure) {
    match why
    case NotFound => r !in w.routes || w.routes[r].driver != driver
    case NotActive => r in w.routes && w.routes[r].state != Activa
    case _ => false
  }

  lemma OwnerRefusedTruly(
      w: World, dist: Distance, driver: Id, r: Id, p: Place, departure: Option<int>, now: int, refunds: set<Id>)
    ensures var reply := Routes.AddRouteStop(w, dist, driver, r, p).1;
            reply.Refused? ==> OwnerFault(w, driver, r, reply.why)
    ensures var reply := Routes.CancelRoute(w, driver, r, refunds).1;
            reply.Refused? ==> OwnerFault(w, driver, r, reply.why)
    ensures var reply := Routes.UpdateSchedule(w, driver, r, departure, now).1;
            reply.Refused? ==>
              OwnerFault(w, driver, r, reply.why)
              || (reply.why == AlreadyStarted && r in w.routes && w.routes[r].startedAt.Some?)
              || (reply.why == InvalidDeparture && departure == None)
              || (reply.why == DepartureTooSoon && departure.Some? && departure.value < now + 15 * MINUTE)
    ensures var reply := Routes.StartRoute(w, driver, r, now).1;
            reply.Refused? ==>
              OwnerFault(w, driver, r, reply.why)
              || (reply.why == AlreadyStarted && r in w.routes && w.routes[r].startedAt.Some?)
              || (reply.why == PassengersPending
                  && exists b :: b in w.bookings && w.bookings[b].route == r && w.bookings[b].state == Confirmada
                                 && !w.bookings[b].otpUsed)
    ensures var reply := Routes.FinalizeRoute(w, driver, r).1;
            reply.Refused? ==>
              (reply.why == NotFound && (r !in w.routes || w.routes[r].driver != driver))
              || (reply.why == NotActive && r in w.routes && w.routes[r].state == RutaCancelada)
              || (reply.why == NotFinished
                  && exists b :: b in w.bookings && w.bookings[b].route == r && w.bookings[b].state == Confirmada)
  {
    hide Routes.OpenPayments, Routes.PaymentsCancelled, Routes.CancelledBookings;
    if Routes.Unverified(w.bookings, r) != {} { var b :| b in Routes.Unverified(w.bookings, r); }
    if ConfirmedOn(w.bookings, r) != {} { var b :| b in ConfirmedOn(w.bookings, r); }
  }

  lemma PaymentRefusedTruly(w: World, passenger: Id, b: Id, payBy: PayMethod)
    ensures var reply := Payments.CreatePayment(w, passenger, b, payBy).1;
            reply.Refused? ==>
              match reply.why
              case NotFound => b !in w.bookings
              case Forbidden => b in w.bookings && w.bookings[b].passenger != passenger
              case NotActive => b in w.bookings && w.bookings[b].state != Confirmada
              case MethodMismatch => b in w.bookings && w.bookings[b].payBy != payBy
              case PaymentExists => exists p :: p in w.payments && w.payments[p].booking == b
              case PriceRequired =>
                b in w.bookings && (w.bookings[b].route in w.routes ==> w.routes[w.bookings[b].route].price <= 0)
              case _ => false
  {
    if PaymentsOf(w.payments, b) != {} { var p :| p in PaymentsOf(w.payments, b); }
  }

  /** Of what a passenger does to an own payment at PayPal. */
  predicate OnlineFault(w: World, passenger: Id, p: Id, why: Failure) {
    match why
    case NotFound =>
      p !in w.payments || w.payments[p].booking !in w.bookings
      || w.bookings[w.payments[p].booking].passenger != passenger
    case MethodMismatch => p in w.payments && w.payments[p].payBy == Efectivo
    case _ => false
  }

  lemma OnlineRefusedTruly(
      w: World, passenger: Id, p: Id, placed: Payments.OrderReply, order: string, captured: Payments.CaptureReply,
      now: int)
    ensures var reply := Payments.CreatePaypalOrder(w, passenger, p, placed).1;
            reply.Refused? ==>
              OnlineFault(w, passenger, p, reply.why)
              || (reply.why == PaymentNotPending && p in w.payments && w.payments[p].status != Pending)
              || (reply.why == PaymentFailed && !placed.OrderPlaced?)
    ensures var reply := Payments.Capture(w, passenger, p, order, captured, now).1;
            reply.Refused? ==>
              OnlineFault(w, passenger, p, reply.why)
              || (reply.why == PaymentFailed && p in w.payments
                  && (w.payments[p].order != Some(order) || !captured.CaptureCompleted?
                      || captured.amount != Some(Payments.Money(w.payments[p].amount, w.payments[p].currency))))
  {
  }

  lemma PayoutRefusedTruly(
      w: World, driver: Id, amount: int, hasEmail: bool, period: string, rows: seq<Id>, id: Id,
      answer: Payouts.BatchReply, now: int)
    requires Database.IsAgeListing(w, driver, rows)
    ensures var reply := Payouts.RequestPayout(w, driver, amount, hasEmail, period, rows).1;
            reply.Refused? ==>
              match reply.why
              case AmountInvalid => amount <= 0
              case AmountTooLow => 0 < amount < 500
              case AmountNotAvailable => Withdrawal.Withdraw(Payouts.AmountsOf(w.payments, rows), amount) == None
              case InvalidPaypal => !hasEmail
              case _ => false
    ensures var reply := Payouts.ExecutePayout(w, id, hasEmail, answer, now).1;
            reply.Refused? ==>
              match reply.why
              case NotFound => id !in w.payouts
              case PayoutNotPending => id in w.payouts && w.payouts[id].status != PayoutPending
              case BelowMinimum => id in w.payouts && w.payouts[id].amount < 500
              case InvalidPaypal => !hasEmail
              case PaymentFailed => answer.BatchError?
              case _ => false
  {
    hide Withdrawal.Withdraw, Payouts.WithPayout, Payouts.TakenRows, Payouts.AfterBatch;
  }
}
