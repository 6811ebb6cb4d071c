/** The tables that the booking, route, payment and payout services share, as one value.
    Ids come from a counter; money is in integer cents; times are in milliseconds. */
module Domain {
  import opened Wrappers

  type Id = nat

  const MINUTE: int := 60 * 1000
  const HOUR: int := 60 * MINUTE

  datatype Place = Place(lat: real, lng: real)

  type Distance = (Place, Place) -> real

  datatype RouteState = Activa | RutaCancelada | Finalizada

  datatype Route = Route(
    driver: Id, totalSeats: int, freeSeats: int, price: int,
    state: RouteState, departure: int, startedAt: Option<int>)

  datatype Stop = Stop(route: Id, place: Place, orden: int)

  datatype BookingState = Confirmada | ReservaCancelada | NoShow | Completada

  datatype PayMethod = Efectivo | Paypal | Tarjeta

  datatype Booking = Booking(
    route: Id, passenger: Id, state: BookingState, payBy: PayMethod,
    otp: string, otpUsed: bool, pickupStop: Option<Id>)

  datatype PaymentStatus = Pending | Paid | Reversed | Failed

  datatype Payment = Payment(
    booking: Id, amount: int, currency: string, payBy: PayMethod, status: PaymentStatus,
    order: Option<string>, capture: Option<string>, payout: Option<Id>, paidAt: Option<int>)

  datatype PayoutStatus = PayoutPending | PayoutPaid | PayoutFailed

  datatype Payout = Payout(
    driver: Id, period: string, amount: int, status: PayoutStatus,
    batch: Option<string>, attempts: nat, paidAt: Option<int>)

  datatype World = World(
    routes: map<Id, Route>, stops: map<Id, Stop>, bookings: map<Id, Booking>,
    payments: map<Id, Payment>, payouts: map<Id, Payout>, nextId: Id)

  const EmptyWorld: World := World(map[], map[], map[], map[], map[], 0)

  datatype Failure =
    | NotFound | Forbidden | NotActive
    | InvalidDeparture | StopsRequired | DepartureTooSoon | DriverBlocked | NoVehicle | SeatsExceedVehicle
    | PriceRequired | RouteFull | AlreadyStarted | PassengersPending | NotFinished
    | PassengerBlocked | PassengerHasDebt | PickupInvalid | AlreadyBooked
    | OtpMissing | OtpAlreadyUsed | OtpInvalid | NoShowTooEarly
    | MethodMismatch | PaymentExists | PaymentNotPending | PaymentNotPaid | PaymentFailed
    | AmountInvalid | AmountTooLow | AmountNotAvailable | InvalidPaypal | PayoutNotPending | BelowMinimum

  datatype Reply =
    | Done | Created(id: Id) | Withdrawn(id: Id, amount: int) | Generated(count: nat) | Refused(why: Failure)

  // ---- queries ----

  /** WHERE booking.routeId = r AND booking.estado = CONFIRMADA */
  function ConfirmedOn(bookings: map<Id, Booking>, r: Id): set<Id> {
    set b | b in bookings && bookings[b].route == r && bookings[b].state == Confirmada
  }

  /** The route's bookings that hold a seat: all but the cancelled ones. */
  function SeatedOn(bookings: map<Id, Booking>, r: Id): set<Id> {
    set b | b in bookings && bookings[b].route == r && bookings[b].state != ReservaCancelada
  }

  function PaymentsOf(payments: map<Id, Payment>, booking: Id): set<Id> {
    set p | p in payments && payments[p].booking == booking
  }

  /** payment -> booking -> route -> driverId, through left joins. */
  function DriverOf(w: World, p: Id): Option<Id>
    requires p in w.payments
  {
    var b := w.payments[p].booking;
    if b in w.bookings && w.bookings[b].route in w.routes
    then Some(w.routes[w.bookings[b].route].driver) else None
  }

  /** The payment is for a ride on a route of this driver. */
  predicate RiddenWith(w: World, p: Id, driver: Id)
    requires p in w.payments
  {
    var b := w.payments[p].booking;
    b in w.bookings && w.bookings[b].route in w.routes && w.routes[w.bookings[b].route].driver == driver
  }

  /** PAID and not yet in a payout. */
  predicate Unclaimed(payment: Payment) {
    payment.status == Paid && payment.payout == None
  }

  /** The payments a driver can withdraw. */
  function AvailableTo(w: World, driver: Id): set<Id> {
    set p | p in w.payments && Unclaimed(w.payments[p]) && DriverOf(w, p) == Some(driver)
  }

  /** The rows of a query in some order: each exactly once. */
  predicate IsListing(rows: seq<Id>, ids: set<Id>) {
    (forall i :: 0 <= i < |rows| ==> rows[i] in ids)
    && (forall id :: id in ids ==> id in rows)
    && (forall i, j :: 0 <= i < j < |rows| ==> rows[i] != rows[j])
  }
}
