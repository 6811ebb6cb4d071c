/** Whole runs: one step per call of a service method, in any order and with any arguments and replies. */
module Runs {
  import opened Wrappers
  import opened Domain
  import Database
  import Payments
  import Payouts
  import Bookings
  import Routes

  datatype Op =
    | CreateRoute(route: Routes.Request, now: int)
    | AddRouteStop(driver: Id, r: Id, place: Place)
    | UpdateSchedule(driver: Id, r: Id, departure: Option<int>, now: int)
    | StartRoute(driver: Id, r: Id, now: int)
    | CancelRoute(driver: Id, r: Id, refunds: set<Id>)
    | FinalizeRoute(driver: Id, r: Id)
    | Sweep(now: int)
    | CreateBooking(booking: Bookings.Request)
    | CancelBooking(passenger: Id, b: Id, now: int, refunded: bool)
    | CompleteBooking(driver: Id, b: Id)
    | MarkNoShow(driver: Id, b: Id, now: int)
    | VerifyOtp(driver: Id, b: Id, otp: string)
    | CreatePayment(passenger: Id, b: Id, payBy: PayMethod)
    | CreatePaypalOrder(passenger: Id, p: Id, placed: Payments.OrderReply)
    | Capture(passenger: Id, p: Id, order: string, captured: Payments.CaptureReply, now: int)
    | ReversePayment(p: Id, refunded: bool)
    | RequestPayout(driver: Id, amount: int, hasEmail: bool, period: string, rows: seq<Id>)
    | GeneratePayouts(period: string, start: int, end: int, rows: seq<Id>)
    | ExecutePayout(payout: Id, hasEmail: bool, answer: Payouts.BatchReply, now: int)
    | SyncPayouts(answers: map<Id, Payouts.BatchReply>, now: int)
    | FailPayout(payout: Id)

  /** The rows that a payout step works on are the answer of its query. */
  predicate Answers(w: World, op: Op) {
    match op
    case RequestPayout(driver, _, _, _, rows) => Database.IsAgeListing(w, driver, rows)
    case GeneratePayouts(_, start, end, rows) => IsListing(rows, Payouts.Eligible(w.payments, start, end))
    case _ => true
  }

  ghost function Trip(w: World, dist: Distance, op: Op): World {
    match op
    case CreateRoute(route, now) => Routes.CreateRoute(w, route, now).0
    case AddRouteStop(driver, r, place) => Routes.AddRouteStop(w, dist, driver, r, place).0
    case UpdateSchedule(driver, r, departure, now) => Routes.UpdateSchedule(w, driver, r, departure, now).0
    case StartRoute(driver, r, now) => Routes.StartRoute(w, driver, r, now).0
    case CancelRoute(driver, r, refunds) => Routes.CancelRoute(w, driver, r, refunds).0
    case FinalizeRoute(driver, r) => Routes.FinalizeRoute(w, driver, r).0
    case Sweep(now) => Routes.Sweep(w, now)
    case CreateBooking(booking) => Bookings.CreateBooking(w, dist, booking).0
    case CancelBooking(passenger, b, now, refunded) => Bookings.CancelBooking(w, passenger, b, now, refunded).0
    case CompleteBooking(driver, b) => Bookings.CompleteBooking(w, driver, b).0
    case MarkNoShow(driver, b, now) => Bookings.MarkNoShow(w, driver, b, now).0
    case VerifyOtp(driver, b, otp) => Bookings.VerifyOtp(w, driver, b, otp).0
    case _ => w
  }

  ghost function Money(w: World, op: Op): World
    requires Answers(w, op)
  {
    match op
    case CreatePayment(passenger, b, payBy) => Payments.CreatePayment(w, passenger, b, payBy).0
    case CreatePaypalOrder(passenger, p, placed) => Payments.CreatePaypalOrder(w, passenger, p, placed).0
    case Capture(passenger, p, order, captured, now) => Payments.Capture(w, passenger, p, order, captured, now).0
    case ReversePayment(p, refunded) => Payments.ReversePayment(w, p, refunded).0
    case RequestPayout(driver, amount, hasEmail, period, rows) =>
      Payouts.RequestPayout(w, driver, amount, hasEmail, period, rows).0
    case GeneratePayouts(period, start, end, rows) => Payouts.GeneratePayouts(w, period, start, end, rows).0
    case ExecutePayout(payout, hasEmail, answer, now) => Payouts.ExecutePayout(w, payout, hasEmail, answer, now).0
    case SyncPayouts(answers, now) => Payouts.SyncPayouts(w, answers, now)
    case FailPayout(payout) => Payouts.FailPayout(w, payout).0
    case _ => w
  }

  predicate IsTrip(op: Op) {
    op.CreateRoute? || op.AddRouteStop? || op.UpdateSchedule? || op.StartRoute? || op.CancelRoute? || op.FinalizeRoute?
    || op.Sweep? || op.CreateBooking? || op.CancelBooking? || op.CompleteBooking? || op.MarkNoShow? || op.VerifyOtp?
  }

  /** One step. Rows that no query could have returned make no step. */
  ghost function Apply(w: World, dist: Distance, op: Op): World {
    if IsTrip(op) then Trip(w, dist, op) else if Answers(w, op) then Money(w, op) else w
  }

  ghost function Run(w: World, dist: Distance, ops: seq<Op>): World {
    if ops == [] then w else Apply(Run(w, dist, ops[..|ops| - 1]), dist, ops[|ops| - 1])
  }

  /** Every state that some run of the system reaches from the empty database. */
  ghost predicate Reachable(w: World) {
    exists dist: Distance, ops: seq<Op> :: w == Run(EmptyWorld, dist, ops)
  }

  /** A longer run continues a shorter one. */
  lemma {:induction false} RunSplits(w: World, dist: Distance, a: seq<Op>, b: seq<Op>)
    ensures Run(w, dist, a + b) == Run(Run(w, dist, a), dist, b)
  {
    if b == [] {
      assert a + b == a;
    } else {
      var n := |b| - 1;
      assert (a + b)[..|a + b| - 1] == a + b[..n];
      RunSplits(w, dist, a, b[..n]);
    }
  }
}
