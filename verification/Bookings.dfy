/** Bookings, after src/modules/bookings/bookings.service.ts. */
module Bookings {
  import opened Wrappers
  import opened JsText
  import opened Domain
  import opened Database
  import opened StopPlan
  import opened StopOrder
  import Payments

  datatype Pickup = NoPickup | IncompletePickup | PickupAt(place: Place)

  function Min(x: int, y: int): int {
    if x <= y then x else y
  }

  function Max(x: int, y: int): int {
    if x >= y then x else y
  }

  // ---- the operations on the tables ----

  /** A passenger who did not show up for a ride to be paid in cash. */
  function Debts(bookings: map<Id, Booking>, passenger: Id): set<Id> {
    set b | b in bookings && bookings[b].passenger == passenger
            && bookings[b].payBy == Efectivo && bookings[b].state == NoShow
  }

  function BookedBy(bookings: map<Id, Booking>, r: Id, passenger: Id): set<Id> {
    set b | b in bookings && bookings[b].route == r && bookings[b].passenger == passenger
  }

  /** Why a route cannot be booked; that it has started is no reason. */
  function NotBookable(route: Route): Option<Failure> {
    if route.state != Activa then Some(NotActive)
    else if route.freeSeats <= 0 then Some(RouteFull)
    else if route.price <= 0 then Some(PriceRequired)
    else None
  }

  datatype Request = Request(passenger: Id, route: Id, payBy: PayMethod, pickup: Pickup, blocked: bool, otp: string)

  /** Why a booking request is turned down. */
  function BookingRefusal(w: World, q: Request): Option<Failure> {
    if q.blocked then Some(PassengerBlocked)
    else if Debts(w.bookings, q.passenger) != {} then Some(PassengerHasDebt)
    else if q.pickup.IncompletePickup? then Some(PickupInvalid)
    else if q.route !in w.routes then Some(NotFound)
    else if NotBookable(w.routes[q.route]).Some? then NotBookable(w.routes[q.route])
    else if BookedBy(w.bookings, q.route, q.passenger) != {} then Some(AlreadyBooked)
    else None
  }

  ghost function CreateBooking(w: World, dist: Distance, q: Request): (World, Reply) {
    var why := BookingRefusal(w, q);
    if why.Some? then (w, Refused(why.value)) else
    var id, stop, route := w.nextId, w.nextId + 1, w.routes[q.route];
    var booking := Booking(q.route, q.passenger, Confirmada, q.payBy, q.otp, false, None);
    var seated := w.(routes := w.routes[q.route := route.(freeSeats := Max(route.freeSeats - 1, 0))]);
    if q.pickup.PickupAt? then
      (seated.(stops := Inserted(dist, w.stops, q.route, q.pickup.place, stop),
               bookings := w.bookings[id := booking.(pickupStop := Some(stop))], nextId := stop + 1),
       Created(id))
    else
      (seated.(bookings := w.bookings[id := booking], nextId := id + 1), Created(id))
  }

  /** More than an hour before departure the money goes back. */
  predicate RefundDue(w: World, r: Id, now: int) {
    r in w.routes ==> w.routes[r].departure - now >= HOUR
  }

  function AfterCancellation(payment: Payment, due: bool, refunded: bool): Payment {
    match payment.status
    case Paid => if due then Payments.Refund(payment, refunded) else payment
    case Pending => payment.(status := Failed)
    case _ => payment
  }

  function CancelledPayments(payments: map<Id, Payment>, b: Id, due: bool, refunded: bool): map<Id, Payment> {
    map p | p in payments ::
      if payments[p].booking == b then AfterCancellation(payments[p], due, refunded) else payments[p]
  }

  function CancelBooking(w: World, passenger: Id, b: Id, now: int, refunded: bool): (World, Reply) {
    if b !in w.bookings || w.bookings[b].passenger != passenger then (w, Refused(NotFound))
    else if w.bookings[b].state != Confirmada then (w, Refused(NotActive))
    else
      var r := w.bookings[b].route;
      var due := RefundDue(w, r, now);
      (w.(bookings := w.bookings[b := w.bookings[b].(state := ReservaCancelada)],
          routes := if r in w.routes then w.routes[r := SeatBack(w.routes[r])] else w.routes,
          payments := CancelledPayments(w.payments, b, due, refunded)),
       Done)
  }

  function SeatBack(route: Route): Route {
    route.(freeSeats := Min(route.totalSeats, route.freeSeats + 1))
  }

  /** Why a driver may not close or check this booking. */
  function DriverRefusal(w: World, driver: Id, b: Id): Option<Failure> {
    if b !in w.bookings then Some(NotFound)
    else if w.bookings[b].route !in w.routes || w.routes[w.bookings[b].route].driver != driver then Some(Forbidden)
    else if w.bookings[b].state != Confirmada then Some(NotActive)
    else None
  }

  /** The route ends with its last open booking. */
  function FinalizedIfReady(w: World, r: Id): World {
    if ConfirmedOn(w.bookings, r) != {} || r !in w.routes || w.routes[r].state != Activa then w
    else w.(routes := w.routes[r := w.routes[r].(state := Finalizada)])
  }

  function CompleteBooking(w: World, driver: Id, b: Id): (World, Reply) {
    var why := DriverRefusal(w, driver, b);
    if why.Some? then (w, Refused(why.value))
    else if !w.bookings[b].otpUsed then (w, Refused(OtpMissing))
    else
      var closed := w.(bookings := w.bookings[b := w.bookings[b].(state := Completada)]);
      (FinalizedIfReady(closed, w.bookings[b].route), Done)
  }

  /** A pending payment of this booking fails. */
  function PendingFailed(payments: map<Id, Payment>, b: Id): map<Id, Payment> {
    map p | p in payments ::
      if payments[p].booking == b && payments[p].status == Pending then payments[p].(status := Failed) else payments[p]
  }

  function MarkNoShow(w: World, driver: Id, b: Id, now: int): (World, Reply) {
    var why := DriverRefusal(w, driver, b);
    if why.Some? then (w, Refused(why.value)) else
    var booking := w.bookings[b];
    if now - w.routes[booking.route].departure < 30 * MINUTE then (w, Refused(NoShowTooEarly)) else
    var closed := w.(bookings := w.bookings[b := booking.(state := NoShow)],
                     stops := if booking.pickupStop.Some? then Removed(w.stops, booking.route, booking.pickupStop.value)
                              else w.stops,
                     payments := PendingFailed(w.payments, b));
    (FinalizedIfReady(closed, booking.route), Done)
  }

  function VerifyOtp(w: World, driver: Id, b: Id, otp: string): (World, Reply) {
    var why := DriverRefusal(w, driver, b);
    if why.Some? then (w, Refused(why.value))
    else if w.bookings[b].otpUsed then (w, Refused(OtpAlreadyUsed))
    else if w.bookings[b].otp != Trim(otp) then (w, Refused(OtpInvalid))
    else (w.(bookings := w.bookings[b := w.bookings[b].(otpUsed := true)]), Done)
  }

  // ---- when an operation is granted ----

  /** The booking is confirmed, on a route of this driver. */
  predicate DriversOwn(w: World, driver: Id, b: Id) {
    b in w.bookings && w.bookings[b].state == Confirmada && w.bookings[b].route in w.routes
    && w.routes[w.bookings[b].route].driver == driver
  }

  /** A passenger who is not blocked and owes no cash ride may take a free seat of an active, priced route once. */
  ghost predicate CanBook(w: World, q: Request) {
    !q.blocked
    && (forall b :: b in w.bookings && w.bookings[b].passenger == q.passenger && w.bookings[b].state == NoShow ==>
          w.bookings[b].payBy != Efectivo)
    && !q.pickup.IncompletePickup?
    && q.route in w.routes && w.routes[q.route].state == Activa
    && w.routes[q.route].freeSeats > 0 && w.routes[q.route].price > 0
    && (forall b :: b in w.bookings && w.bookings[b].route == q.route ==> w.bookings[b].passenger != q.passenger)
  }

  /** The new booking takes one seat, has a stop of its own at the place asked for, if any, and changes nothing else. */
  ghost predicate BookedOnly(before: World, after: World, q: Request) {
    var id, stop := before.nextId, before.nextId + 1;
    q.route in before.routes
    && after.routes == before.routes[q.route :=
         before.routes[q.route].(freeSeats := before.routes[q.route].freeSeats - 1)]
    && after.bookings == before.bookings[id := Booking(
         q.route, q.passenger, Confirmada, q.payBy, q.otp, false, if q.pickup.PickupAt? then Some(stop) else None)]
    && after.payments == before.payments && after.payouts == before.payouts
    && if q.pickup.PickupAt? then
         StopAdded(before.stops, after.stops, q.route, q.pickup.place, stop) && after.nextId == stop + 1
       else after.stops == before.stops && after.nextId == id + 1
  }

  /** The booking is the passenger's own and confirmed. */
  predicate CanCancel(w: World, passenger: Id, b: Id) {
    b in w.bookings && w.bookings[b].passenger == passenger && w.bookings[b].state == Confirmada
  }

  /** What the cancellation of booking b makes of a payment: of those of the booking a pending one fails, and a paid one
      is reversed, or failed if PayPal has to consent and does not, provided the refund is due. */
  predicate Settled(before: Payment, after: Payment, b: Id, due: bool, refunded: bool) {
    after == before.(status := after.status)
    && (before.booking != b || before.status == Reversed || before.status == Failed ==> after.status == before.status)
    && (before.booking == b && before.status == Pending ==> after.status == Failed)
    && (before.booking == b && before.status == Paid ==>
          after.status == if !due then Paid else if Payments.GivesBack(before, refunded) then Reversed else Failed)
  }

  predicate CanComplete(w: World, driver: Id, b: Id) {
    DriversOwn(w, driver, b) && w.bookings[b].otpUsed
  }

  /** Half an hour after departure a passenger counts as absent. */
  predicate CanMarkNoShow(w: World, driver: Id, b: Id, now: int) {
    DriversOwn(w, driver, b) && now >= w.routes[w.bookings[b].route].departure + 30 * MINUTE
  }

  predicate CanVerify(w: World, driver: Id, b: Id, otp: string) {
    DriversOwn(w, driver, b) && !w.bookings[b].otpUsed && Trim(otp) == w.bookings[b].otp
  }

  /** The booking is absent, its pending payments have failed, its pickup stop is gone with the later stops one number
      lower, and its active route has ended if nothing else of it is confirmed; nothing else changes. */
  ghost predicate AbsentOnly(before: World, after: World, b: Id)
    requires b in before.bookings && before.bookings[b].route in before.routes
  {
    var booking := before.bookings[b];
    var r := booking.route;
    after.bookings == before.bookings[b := booking.(state := NoShow)]
    && after.payouts == before.payouts && after.nextId == before.nextId
    && after.payments.Keys == before.payments.Keys
    && (forall p :: p in before.payments ==>
          after.payments[p] == if before.payments[p].booking == b && before.payments[p].status == Pending
                               then before.payments[p].(status := Failed) else before.payments[p])
    && (if booking.pickupStop.Some? then StopTakenOut(before.stops, after.stops, r, booking.pickupStop.value)
        else after.stops == before.stops)
    && var ends := before.routes[r].state == Activa && NoneConfirmedBut(before.bookings, r, b);
       after.routes == if ends then before.routes[r := before.routes[r].(state := Finalizada)] else before.routes
  }

  /** No booking of the route is confirmed, or only `b` is. */
  ghost predicate NoneConfirmedBut(bookings: map<Id, Booking>, r: Id, b: Id) {
    forall c :: c in bookings && bookings[c].route == r && bookings[c].state == Confirmada ==> c == b
  }

  // ---- the service methods ----

  /** Puts a new stop into a route and returns its id. The moved rows are saved as one batch. */
  method InsertStopIn(db: Db, dist: Distance, r: Id, p: Place) returns (stop: Id)
    requires UniqueOrdersOn(db.stops, r) && db.nextId !in db.stops
    modifies db
    ensures stop == old(db.nextId) && StopAdded(old(db.stops), db.stops, r, p, stop)
    ensures db.Contents() == old(db.Contents()).(stops := Inserted(dist, old(db.stops), r, p, stop), nextId := stop + 1)
  {
    InsertedAdds(dist, db.stops, r, p, db.nextId);
    hide StopAdded;
    var rows := db.FindStops(r);
    ListingDetermined(db.stops, r, rows, StopListing(db.stops, r));
    var newOrder, updates := PlanStopInsertion(dist, RowsFrom(db.stops, rows), p);
    InsertionSavesAll(db.stops, r, rows, newOrder);
    SaveRows(db, updates);
    stop := db.FreshId();
    db.stops := db.stops[stop := Stop(r, p, newOrder)];
  }

  method SaveRows(db: Db, updates: seq<Row>)
    modifies db`stops
    ensures db.stops == Saved(old(db.stops), updates)
  {
    for i := 0 to |updates|
      invariant db.stops == Saved(old(db.stops), updates[..i])
    {
      assert updates[..i + 1][..i] == updates[..i];
      var u := updates[i];
      if u.id in db.stops {
        db.stops := db.stops[u.id := db.stops[u.id].(orden := u.orden)];
      }
    }
    assert updates[..|updates|] == updates;
  }

  /** Deletes a stop and closes the gap row by row; the numbers of the route stay distinct after every row. */
  method RemoveStopIn(db: Db, r: Id, stop: Id)
    requires UniqueOrdersOn(db.stops, r)
    modifies db`stops
    ensures StopTakenOut(old(db.stops), db.stops, r, stop)
    ensures db.stops == Removed(old(db.stops), r, stop)
  {
    hide StopTakenOut;
    if stop !in db.stops || db.stops[stop].route != r {
      RemovedTakesOut(db.stops, r, stop);
      return;
    }
    ghost var before := db.stops;
    var orden := db.stops[stop].orden;
    db.stops := db.stops - {stop};
    var remaining := db.FindStops(r);
    var updates := MovedDown(RowsFrom(db.stops, remaining), orden);
    ghost var left := db.stops;
    assert updates == GapRows(before, r, stop) by { GapListed(before, r, stop, remaining); }
    assert stop in StopsOn(before, r) && UniqueOrdersOn(left, r);
    assert Saved(left, updates[..0]) == left;
    hide Saved, GapRows, StopListing, RowsFrom, MovedDown, UniqueOrdersOn, Removed, StopsOn;
    for i := 0 to |updates|
      invariant db.stops == Saved(left, updates[..i])
      invariant UniqueOrdersOn(db.stops, r)
    {
      SavedNext(left, updates, i);
      RemovalRowByRow(before, r, stop, i + 1);
      var u := updates[i];
      if u.id in db.stops {
        db.stops := db.stops[u.id := db.stops[u.id].(orden := u.orden)];
      }
    }
    assert updates[..|updates|] == updates;
    RemovalSavesAll(before, r, stop);
    RemovedTakesOut(before, r, stop);
  }

  method CreateBookingIn(db: Db, dist: Distance, q: Request) returns (reply: Reply)
    requires UniqueOrdersOn(db.stops, q.route) && forall s :: s in db.stops ==> s < db.nextId
    modifies db
    ensures reply.Created? <==> CanBook(old(db.Contents()), q)
    ensures reply.Created? ==> reply.id == old(db.nextId) && BookedOnly(old(db.Contents()), db.Contents(), q)
    ensures !reply.Created? ==> reply.Refused? && db.Contents() == old(db.Contents())
    ensures (db.Contents(), reply) == CreateBooking(old(db.Contents()), dist, q)
  {
    hide CanBook, BookedOnly, UniqueOrdersOn, Debts;
    BookingDoes(db.Contents(), dist, q);
    if q.blocked {
      return Refused(PassengerBlocked);
    }
    if Debts(db.bookings, q.passenger) != {} {
      return Refused(PassengerHasDebt);
    }
    if q.pickup.IncompletePickup? {
      return Refused(PickupInvalid);
    }
    reply := BookingTransactionIn(db, dist, q);
  }

  /** The transaction, for a passenger who may book and a pickup that is complete. */
  method BookingTransactionIn(db: Db, dist: Distance, q: Request) returns (reply: Reply)
    requires UniqueOrdersOn(db.stops, q.route) && forall s :: s in db.stops ==> s < db.nextId
    requires !q.blocked && Debts(db.bookings, q.passenger) == {} && !q.pickup.IncompletePickup?
    modifies db
    ensures (db.Contents(), reply) == CreateBooking(old(db.Contents()), dist, q)
  {
    hide Inserted, UniqueOrdersOn, Debts, BookedBy;
    if q.route !in db.routes {
      return Refused(NotFound);
    }
    var route := db.routes[q.route];
    if NotBookable(route).Some? {
      return Refused(NotBookable(route).value);
    }
    if BookedBy(db.bookings, q.route, q.passenger) != {} {
      return Refused(AlreadyBooked);
    }
    var id := db.FreshId();
    var booking := Booking(q.route, q.passenger, Confirmada, q.payBy, q.otp, false, None);
    db.bookings := db.bookings[id := booking];
    route := route.(freeSeats := Max(route.freeSeats - 1, 0));
    db.routes := db.routes[q.route := route];
    if q.pickup.PickupAt? {
      var stop := InsertStopIn(db, dist, q.route, q.pickup.place);
      booking := booking.(pickupStop := Some(stop));
      db.bookings := db.bookings[id := booking];
      assert db.bookings == old(db.bookings)[id := booking];
    }
    return Created(id);
  }

  lemma BookingDoes(w: World, dist: Distance, q: Request)
    requires forall s :: s in w.stops ==> s < w.nextId
    ensures var (after, reply) := CreateBooking(w, dist, q);
            (reply.Created? <==> CanBook(w, q))
            && (reply.Created? ==> reply.id == w.nextId && BookedOnly(w, after, q))
            && (!reply.Created? ==> reply.Refused? && after == w)
  {
    BookingRefusedUnless(w, q);
    hide BookingRefusal, Inserted, StopAdded;
    if q.pickup.PickupAt? && q.route in w.routes {
      InsertedAdds(dist, w.stops, q.route, q.pickup.place, w.nextId + 1);
    }
  }

  lemma BookingRefusedUnless(w: World, q: Request)
    ensures BookingRefusal(w, q) == None <==> CanBook(w, q)
  {
    assert Debts(w.bookings, q.passenger) == {} <==>
           forall b :: b in w.bookings && w.bookings[b].passenger == q.passenger && w.bookings[b].state == NoShow ==>
                         w.bookings[b].payBy != Efectivo by {
      assert forall b :: b in Debts(w.bookings, q.passenger) <==>
                         b in w.bookings && w.bookings[b].passenger == q.passenger
                         && w.bookings[b].payBy == Efectivo && w.bookings[b].state == NoShow;
    }
    assert BookedBy(w.bookings, q.route, q.passenger) == {} <==>
           forall b :: b in w.bookings && w.bookings[b].route == q.route ==> w.bookings[b].passenger != q.passenger by {
      assert forall b :: b in BookedBy(w.bookings, q.route, q.passenger) <==>
                         b in w.bookings && w.bookings[b].route == q.route && w.bookings[b].passenger == q.passenger;
    }
    hide Debts, BookedBy;
  }

  /** Gives the money of a booking back or fails its payment. */
  method ProcessRefundIfEligibleIn(db: Db, b: Id, eligible: bool, refunded: bool)
    requires OnePaymentFor(db.payments, b)
    modifies db
    ensures db.Contents() == old(db.Contents()).(payments := CancelledPayments(old(db.payments), b, eligible, refunded))
  {
    var found := PaymentsOf(db.payments, b);
    CancelledAt(db.payments, b, eligible, refunded);
    if found != {} {
      var p :| p in found;
      var payment := db.payments[p];
      if payment.status == Paid {
        if eligible {
          var outcome := Payments.ReversePaymentIn(db, p, refunded);
        }
      } else if payment.status == Pending {
        db.payments := db.payments[p := payment.(status := Failed)];
      }
    }
  }

  method CancelBookingIn(db: Db, passenger: Id, b: Id, now: int, refunded: bool) returns (reply: Reply)
    requires OnePaymentFor(db.payments, b)
    modifies db
    ensures reply == Done <==> CanCancel(old(db.Contents()), passenger, b)
    ensures reply != Done ==> reply.Refused? && db.Contents() == old(db.Contents())
    ensures reply == Done ==> CancelledOnly(old(db.Contents()), db.Contents(), b, now, refunded)
    ensures (db.Contents(), reply) == CancelBooking(old(db.Contents()), passenger, b, now, refunded)
  {
    CancellingDoes(db.Contents(), passenger, b, now, refunded);
    hide CancelledOnly;
    if b !in db.bookings || db.bookings[b].passenger != passenger {
      return Refused(NotFound);
    }
    var booking := db.bookings[b];
    if booking.state != Confirmada {
      return Refused(NotActive);
    }
    var eligible := RefundDue(db.Contents(), booking.route, now);
    db.bookings := db.bookings[b := booking.(state := ReservaCancelada)];
    if booking.route in db.routes {
      var route := db.routes[booking.route];
      db.routes := db.routes[booking.route := route.(freeSeats := Min(route.totalSeats, route.freeSeats + 1))];
    }
    ProcessRefundIfEligibleIn(db, b, eligible, refunded);
    return Done;
  }

  /** The booking is cancelled, its route has one more free seat but never more than all, the payments of the booking
      are settled, with a refund up to an hour before departure, and no other row of any table changes. */
  ghost predicate CancelledOnly(before: World, after: World, b: Id, now: int, refunded: bool)
    requires b in before.bookings
  {
    var r := before.bookings[b].route;
    var due := r in before.routes ==> now + 60 * 60 * 1000 <= before.routes[r].departure;
    after.bookings == before.bookings[b := before.bookings[b].(state := ReservaCancelada)]
    && after.stops == before.stops && after.payouts == before.payouts && after.nextId == before.nextId
    && after.routes.Keys == before.routes.Keys && after.payments.Keys == before.payments.Keys
    && (forall id :: id in after.routes && id != r ==> after.routes[id] == before.routes[id])
    && (r in before.routes ==>
          var route := before.routes[r];
          if route.freeSeats < route.totalSeats then after.routes[r] == route.(freeSeats := route.freeSeats + 1)
          else after.routes[r] == route.(freeSeats := route.totalSeats))
    && forall p :: p in after.payments ==> Settled(before.payments[p], after.payments[p], b, due, refunded)
  }

  lemma CancellingDoes(w: World, passenger: Id, b: Id, now: int, refunded: bool)
    ensures var (after, reply) := CancelBooking(w, passenger, b, now, refunded);
            (reply == Done <==> CanCancel(w, passenger, b))
            && (reply != Done ==> reply.Refused? && after == w)
            && (reply == Done ==> CancelledOnly(w, after, b, now, refunded))
  {
  }

  ghost predicate OnePaymentFor(payments: map<Id, Payment>, b: Id) {
    forall p, q :: p in PaymentsOf(payments, b) && q in PaymentsOf(payments, b) ==> p == q
  }

  /** With one payment per booking, a cancellation changes that row or none. */
  lemma CancelledAt(payments: map<Id, Payment>, b: Id, due: bool, refunded: bool)
    requires OnePaymentFor(payments, b)
    ensures PaymentsOf(payments, b) == {} ==> CancelledPayments(payments, b, due, refunded) == payments
    ensures forall p :: p in PaymentsOf(payments, b) ==>
              var after := AfterCancellation(payments[p], due, refunded);
              CancelledPayments(payments, b, due, refunded)
              == if after == payments[p] then payments else payments[p := after]
  {
    assert forall p :: p in payments ==> (payments[p].booking == b <==> p in PaymentsOf(payments, b));
  }

  lemma PendingFailedAt(payments: map<Id, Payment>, b: Id)
    requires OnePaymentFor(payments, b)
    ensures PaymentsOf(payments, b) == {} ==> PendingFailed(payments, b) == payments
    ensures forall p :: p in PaymentsOf(payments, b) ==>
              PendingFailed(payments, b)
              == if payments[p].status == Pending then payments[p := payments[p].(status := Failed)] else payments
  {
    assert forall p :: p in payments ==> (payments[p].booking == b <==> p in PaymentsOf(payments, b));
  }

  method FinalizeIfReadyIn(db: Db, r: Id)
    modifies db`routes
    ensures db.Contents() == old(db.Contents()).(routes := db.routes) && db.routes.Keys == old(db.routes).Keys
    ensures forall x :: x in db.routes && x != r ==> db.routes[x] == old(db.routes)[x]
    ensures r in db.routes ==>
              var ready := old(db.routes)[r].state == Activa
                           && forall b ::
                               b in db.bookings && db.bookings[b].route == r ==> db.bookings[b].state != Confirmada;
              db.routes[r] == old(db.routes)[r].(state := if ready then Finalizada else old(db.routes)[r].state)
    ensures db.Contents() == FinalizedIfReady(old(db.Contents()), r)
  {
    if ConfirmedOn(db.bookings, r) != {} {
      return;
    }
    assert forall b :: b in db.bookings ==> b !in ConfirmedOn(db.bookings, r);
    if r !in db.routes || db.routes[r].state != Activa {
      return;
    }
    db.routes := db.routes[r := db.routes[r].(state := Finalizada)];
  }

  method CompleteBookingIn(db: Db, driver: Id, b: Id) returns (reply: Reply)
    modifies db
    ensures reply == Done <==> CanComplete(old(db.Contents()), driver, b)
    ensures reply != Done ==> reply.Refused? && db.Contents() == old(db.Contents())
    ensures reply == Done ==>
              db.Contents() == old(db.Contents()).(bookings := db.bookings, routes := db.routes)
              && db.bookings == old(db.bookings)[b := old(db.bookings)[b].(state := Completada)]
              && var r := old(db.bookings)[b].route;
                 var ends := old(db.routes)[r].state == Activa && NoneConfirmedBut(old(db.bookings), r, b);
                 db.routes ==
                 if ends then old(db.routes)[r := old(db.routes)[r].(state := Finalizada)] else old(db.routes)
    ensures (db.Contents(), reply) == CompleteBooking(old(db.Contents()), driver, b)
  {
    var why := DriverRefusal(db.Contents(), driver, b);
    if why.Some? {
      return Refused(why.value);
    }
    var booking := db.bookings[b];
    if !booking.otpUsed {
      return Refused(OtpMissing);
    }
    booking := booking.(state := Completada);
    ghost var before := db.bookings;
    db.bookings := db.bookings[b := booking];
    assert forall c :: c in before && c != b ==> c in db.bookings && db.bookings[c] == before[c];
    assert NoneConfirmedBut(before, booking.route, b)
      <==> forall c :: c in db.bookings && db.bookings[c].route == booking.route ==> db.bookings[c].state != Confirmada;
    FinalizeIfReadyIn(db, booking.route);
    return Done;
  }

  lemma AbsenceDoes(w: World, driver: Id, b: Id, now: int)
    ensures var (after, reply) := MarkNoShow(w, driver, b, now);
            (reply == Done <==> CanMarkNoShow(w, driver, b, now))
            && (reply == Done ==> AbsentOnly(w, after, b))
            && (reply != Done ==> reply.Refused? && after == w)
  {
    if CanMarkNoShow(w, driver, b, now) {
      var booking := w.bookings[b];
      if booking.pickupStop.Some? { RemovedTakesOut(w.stops, booking.route, booking.pickupStop.value); }
      LastConfirmed(w.bookings, b);
      hide Removed, StopTakenOut, ConfirmedOn;
    }
  }

  lemma LastConfirmed(bookings: map<Id, Booking>, b: Id)
    requires b in bookings
    ensures var r, after := bookings[b].route, bookings[b := bookings[b].(state := NoShow)];
            ConfirmedOn(after, r) == {} <==> NoneConfirmedBut(bookings, r, b)
  {
    var r, after := bookings[b].route, bookings[b := bookings[b].(state := NoShow)];
    assert forall c :: c in ConfirmedOn(after, r) <==>
                       c != b && c in bookings && bookings[c].route == r && bookings[c].state == Confirmada;
    hide ConfirmedOn;
  }

  method MarkNoShowIn(db: Db, driver: Id, b: Id, now: int) returns (reply: Reply)
    requires b in db.bookings ==> UniqueOrdersOn(db.stops, db.bookings[b].route)
    requires OnePaymentFor(db.payments, b)
    modifies db
    ensures reply == Done <==> CanMarkNoShow(old(db.Contents()), driver, b, now)
    ensures reply == Done ==> AbsentOnly(old(db.Contents()), db.Contents(), b)
    ensures reply != Done ==> reply.Refused? && db.Contents() == old(db.Contents())
    ensures (db.Contents(), reply) == MarkNoShow(old(db.Contents()), driver, b, now)
  {
    AbsenceDoes(db.Contents(), driver, b, now);
    hide AbsentOnly;
    var why := DriverRefusal(db.Contents(), driver, b);
    if why.Some? {
      return Refused(why.value);
    }
    var booking := db.bookings[b];
    if now - db.routes[booking.route].departure < 30 * MINUTE {
      return Refused(NoShowTooEarly);
    }
    booking := booking.(state := NoShow);
    db.bookings := db.bookings[b := booking];
    if booking.pickupStop.Some? {
      RemoveStopIn(db, booking.route, booking.pickupStop.value);
    }
    FinalizeIfReadyIn(db, booking.route);
    var found := PaymentsOf(db.payments, b);
    PendingFailedAt(db.payments, b);
    if found != {} {
      var p :| p in found;
      if db.payments[p].status == Pending {
        db.payments := db.payments[p := db.payments[p].(status := Failed)];
      }
    }
    return Done;
  }

  method VerifyOtpIn(db: Db, driver: Id, b: Id, otp: string) returns (reply: Reply)
    modifies db
    ensures reply == Done <==> CanVerify(old(db.Contents()), driver, b, otp)
    ensures reply != Done ==> reply.Refused? && db.Contents() == old(db.Contents())
    ensures reply == Done ==>
              db.Contents() == old(db.Contents()).(
                bookings := old(db.bookings)[b := old(db.bookings)[b].(otpUsed := true)])
    ensures (db.Contents(), reply) == VerifyOtp(old(db.Contents()), driver, b, otp)
  {
    var why := DriverRefusal(db.Contents(), driver, b);
    if why.Some? {
      return Refused(why.value);
    }
    var booking := db.bookings[b];
    if booking.otpUsed {
      return Refused(OtpAlreadyUsed);
    }
    if booking.otp != Trim(otp) {
      return Refused(OtpInvalid);
    }
    booking := booking.(otpUsed := true);
    db.bookings := db.bookings[b := booking];
    return Done;
  }
}
