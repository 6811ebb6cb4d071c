/** Routes, after src/modules/routes/routes.service.ts. */
module Routes {
  import opened Wrappers
  import opened Domain
  import opened Database
  import opened StopOrder
  import Payments
  import Bookings

  // ---- the operations on the tables ----

  /** A route as its driver asks for it; vehicleSeats is None without an active vehicle. */
  datatype Request = Request(
    driver: Id, departure: Option<int>, places: seq<Place>, seats: nat, vehicleSeats: Option<int>,
    price: int, blocked: bool)

  function RouteRefusal(q: Request, now: int): Option<Failure> {
    if q.departure == None then Some(InvalidDeparture)
    else if |q.places| < 2 then Some(StopsRequired)
    else if q.departure.value < now + 15 * MINUTE then Some(DepartureTooSoon)
    else if q.blocked then Some(DriverBlocked)
    else if q.vehicleSeats == None then Some(NoVehicle)
    else if q.seats > q.vehicleSeats.value then Some(SeatsExceedVehicle)
    else if q.price <= 0 then Some(PriceRequired)
    else None
  }

  /** The table with the route's stops added, numbered 1, 2, ... and with consecutive ids from `first` on. */
  function WithStops(stops: map<Id, Stop>, r: Id, places: seq<Place>, first: Id): map<Id, Stop> {
    if places == [] then stops else
    var n := |places|;
    WithStops(stops, r, places[..n - 1], first)[first + n - 1 := Stop(r, places[n - 1], n)]
  }

  function CreateRoute(w: World, q: Request, now: int): (World, Reply) {
    var why := RouteRefusal(q, now);
    if why.Some? then (w, Refused(why.value)) else
    var r := w.nextId;
    var route := Route(q.driver, q.seats, q.seats, q.price, Activa, q.departure.value, None);
    (w.(routes := w.routes[r := route],
        stops := WithStops(w.stops, r, q.places, r + 1),
        nextId := r + 1 + |q.places|),
     Created(r))
  }

  /** Why a driver may not change this route. */
  function OwnerRefusal(w: World, driver: Id, r: Id): Option<Failure> {
    if r !in w.routes || w.routes[r].driver != driver then Some(NotFound)
    else if w.routes[r].state != Activa then Some(NotActive)
    else None
  }

  ghost function AddRouteStop(w: World, dist: Distance, driver: Id, r: Id, p: Place): (World, Reply) {
    var why := OwnerRefusal(w, driver, r);
    if why.Some? then (w, Refused(why.value))
    else (w.(stops := Inserted(dist, w.stops, r, p, w.nextId), nextId := w.nextId + 1), Done)
  }

  function UpdateSchedule(w: World, driver: Id, r: Id, departure: Option<int>, now: int): (World, Reply) {
    var why := OwnerRefusal(w, driver, r);
    if why.Some? then (w, Refused(why.value))
    else if w.routes[r].startedAt.Some? then (w, Refused(AlreadyStarted))
    else if departure == None then (w, Refused(InvalidDeparture))
    else if departure.value < now + 15 * MINUTE then (w, Refused(DepartureTooSoon))
    else (w.(routes := w.routes[r := w.routes[r].(departure := departure.value)]), Done)
  }

  /** Confirmed passengers whose code was not yet checked. */
  function Unverified(bookings: map<Id, Booking>, r: Id): set<Id> {
    set b | b in bookings && bookings[b].route == r && bookings[b].state == Confirmada && !bookings[b].otpUsed
  }

  function StartRoute(w: World, driver: Id, r: Id, now: int): (World, Reply) {
    var why := OwnerRefusal(w, driver, r);
    if why.Some? then (w, Refused(why.value))
    else if w.routes[r].startedAt.Some? then (w, Refused(AlreadyStarted))
    else if Unverified(w.bookings, r) != {} then (w, Refused(PassengersPending))
    else (w.(routes := w.routes[r := w.routes[r].(startedAt := Some(now))]), Done)
  }

  predicate OnRoute(w: World, p: Id, r: Id)
    requires p in w.payments
  {
    w.payments[p].booking in w.bookings && w.bookings[w.payments[p].booking].route == r
  }

  /** A payment of a cancelled route: refunded if paid, failed if pending. */
  function AfterRouteCancelled(payment: Payment, refunded: bool): Payment {
    match payment.status
    case Paid => Payments.Refund(payment, refunded)
    case Pending => payment.(status := Failed)
    case _ => payment
  }

  /** `refunded` holds the payments whose refund PayPal grants. The seats are not given back. */
  function CancelRoute(w: World, driver: Id, r: Id, refunded: set<Id>): (World, Reply) {
    var why := OwnerRefusal(w, driver, r);
    if why.Some? then (w, Refused(why.value))
    else
      (w.(routes := w.routes[r := w.routes[r].(state := RutaCancelada)],
          bookings := CancelledBookings(w.bookings, r),
          payments := PaymentsCancelled(w.payments, OpenPayments(w, r), refunded)),
       Done)
  }

  /** The paid and pending payments of a route. */
  function OpenPayments(w: World, r: Id): set<Id> {
    set p | p in w.payments && OnRoute(w, p, r) && (w.payments[p].status == Paid || w.payments[p].status == Pending)
  }

  function PaymentsCancelled(payments: map<Id, Payment>, open: set<Id>, refunded: set<Id>): map<Id, Payment> {
    map p | p in payments :: if p in open then AfterRouteCancelled(payments[p], p in refunded) else payments[p]
  }

  function CancelledBookings(bookings: map<Id, Booking>, r: Id): map<Id, Booking> {
    map b | b in bookings ::
      if bookings[b].route == r && bookings[b].state == Confirmada then bookings[b].(state := ReservaCancelada)
      else bookings[b]
  }

  /** A route that is already final may be finalized again. */
  function FinalizeRoute(w: World, driver: Id, r: Id): (World, Reply) {
    if r !in w.routes || w.routes[r].driver != driver then (w, Refused(NotFound))
    else if w.routes[r].state == RutaCancelada then (w, Refused(NotActive))
    else if ConfirmedOn(w.bookings, r) != {} then (w, Refused(NotFinished))
    else (w.(routes := w.routes[r := w.routes[r].(state := Finalizada)]), Done)
  }

  /** What the five-minute sweep does to one route. */
  function Swept(bookings: map<Id, Booking>, r: Id, route: Route, now: int): Route {
    if route.state != Activa || route.departure > now || ConfirmedOn(bookings, r) != {} then route
    else route.(state := Finalizada)
  }

  function Sweep(w: World, now: int): World {
    w.(routes := map r | r in w.routes :: Swept(w.bookings, r, w.routes[r], now))
  }

  // ---- when an operation is granted ----

  /** A departure at least a quarter of an hour ahead, two stops or more, a driver who is not blocked, a vehicle with
      that many seats, and a price. */
  predicate CanPublish(q: Request, now: int) {
    q.departure.Some? && q.departure.value >= now + 15 * MINUTE && |q.places| >= 2 && !q.blocked
    && q.vehicleSeats.Some? && q.seats <= q.vehicleSeats.value && q.price > 0
  }

  /** There is a new active route with all seats free, its stops are numbered 1, 2, ... in the order asked for, and all
      other rows are the same. */
  ghost predicate PublishedOnly(before: World, after: World, q: Request)
    requires q.departure.Some?
  {
    var r := before.nextId;
    after.routes == before.routes[r := Route(q.driver, q.seats, q.seats, q.price, Activa, q.departure.value, None)]
    && after.bookings == before.bookings && after.payments == before.payments && after.payouts == before.payouts
    && after.nextId == r + 1 + |q.places|
    && (forall s :: s in after.stops <==> s in before.stops || r < s < after.nextId)
    && (forall s :: s in before.stops && !(r < s < after.nextId) ==> after.stops[s] == before.stops[s])
    && (forall i :: 0 <= i < |q.places| ==> after.stops[r + 1 + i] == Stop(r, q.places[i], i + 1))
  }

  /** The route and its confirmed bookings are cancelled, seats are kept, of its payments the pending ones fail and the
      paid ones are reversed, or fail if PayPal has to consent and does not; no other row changes. */
  ghost predicate CancelledRouteOnly(before: World, after: World, r: Id, refunded: set<Id>)
    requires r in before.routes
  {
    after.routes == before.routes[r := before.routes[r].(state := RutaCancelada)]
    && after.stops == before.stops && after.payouts == before.payouts && after.nextId == before.nextId
    && after.bookings.Keys == before.bookings.Keys && after.payments.Keys == before.payments.Keys
    && (forall b :: b in before.bookings ==>
          after.bookings[b] == if before.bookings[b].route == r && before.bookings[b].state == Confirmada
                               then before.bookings[b].(state := ReservaCancelada) else before.bookings[b])
    && (forall p :: p in before.payments ==>
          var payment := before.payments[p];
          var ofRoute := payment.booking in before.bookings && before.bookings[payment.booking].route == r;
          var consent := payment.capture == None || payment.payBy == Efectivo || p in refunded;
          after.payments[p] ==
          if ofRoute && payment.status == Pending then payment.(status := Failed)
          else if ofRoute && payment.status == Paid then payment.(status := if consent then Reversed else Failed)
          else payment)
  }

  predicate OwnsActive(w: World, driver: Id, r: Id) {
    r in w.routes && w.routes[r].driver == driver && w.routes[r].state == Activa
  }

  /** A departure at least a quarter of an hour ahead, for a route that has not started. */
  predicate CanReschedule(w: World, driver: Id, r: Id, departure: Option<int>, now: int) {
    OwnsActive(w, driver, r) && w.routes[r].startedAt == None
    && departure.Some? && departure.value >= now + 15 * MINUTE
  }

  /** Every confirmed passenger's code was checked. */
  predicate CanStart(w: World, driver: Id, r: Id) {
    OwnsActive(w, driver, r) && w.routes[r].startedAt == None
    && forall b ::
        b in w.bookings && w.bookings[b].route == r && w.bookings[b].state == Confirmada ==> w.bookings[b].otpUsed
  }

  predicate CanFinalize(w: World, driver: Id, r: Id) {
    r in w.routes && w.routes[r].driver == driver && w.routes[r].state != RutaCancelada
    && forall b :: b in w.bookings && w.bookings[b].route == r ==> w.bookings[b].state != Confirmada
  }

  // ---- the service methods ----

  method CreateRouteIn(db: Db, q: Request, now: int) returns (reply: Reply)
    modifies db
    ensures reply.Created? <==> CanPublish(q, now)
    ensures reply.Created? ==> reply.id == old(db.nextId) && PublishedOnly(old(db.Contents()), db.Contents(), q)
    ensures !reply.Created? ==> reply.Refused? && db.Contents() == old(db.Contents())
    ensures (db.Contents(), reply) == CreateRoute(old(db.Contents()), q, now)
  {
    PublishingDoes(db.Contents(), q, now);
    hide PublishedOnly;
    if q.departure == None {
      return Refused(InvalidDeparture);
    }
    if |q.places| < 2 {
      return Refused(StopsRequired);
    }
    if q.departure.value < now + 15 * MINUTE {
      return Refused(DepartureTooSoon);
    }
    if q.blocked {
      return Refused(DriverBlocked);
    }
    if q.vehicleSeats == None {
      return Refused(NoVehicle);
    }
    if q.seats > q.vehicleSeats.value {
      return Refused(SeatsExceedVehicle);
    }
    if q.price <= 0 {
      return Refused(PriceRequired);
    }
    var r := db.FreshId();
    db.routes := db.routes[r := Route(q.driver, q.seats, q.seats, q.price, Activa, q.departure.value, None)];
    AddStopsIn(db, r, q.places);
    return Created(r);
  }

  lemma {:induction false} StopsWritten(stops: map<Id, Stop>, r: Id, places: seq<Place>, first: Id)
    ensures var after := WithStops(stops, r, places, first);
            (forall s :: s in after <==> s in stops || first <= s < first + |places|)
            && (forall s :: s in stops && !(first <= s < first + |places|) ==> after[s] == stops[s])
            && (forall i :: 0 <= i < |places| ==> after[first + i] == Stop(r, places[i], i + 1))
  {
    if places != [] { StopsWritten(stops, r, places[..|places| - 1], first); }
  }

  lemma PublishingDoes(w: World, q: Request, now: int)
    ensures var (after, reply) := CreateRoute(w, q, now);
            (reply.Created? <==> CanPublish(q, now))
            && (reply.Created? ==> reply.id == w.nextId && PublishedOnly(w, after, q))
            && (!reply.Created? ==> reply.Refused? && after == w)
  {
    StopsWritten(w.stops, w.nextId, q.places, w.nextId + 1);
    hide WithStops;
  }

  method AddStopsIn(db: Db, r: Id, places: seq<Place>)
    modifies db`stops, db`nextId
    ensures db.stops == WithStops(old(db.stops), r, places, old(db.nextId))
    ensures db.nextId == old(db.nextId) + |places|
  {
    for i := 0 to |places|
      invariant db.nextId == old(db.nextId) + i
      invariant db.stops == WithStops(old(db.stops), r, places[..i], old(db.nextId))
    {
      assert places[..i + 1][..i] == places[..i];
      var stop := db.FreshId();
      db.stops := db.stops[stop := Stop(r, places[i], i + 1)];
    }
    assert places[..|places|] == places;
  }

  method AddRouteStopIn(db: Db, dist: Distance, driver: Id, r: Id, p: Place) returns (reply: Reply)
    requires UniqueOrdersOn(db.stops, r) && db.nextId !in db.stops
    modifies db
    ensures reply == Done <==> OwnsActive(old(db.Contents()), driver, r)
    ensures reply != Done ==> reply.Refused? && db.Contents() == old(db.Contents())
    ensures reply == Done ==>
              db.Contents() == old(db.Contents()).(stops := db.stops, nextId := old(db.nextId) + 1)
              && StopAdded(old(db.stops), db.stops, r, p, old(db.nextId))
    ensures (db.Contents(), reply) == AddRouteStop(old(db.Contents()), dist, driver, r, p)
  {
    InsertedAdds(dist, db.stops, r, p, db.nextId);
    hide Inserted, StopAdded;
    var why := OwnerRefusal(db.Contents(), driver, r);
    if why.Some? {
      return Refused(why.value);
    }
    var stop := Bookings.InsertStopIn(db, dist, r, p);
    return Done;
  }

  method UpdateScheduleIn(db: Db, driver: Id, r: Id, departure: Option<int>, now: int) returns (reply: Reply)
    modifies db
    ensures reply == Done <==> CanReschedule(old(db.Contents()), driver, r, departure, now)
    ensures reply != Done ==> reply.Refused? && db.Contents() == old(db.Contents())
    ensures reply == Done ==>
              db.Contents() == old(db.Contents()).(
                routes := old(db.routes)[r := old(db.routes)[r].(departure := departure.value)])
    ensures (db.Contents(), reply) == UpdateSchedule(old(db.Contents()), driver, r, departure, now)
  {
    var why := OwnerRefusal(db.Contents(), driver, r);
    if why.Some? {
      return Refused(why.value);
    }
    var route := db.routes[r];
    if route.startedAt.Some? {
      return Refused(AlreadyStarted);
    }
    if departure == None {
      return Refused(InvalidDeparture);
    }
    if departure.value < now + 15 * MINUTE {
      return Refused(DepartureTooSoon);
    }
    db.routes := db.routes[r := route.(departure := departure.value)];
    return Done;
  }

  method StartRouteIn(db: Db, driver: Id, r: Id, now: int) returns (reply: Reply)
    modifies db
    ensures reply == Done <==> CanStart(old(db.Contents()), driver, r)
    ensures reply != Done ==> reply.Refused? && db.Contents() == old(db.Contents())
    ensures reply == Done ==>
              db.Contents() == old(db.Contents()).(
                routes := old(db.routes)[r := old(db.routes)[r].(startedAt := Some(now))])
    ensures (db.Contents(), reply) == StartRoute(old(db.Contents()), driver, r, now)
  {
    var why := OwnerRefusal(db.Contents(), driver, r);
    if why.Some? {
      return Refused(why.value);
    }
    var route := db.routes[r];
    if route.startedAt.Some? {
      return Refused(AlreadyStarted);
    }
    if Unverified(db.bookings, r) != {} {
      return Refused(PassengersPending);
    }
    assert forall b :: b in db.bookings ==> b !in Unverified(db.bookings, r);
    db.routes := db.routes[r := route.(startedAt := Some(now))];
    return Done;
  }

  method CancelRouteIn(db: Db, driver: Id, r: Id, refunded: set<Id>) returns (reply: Reply)
    modifies db
    ensures reply == Done <==> OwnsActive(old(db.Contents()), driver, r)
    ensures reply != Done ==> reply.Refused? && db.Contents() == old(db.Contents())
    ensures reply == Done ==> CancelledRouteOnly(old(db.Contents()), db.Contents(), r, refunded)
    ensures (db.Contents(), reply) == CancelRoute(old(db.Contents()), driver, r, refunded)
  {
    CancellingRouteDoes(db.Contents(), driver, r, refunded);
    hide CancelledRouteOnly;
    var why := OwnerRefusal(db.Contents(), driver, r);
    if why.Some? {
      return Refused(why.value);
    }
    db.routes := db.routes[r := db.routes[r].(state := RutaCancelada)];
    db.bookings := CancelledBookings(db.bookings, r);
    var open := OpenPayments(db.Contents(), r);
    assert open == OpenPayments(old(db.Contents()), r);
    CancelPaymentsIn(db, open, refunded);
    return Done;
  }

  lemma CancellingRouteDoes(w: World, driver: Id, r: Id, refunded: set<Id>)
    ensures var (after, reply) := CancelRoute(w, driver, r, refunded);
            (reply == Done <==> OwnsActive(w, driver, r))
            && (reply == Done ==> CancelledRouteOnly(w, after, r, refunded))
            && (reply != Done ==> reply.Refused? && after == w)
  {
  }

  method CancelPaymentsIn(db: Db, open: set<Id>, refunded: set<Id>)
    requires open <= db.payments.Keys
    modifies db
    ensures db.Contents() == old(db.Contents()).(payments := PaymentsCancelled(old(db.payments), open, refunded))
  {
    ghost var before := db.payments;
    var left := open;
    while left != {}
      invariant left <= open && db.payments.Keys == before.Keys
      invariant db.Contents() == old(db.Contents()).(payments := db.payments)
      invariant forall p :: p in before ==>
                  db.payments[p] ==
                  if p in open - left then AfterRouteCancelled(before[p], p in refunded) else before[p]
    {
      var p :| p in left;
      var payment := db.payments[p];
      if payment.status == Paid {
        var outcome := Payments.ReversePaymentIn(db, p, p in refunded);
        if outcome.Refused? {
          db.payments := db.payments[p := payment.(status := Failed)];
        }
      } else if payment.status == Pending {
        db.payments := db.payments[p := payment.(status := Failed)];
      }
      left := left - {p};
    }
  }

  method FinalizeRouteIn(db: Db, driver: Id, r: Id) returns (reply: Reply)
    modifies db
    ensures reply == Done <==> CanFinalize(old(db.Contents()), driver, r)
    ensures reply != Done ==> reply.Refused? && db.Contents() == old(db.Contents())
    ensures reply == Done ==>
              db.Contents() == old(db.Contents()).(
                routes := old(db.routes)[r := old(db.routes)[r].(state := Finalizada)])
    ensures (db.Contents(), reply) == FinalizeRoute(old(db.Contents()), driver, r)
  {
    if r !in db.routes || db.routes[r].driver != driver {
      return Refused(NotFound);
    }
    if db.routes[r].state == RutaCancelada {
      return Refused(NotActive);
    }
    if ConfirmedOn(db.bookings, r) != {} {
      return Refused(NotFinished);
    }
    assert forall b :: b in db.bookings ==> b !in ConfirmedOn(db.bookings, r);
    db.routes := db.routes[r := db.routes[r].(state := Finalizada)];
    return Done;
  }

  lemma SweptRows(w: World, now: int)
    ensures forall r :: r in w.routes ==>
              var route := w.routes[r];
              var over := route.state == Activa && route.departure <= now
                          && forall b :: b in w.bookings && w.bookings[b].route == r ==>
                                           w.bookings[b].state != Confirmada;
              Swept(w.bookings, r, route, now) == if over then route.(state := Finalizada) else route
  {
    forall r | r in w.routes
      ensures ConfirmedOn(w.bookings, r) == {}
              <==> forall b :: b in w.bookings && w.bookings[b].route == r ==> w.bookings[b].state != Confirmada
    {
      assert forall b :: b in ConfirmedOn(w.bookings, r) <==>
                         b in w.bookings && w.bookings[b].route == r && w.bookings[b].state == Confirmada;
      hide ConfirmedOn;
    }
    hide ConfirmedOn;
  }

  method SweepIn(db: Db, now: int)
    modifies db
    ensures db.Contents() == old(db.Contents()).(routes := db.routes) && db.routes.Keys == old(db.routes).Keys
    ensures forall r :: r in db.routes ==>
              var route := old(db.routes)[r];
              var over := route.state == Activa && route.departure <= now
                          && forall b :: b in db.bookings && db.bookings[b].route == r ==>
                                           db.bookings[b].state != Confirmada;
              db.routes[r] == if over then route.(state := Finalizada) else route
    ensures db.Contents() == Sweep(old(db.Contents()), now)
  {
    ghost var w := db.Contents();
    SweptRows(w, now);
    var active := set r | r in db.routes && db.routes[r].state == Activa;
    var left := active;
    while left != {}
      invariant left <= active
      invariant db.Contents() == w.(routes := db.routes) && db.routes.Keys == w.routes.Keys
      invariant forall r :: r in w.routes ==>
                  db.routes[r] == if r in active - left then Swept(w.bookings, r, w.routes[r], now) else w.routes[r]
    {
      var r :| r in left;
      left := left - {r};
      var route := db.routes[r];
      if route.departure > now {
        continue;
      }
      if ConfirmedOn(db.bookings, r) != {} {
        continue;
      }
      db.routes := db.routes[r := route.(state := Finalizada)];
    }
  }
}
