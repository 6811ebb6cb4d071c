/** Payments and their PayPal orders, after src/modules/payments/payments.service.ts.
    Each operation is a function of the tables, and a method that carries it out on the database. */
module Payments {
  import opened Wrappers
  import opened Domain
  import opened Database

  // ---- what PayPal answers ----

  datatype OrderReply = OrderError | OrderIncomplete | OrderPlaced(order: string)

  /** The amount of a completed capture is given in cents; None when the reply lacks amount or currency. */
  datatype CaptureReply =
    | CaptureError
    | CaptureNotCompleted
    | CaptureCompleted(amount: Option<Money>, capture: Option<string>)

  datatype Money = Money(cents: int, currency: string)

  // ---- the operations on the tables ----

  predicate Online(payBy: PayMethod) {
    payBy == Paypal || payBy == Tarjeta
  }

  function CreatePayment(w: World, passenger: Id, b: Id, payBy: PayMethod): (World, Reply) {
    if b !in w.bookings then (w, Refused(NotFound))
    else if w.bookings[b].passenger != passenger then (w, Refused(Forbidden))
    else if w.bookings[b].state != Confirmada then (w, Refused(NotActive))
    else if w.bookings[b].payBy != payBy then (w, Refused(MethodMismatch))
    else if PaymentsOf(w.payments, b) != {} then (w, Refused(PaymentExists))
    else
      var r := w.bookings[b].route;
      if r !in w.routes || w.routes[r].price <= 0 then (w, Refused(PriceRequired)) else
      var payment := Payment(b, w.routes[r].price, "USD", payBy, Pending, None, None, None, None);
      (w.(payments := w.payments[w.nextId := payment], nextId := w.nextId + 1), Created(w.nextId))
  }

  /** The payment, if the passenger may act on it online. */
  function OwnOnlinePayment(w: World, passenger: Id, p: Id): Result<Payment, Failure> {
    if p !in w.payments then Err(NotFound) else
    var b := w.payments[p].booking;
    if b !in w.bookings || w.bookings[b].passenger != passenger then Err(NotFound)
    else if !Online(w.payments[p].payBy) then Err(MethodMismatch)
    else Ok(w.payments[p])
  }

  function CreatePaypalOrder(w: World, passenger: Id, p: Id, reply: OrderReply): (World, Reply) {
    match OwnOnlinePayment(w, passenger, p)
    case Err(why) => (w, Refused(why))
    case Ok(payment) =>
      if payment.status != Pending then (w, Refused(PaymentNotPending))
      else if !reply.OrderPlaced? then (w, Refused(PaymentFailed))
      else (w.(payments := w.payments[p := payment.(order := Some(reply.order))]), Done)
  }

  /** There is no check that the payment is pending. */
  function Capture(w: World, passenger: Id, p: Id, order: string, reply: CaptureReply, now: int): (World, Reply) {
    match OwnOnlinePayment(w, passenger, p)
    case Err(why) => (w, Refused(why))
    case Ok(payment) =>
      if payment.order != Some(order) || !reply.CaptureCompleted? then (w, Refused(PaymentFailed))
      else if reply.amount != Some(Money(payment.amount, payment.currency)) then
        (w.(payments := w.payments[p := payment.(status := Failed)]), Refused(PaymentFailed))
      else
        var paid := payment.(status := Paid, paidAt := Some(now), capture := reply.capture);
        (w.(payments := w.payments[p := paid]), Done)
  }

  /** A paid payment after the attempt to give the money back: a captured one needs PayPal's consent. */
  function Refund(payment: Payment, refunded: bool): Payment {
    if Online(payment.payBy) && payment.capture.Some? && !refunded then payment.(status := Failed)
    else payment.(status := Reversed)
  }

  function ReversePayment(w: World, p: Id, refunded: bool): (World, Reply) {
    if p !in w.payments then (w, Refused(NotFound))
    else if w.payments[p].status != Paid then (w, Refused(PaymentNotPaid))
    else
      var after := Refund(w.payments[p], refunded);
      (w.(payments := w.payments[p := after]), if after.status == Reversed then Done else Refused(PaymentFailed))
  }

  // ---- when an operation is granted ----

  /** A passenger may pay for an own confirmed booking that has no payment yet, by the booked method, at the route's
      price. */
  predicate CanPay(w: World, passenger: Id, b: Id, payBy: PayMethod) {
    b in w.bookings && w.bookings[b].passenger == passenger && w.bookings[b].state == Confirmada
    && w.bookings[b].payBy == payBy && (forall p :: p in w.payments ==> w.payments[p].booking != b)
    && w.bookings[b].route in w.routes && w.routes[w.bookings[b].route].price > 0
  }

  /** The passenger's own payment by PayPal or card. */
  predicate OwnsOnline(w: World, passenger: Id, p: Id) {
    p in w.payments && w.payments[p].booking in w.bookings
    && w.bookings[w.payments[p].booking].passenger == passenger && Online(w.payments[p].payBy)
  }

  /** The passenger's payment was sent to PayPal as this order, and PayPal reports it completed. */
  predicate Settles(w: World, passenger: Id, p: Id, order: string, reply: CaptureReply) {
    OwnsOnline(w, passenger, p) && w.payments[p].order == Some(order) && reply.CaptureCompleted?
  }

  /** The money that PayPal reports is the payment's, in cents and currency. */
  predicate RightMoney(payment: Payment, reply: CaptureReply)
    requires reply.CaptureCompleted?
  {
    reply.amount.Some? && reply.amount.value.cents == payment.amount && reply.amount.value.currency == payment.currency
  }

  /** Money can be given back if none was captured, it was cash, or PayPal grants the refund. */
  predicate GivesBack(payment: Payment, refunded: bool) {
    payment.capture == None || payment.payBy == Efectivo || refunded
  }

  // ---- the service methods ----

  method CreatePaymentIn(db: Db, passenger: Id, b: Id, payBy: PayMethod) returns (reply: Reply)
    modifies db
    ensures reply.Created? <==> CanPay(old(db.Contents()), passenger, b, payBy)
    ensures reply.Created? ==>
              reply.id == old(db.nextId)
              && var price := old(db.routes)[old(db.bookings)[b].route].price;
                 var payment := Payment(b, price, "USD", payBy, Pending, None, None, None, None);
                 db.Contents() ==
                 old(db.Contents()).(payments := old(db.payments)[reply.id := payment], nextId := reply.id + 1)
    ensures reply.Refused? ==> db.Contents() == old(db.Contents())
    ensures (db.Contents(), reply) == CreatePayment(old(db.Contents()), passenger, b, payBy)
  {
    if b !in db.bookings {
      return Refused(NotFound);
    }
    var booking := db.bookings[b];
    if booking.passenger != passenger {
      return Refused(Forbidden);
    }
    if booking.state != Confirmada {
      return Refused(NotActive);
    }
    if booking.payBy != payBy {
      return Refused(MethodMismatch);
    }
    if PaymentsOf(db.payments, b) != {} {
      return Refused(PaymentExists);
    }
    assert forall p :: p in db.payments ==> p !in PaymentsOf(db.payments, b);
    if booking.route !in db.routes || db.routes[booking.route].price <= 0 {
      return Refused(PriceRequired);
    }
    var id := db.FreshId();
    var amount := db.routes[booking.route].price;
    db.payments := db.payments[id := Payment(b, amount, "USD", payBy, Pending, None, None, None, None)];
    return Created(id);
  }

  method CreatePaypalOrderIn(db: Db, passenger: Id, p: Id, order: OrderReply) returns (reply: Reply)
    modifies db
    ensures reply == Done <==>
              OwnsOnline(old(db.Contents()), passenger, p)
              && old(db.payments)[p].status == Pending && order.OrderPlaced?
    ensures reply == Done ==>
              db.Contents() == old(db.Contents()).(
                payments := old(db.payments)[p := old(db.payments)[p].(order := Some(order.order))])
    ensures reply != Done ==> reply.Refused? && db.Contents() == old(db.Contents())
    ensures (db.Contents(), reply) == CreatePaypalOrder(old(db.Contents()), passenger, p, order)
  {
    var found := OwnOnlinePayment(db.Contents(), passenger, p);
    if found.Err? {
      return Refused(found.error);
    }
    if found.value.status != Pending {
      return Refused(PaymentNotPending);
    }
    if !order.OrderPlaced? {
      return Refused(PaymentFailed);
    }
    var payment := found.value.(order := Some(order.order));
    db.payments := db.payments[p := payment];
    return Done;
  }

  method CaptureIn(db: Db, passenger: Id, p: Id, order: string, capture: CaptureReply, now: int) returns (reply: Reply)
    modifies db
    ensures var settles := Settles(old(db.Contents()), passenger, p, order, capture);
            (reply == Done <==> settles && RightMoney(old(db.payments)[p], capture))
            && (!settles ==> db.Contents() == old(db.Contents()))
            && (settles ==>
                  p in db.payments
                  && db.Contents() == old(db.Contents()).(payments := old(db.payments)[p := db.payments[p]])
                  && db.payments[p] == if reply == Done
                     then old(db.payments)[p].(status := Paid, paidAt := Some(now), capture := capture.capture)
                     else old(db.payments)[p].(status := Failed))
    ensures (db.Contents(), reply) == Capture(old(db.Contents()), passenger, p, order, capture, now)
  {
    var found := OwnOnlinePayment(db.Contents(), passenger, p);
    if found.Err? {
      return Refused(found.error);
    }
    var payment := found.value;
    if payment.order.None? || payment.order.value != order {
      return Refused(PaymentFailed);
    }
    if !capture.CaptureCompleted? {
      return Refused(PaymentFailed);
    }
    if capture.amount.None?
       || capture.amount.value.currency != payment.currency
       || capture.amount.value.cents != payment.amount
    {
      payment := payment.(status := Failed);
      db.payments := db.payments[p := payment];
      return Refused(PaymentFailed);
    }
    payment := payment.(status := Paid);
    payment := payment.(paidAt := Some(now));
    payment := payment.(capture := capture.capture);
    db.payments := db.payments[p := payment];
    return Done;
  }

  method ReversePaymentIn(db: Db, p: Id, refunded: bool) returns (reply: Reply)
    modifies db
    ensures var paid := p in old(db.payments) && old(db.payments)[p].status == Paid;
            (reply == Done <==> paid && GivesBack(old(db.payments)[p], refunded))
            && (!paid ==> db.Contents() == old(db.Contents()))
            && (paid ==>
                  db.Contents() == old(db.Contents()).(
                    payments := old(db.payments)[p := old(db.payments)[p].(
                      status := if reply == Done then Reversed else Failed)]))
    ensures (db.Contents(), reply) == ReversePayment(old(db.Contents()), p, refunded)
  {
    if p !in db.payments {
      return Refused(NotFound);
    }
    var payment := db.payments[p];
    if payment.status != Paid {
      return Refused(PaymentNotPaid);
    }
    if Online(payment.payBy) && payment.capture.Some? {
      if !refunded {
        payment := payment.(status := Failed);
        db.payments := db.payments[p := payment];
        return Refused(PaymentFailed);
      }
    }
    payment := payment.(status := Reversed);
    db.payments := db.payments[p := payment];
    return Done;
  }
}
