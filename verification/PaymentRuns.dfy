/** Exactly which steps, of all those of the system, make a payment, give it an order, or give its money back. */
module PaymentRuns {
  import opened Wrappers
  import opened Domain
  import StopOrder
  import Payments
  import Payouts
  import Bookings
  import Routes
  import opened Runs
  import opened Evolution
  import opened TripInvariant
  import PaypalRuns
  import RouteRuns

  lemma PayingAdds(w: World, op: Op, p: Id)
    requires op.CreatePayment?
    ensures var after := Money(w, op).payments;
            (p in after && p !in w.payments
             <==> Payments.CanPay(w, op.passenger, op.b, op.payBy) && p == w.nextId && p !in w.payments)
  {
    assert PaymentsOf(w.payments, op.b) == {} <==> forall q :: q in w.payments ==> w.payments[q].booking != op.b by {
      assert forall q :: q in PaymentsOf(w.payments, op.b) <==> q in w.payments && w.payments[q].booking == op.b;
    }
    hide PaymentsOf;
  }

  /** A step of any kind adds a payment exactly when a passenger pays for an own confirmed booking without one, by the
      method and for the price of the booking; and it adds that one only. */
  lemma PaymentAppearsExactlyWhen(w: World, dist: Distance, op: Op, p: Id)
    requires KeysBelow(w) && p !in w.payments
    ensures p in Apply(w, dist, op).payments
            <==> op.CreatePayment? && Payments.CanPay(w, op.passenger, op.b, op.payBy) && p == w.nextId
  {
    if op.CreatePayment? {
      PayingAdds(w, op, p);
    } else {
      RouteRuns.OnlyPayingAddsPayments(w, dist, op);
    }
    hide Trip, Money, KeysBelow, Payments.CanPay;
  }

  /** Its order id changes exactly when PayPal places an order for the pending payment at its passenger's request. */
  lemma OrderChangesExactlyWhen(w: World, dist: Distance, op: Op, p: Id)
    requires KeysBelow(w) && p in w.payments
    ensures var after := Apply(w, dist, op).payments;
            p in after
            && after[p].order == if Orders(w, op, p) then Some(op.placed.order) else w.payments[p].order
  {
    if PaypalRuns.PlacesOrder(w, op) {
      PaypalRuns.PlacedOrder(w, dist, op);
    } else if PaypalRuns.Completes(w, op) {
      PaypalRuns.CompletedCapture(w, dist, op);
    } else {
      PaypalRuns.QuietStepIsCalm(w, dist, op);
    }
    hide Apply, KeysBelow;
  }

  predicate Orders(w: World, op: Op, p: Id) {
    op.CreatePaypalOrder? && op.p == p && op.placed.OrderPlaced?
    && Payments.OwnsOnline(w, op.passenger, p) && w.payments[p].status == Pending
  }

  // ---- giving money back ----

  /** The step asks for the payment's money back: by itself, for its cancelled booking in time, or for its cancelled
      route. `granted` is PayPal's answer. */
  predicate AsksBack(w: World, op: Op, p: Id, granted: bool)
    requires p in w.payments
  {
    var b := w.payments[p].booking;
    (op.ReversePayment? && op.p == p && granted == op.refunded)
    || (op.CancelBooking? && op.b == b && b in w.bookings && w.bookings[b].state == Confirmada
        && w.bookings[b].passenger == op.passenger && Bookings.RefundDue(w, w.bookings[b].route, op.now)
        && granted == op.refunded)
    || (op.CancelRoute? && Routes.OwnsActive(w, op.driver, op.r) && b in w.bookings && w.bookings[b].route == op.r
        && granted == (p in op.refunds))
  }

  predicate GivesBack(w: World, op: Op, p: Id)
    requires p in w.payments
  {
    w.payments[p].status == Paid
    && ((AsksBack(w, op, p, true) && Payments.GivesBack(w.payments[p], true))
        || (AsksBack(w, op, p, false) && Payments.GivesBack(w.payments[p], false)))
  }

  lemma BookingGivesBack(w: World, dist: Distance, op: Op, p: Id)
    requires p in w.payments && w.payments[p].status != Reversed && op.CancelBooking?
    ensures var after := Trip(w, dist, op).payments;
            p in after && (after[p].status == Reversed <==> GivesBack(w, op, p))
  {
    hide Bookings.RefundDue;
  }

  lemma RouteGivesBack(w: World, dist: Distance, op: Op, p: Id)
    requires p in w.payments && w.payments[p].status != Reversed && op.CancelRoute?
    ensures var after := Trip(w, dist, op).payments;
            p in after && (after[p].status == Reversed <==> GivesBack(w, op, p))
  {
    hide Routes.CancelledBookings;
  }

  lemma ReversalGivesBack(w: World, op: Op, p: Id)
    requires p in w.payments && w.payments[p].status != Reversed && op.ReversePayment?
    ensures var after := Money(w, op).payments;
            p in after && (after[p].status == Reversed <==> GivesBack(w, op, p))
  {
  }

  lemma OthersGiveNothingBack(w: World, dist: Distance, op: Op, p: Id)
    requires KeysBelow(w) && p in w.payments && w.payments[p].status != Reversed
    requires !op.CancelBooking? && !op.CancelRoute? && !op.ReversePayment?
    ensures var after := Apply(w, dist, op).payments; p in after && after[p].status != Reversed
  {
    if PaypalRuns.Completes(w, op) {
      PaypalRuns.CompletedCapture(w, dist, op);
      hide Apply;
    } else if op.MarkNoShow? {
      hide StopOrder.Removed, ConfirmedOn, Bookings.DriverRefusal;
    } else if IsTrip(op) {
      PaypalRuns.OtherTripIsCalm(w, dist, op);
      hide Trip;
    } else if PaypalRuns.PlacesOrder(w, op) {
      PaypalRuns.PlacedOrder(w, dist, op);
      hide Apply;
    } else if Answers(w, op) {
      MoneyReversesNothing(w, op, p);
      hide Money;
    }
  }

  lemma MoneyReversesNothing(w: World, op: Op, p: Id)
    requires KeysBelow(w) && p in w.payments && w.payments[p].status != Reversed && Answers(w, op)
    requires !IsTrip(op) && !op.ReversePayment? && !PaypalRuns.Completes(w, op) && !PaypalRuns.PlacesOrder(w, op)
    ensures p in Money(w, op).payments && Money(w, op).payments[p].status != Reversed
  {
    if op.GeneratePayouts? {
      Payouts.DriversDistinct(w, op.rows);
      Payouts.PaymentLinked(w, w, op.rows, op.period, Payouts.DriversOf(w, op.rows), p);
      hide Payouts.CreatePayouts, Payouts.DriversOf, Payouts.IndexIn, Payouts.NoRepeats;
    } else if op.RequestPayout? {
      hide Payouts.AmountsOf, Payouts.TakenRows;
    } else if op.CreatePayment? || op.Capture? || op.CreatePaypalOrder? {
      hide PaymentsOf;
    }
  }

  /** A step of any kind turns a payment to reversed exactly when it was paid, its money is asked back, and PayPal
      grants that or need not be asked. */
  lemma ReversedExactlyWhen(w: World, dist: Distance, op: Op, p: Id)
    requires KeysBelow(w) && p in w.payments && w.payments[p].status != Reversed
    ensures var after := Apply(w, dist, op).payments;
            p in after && (after[p].status == Reversed <==> GivesBack(w, op, p))
  {
    if op.CancelBooking? {
      BookingGivesBack(w, dist, op, p);
    } else if op.CancelRoute? {
      RouteGivesBack(w, dist, op, p);
    } else if op.ReversePayment? {
      ReversalGivesBack(w, op, p);
    } else {
      OthersGiveNothingBack(w, dist, op, p);
      hide Apply;
    }
    hide Trip, Money, KeysBelow;
  }

  // ---- cash ----

  /** A payment in cash has no order, and only waits or has failed. */
  predicate CashIsOpenOrFailed(payment: Payment) {
    payment.payBy == Efectivo ==>
      payment.order == None && (payment.status == Pending || payment.status == Failed)
  }

  lemma NewPaymentIsOpen(w: World, dist: Distance, op: Op, p: Id)
    requires KeysBelow(w) && p in Apply(w, dist, op).payments && p !in w.payments
    ensures var payment := Apply(w, dist, op).payments[p]; payment.status == Pending && payment.order == None
  {
    if PaypalRuns.PlacesOrder(w, op) {
      PaypalRuns.PlacedOrder(w, dist, op);
      assert false;
    } else if PaypalRuns.Completes(w, op) {
      PaypalRuns.CompletedCapture(w, dist, op);
      assert false;
    } else {
      PaypalRuns.QuietStepIsCalm(w, dist, op);
    }
    hide Apply, KeysBelow;
  }

  lemma CashStep(w: World, dist: Distance, op: Op, p: Id)
    requires KeysBelow(w) && p in w.payments && CashIsOpenOrFailed(w.payments[p])
    ensures p in Apply(w, dist, op).payments && CashIsOpenOrFailed(Apply(w, dist, op).payments[p])
  {
    hide Apply, KeysBelow, RoutesEvolve, BookingsEvolve, PayoutsEvolve;
    StepEvolves(w, dist, op);
    if w.payments[p].payBy == Efectivo {
      OrderChangesExactlyWhen(w, dist, op, p);
      PaypalRuns.PaidExactlyWhenReceived(w, dist, op, p);
      ReversedExactlyWhen(w, dist, op, p);
    }
  }

  /** In no run does a payment in cash get an order, or become paid or reversed: no step records that the driver got
      the money. */
  lemma {:induction false} CashIsNeverPaid(dist: Distance, ops: seq<Op>, p: Id)
    requires p in Run(EmptyWorld, dist, ops).payments
    ensures CashIsOpenOrFailed(Run(EmptyWorld, dist, ops).payments[p])
    decreases |ops|
  {
    var n := |ops| - 1;
    if ops != [] {
      ReachedKeys(dist, ops[..n]);
      hide Apply, KeysBelow, CashIsOpenOrFailed;
      if p in Run(EmptyWorld, dist, ops[..n]).payments {
        CashIsNeverPaid(dist, ops[..n], p);
        CashStep(Run(EmptyWorld, dist, ops[..n]), dist, ops[n], p);
      } else {
        NewPaymentIsOpen(Run(EmptyWorld, dist, ops[..n]), dist, ops[n], p);
        OpenCash(Run(EmptyWorld, dist, ops), p);
      }
    }
  }

  lemma OpenCash(w: World, p: Id)
    requires p in w.payments && w.payments[p].status == Pending && w.payments[p].order == None
    ensures CashIsOpenOrFailed(w.payments[p])
  {
  }
}
