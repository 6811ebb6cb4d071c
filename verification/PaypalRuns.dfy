/** Runs of the system together with PayPal, which never hands out an order id twice and never reports
    the same order completed twice. */
module PaypalRuns {
  import opened Wrappers
  import opened Domain
  import StopOrder
  import Payments
  import Payouts
  import Withdrawal
  import Bookings
  import Routes
  import opened Runs
  import opened Evolution
  import Ledger

  /** The tables, the order ids that PayPal has handed out, and those it has reported completed. */
  datatype System = System(world: World, issued: set<string>, completed: set<string>)

  const Start: System := System(EmptyWorld, {}, {})

  /** Whether the step sends a request to PayPal that places an order. */
  predicate PlacesOrder(w: World, op: Op) {
    op.CreatePaypalOrder? && Payments.OwnOnlinePayment(w, op.passenger, op.p).Ok?
    && w.payments[op.p].status == Pending && op.placed.OrderPlaced?
  }

  /** Whether the step sends a capture request to PayPal that is reported completed. */
  predicate Completes(w: World, op: Op) {
    op.Capture? && Payments.OwnOnlinePayment(w, op.passenger, op.p).Ok?
    && w.payments[op.p].order == Some(op.order) && op.captured.CaptureCompleted?
  }

  /** What PayPal guarantees. */
  predicate Honest(s: System, op: Op) {
    (PlacesOrder(s.world, op) ==> op.placed.order !in s.issued)
    && (Completes(s.world, op) ==> op.order !in s.completed)
  }

  ghost function Step(s: System, dist: Distance, op: Op): System {
    System(Apply(s.world, dist, op),
           if PlacesOrder(s.world, op) then s.issued + {op.placed.order} else s.issued,
           if Completes(s.world, op) then s.completed + {op.order} else s.completed)
  }

  ghost function Run(dist: Distance, ops: seq<Op>): System {
    if ops == [] then Start else Step(Run(dist, ops[..|ops| - 1]), dist, ops[|ops| - 1])
  }

  ghost predicate HonestRun(dist: Distance, ops: seq<Op>) {
    forall i :: 0 <= i < |ops| ==> Honest(Run(dist, ops[..i]), ops[i])
  }

  /** The money of payment p arrives: it is set to paid. */
  predicate Receives(w: World, op: Op, p: Id) {
    Completes(w, op) && op.p == p
    && op.captured.amount == Some(Payments.Money(w.payments[p].amount, w.payments[p].currency))
  }

  /** How often the money of payment p has arrived. */
  ghost function Receipts(dist: Distance, ops: seq<Op>, p: Id): nat {
    if ops == [] then 0 else
    var before := ops[..|ops| - 1];
    Receipts(dist, before, p) + if Receives(Run(dist, before).world, ops[|ops| - 1], p) then 1 else 0
  }

  // ---- one payment ----

  /** What holds of a payment, given the orders issued and completed and how often its money arrived. */
  ghost predicate PaymentTracked(s: System, p: Id, receipts: nat)
    requires p in s.world.payments
  {
    var payment := s.world.payments[p];
    (payment.order.Some? ==> payment.order.value in s.issued)
    && (payment.status == Paid || payment.status == Reversed || receipts > 0 ==>
          payment.order.Some? && payment.order.value in s.completed)
    && (payment.order.Some? && payment.order.value in s.completed ==> payment.status != Pending)
    && receipts <= 1
    && (payment.status == Paid || payment.status == Reversed ==> receipts == 1)
  }

  /** What holds of all payments, where got(p) says how often the money of p arrived. */
  ghost predicate Tracked(s: System, got: Id -> nat) {
    s.completed <= s.issued
    && (forall p :: p in s.world.payments ==> PaymentTracked(s, p, got(p)))
    && (forall p, q :: p in s.world.payments && q in s.world.payments && p != q && s.world.payments[p].order.Some?
                       ==> s.world.payments[p].order != s.world.payments[q].order)
    && (forall p :: p !in s.world.payments ==> got(p) == 0)
  }

  /** A step that is neither an order nor a capture leaves order ids alone, pays nothing and never touches
      a payment that was reversed. */
  ghost predicate Calm(before: Payment, after: Payment) {
    after.order == before.order
    && (after.status == Paid || after.status == Reversed ==> before.status == Paid || after.status == before.status)
    && (before.status == Reversed ==> after.status == Reversed)
    && (before.status != Pending ==> after.status != Pending)
  }

  ghost predicate AllCalm(before: World, after: World) {
    (forall p :: p in before.payments ==> p in after.payments && Calm(before.payments[p], after.payments[p]))
    && (forall p :: p in after.payments && p !in before.payments ==>
          after.payments[p].status == Pending && after.payments[p].order == None)
  }

  lemma CancellingIsCalm(w: World, dist: Distance, op: Op)
    requires op.CancelRoute? || op.CancelBooking?
    ensures AllCalm(w, Trip(w, dist, op))
  {
    hide Routes.CancelledBookings, Bookings.SeatBack, Bookings.RefundDue, Routes.OnRoute;
  }

  lemma NoShowIsCalm(w: World, dist: Distance, op: Op)
    requires op.MarkNoShow?
    ensures AllCalm(w, Trip(w, dist, op))
  {
    hide StopOrder.Removed, ConfirmedOn;
  }

  lemma OtherTripIsCalm(w: World, dist: Distance, op: Op)
    requires IsTrip(op) && !op.CancelRoute? && !op.CancelBooking? && !op.MarkNoShow?
    ensures Trip(w, dist, op).payments == w.payments
  {
    hide StopOrder.Inserted, Routes.WithStops, Routes.RouteRefusal, ConfirmedOn, Routes.Unverified,
      Bookings.BookingRefusal;
  }

  lemma LinkingIsCalm(w: World, payout: Payout, taken: set<Id>)
    ensures AllCalm(w, Payouts.WithPayout(w, payout, taken))
  {
  }

  lemma GeneratingIsCalm(w: World, rows: seq<Id>, period: string)
    requires forall i :: 0 <= i < |rows| ==> rows[i] in w.payments
    ensures AllCalm(w, Payouts.CreatePayouts(w, w, rows, period, Payouts.DriversOf(w, rows)))
  {
    hide Payouts.CreatePayouts, Payouts.DriversOf, Payouts.GroupTotal, DriverOf, Payouts.IndexIn, Payouts.NoRepeats;
    var drivers := Payouts.DriversOf(w, rows);
    Payouts.NoPaymentAppears(w, w, rows, period, drivers);
    Payouts.DriversDistinct(w, rows);
    forall p | p in w.payments
      ensures Calm(w.payments[p], Payouts.CreatePayouts(w, w, rows, period, drivers).payments[p])
    {
      Payouts.PaymentLinked(w, w, rows, period, drivers, p);
    }
  }

  lemma PayoutIsCalm(w: World, op: Op)
    requires op.RequestPayout? || op.GeneratePayouts? || op.ExecutePayout? || op.SyncPayouts? || op.FailPayout?
    requires Answers(w, op)
    ensures AllCalm(w, Money(w, op))
  {
    hide AllCalm, Payouts.RequestPayout, Payouts.CreatePayouts, Payouts.DriversOf, Payouts.WithPayout;
    if op.GeneratePayouts? {
      GeneratingIsCalm(w, op.rows, op.period);
    } else if op.RequestPayout? {
      Ledger.RequestOutcome(w, op.driver, op.amount, op.hasEmail, op.period, op.rows);
      var taken := Withdrawal.Withdraw(Payouts.AmountsOf(w.payments, op.rows), op.amount);
      if taken.Some? {
        LinkingIsCalm(w, Payout(op.driver, op.period, taken.value.total, PayoutPending, None, 0, None),
                      Payouts.TakenRows(op.rows, taken.value.chosen));
      }
      SamePaymentsAreCalm(w, w);
    } else {
      SamePaymentsAreCalm(w, Money(w, op));
    }
  }

  lemma SamePaymentsAreCalm(before: World, after: World)
    requires after.payments == before.payments
    ensures AllCalm(before, after)
  {
  }

  lemma PaymentIsCalm(w: World, op: Op)
    requires KeysBelow(w) && (op.CreatePayment? || op.ReversePayment?)
    ensures AllCalm(w, Money(w, op))
  {
  }

  /** Every step but a placed order and a completed capture is calm. */
  lemma QuietStepIsCalm(w: World, dist: Distance, op: Op)
    requires KeysBelow(w) && !PlacesOrder(w, op) && !Completes(w, op)
    ensures AllCalm(w, Apply(w, dist, op))
  {
    hide AllCalm, KeysBelow, Trip, Answers;
    SamePaymentsAreCalm(w, w);
    if op.CancelRoute? || op.CancelBooking? {
      CancellingIsCalm(w, dist, op);
    } else if op.MarkNoShow? {
      NoShowIsCalm(w, dist, op);
    } else if IsTrip(op) {
      OtherTripIsCalm(w, dist, op);
      SamePaymentsAreCalm(w, Trip(w, dist, op));
    } else if Answers(w, op) {
      if op.CreatePayment? || op.ReversePayment? {
        PaymentIsCalm(w, op);
      } else if !op.CreatePaypalOrder? && !op.Capture? {
        PayoutIsCalm(w, op);
      } else {
        assert Money(w, op) == w;
      }
    }
  }

  lemma ReceiptsGrow(dist: Distance, ops: seq<Op>, p: Id)
    requires ops != []
    ensures var n := |ops| - 1;
            Receipts(dist, ops, p)
            == Receipts(dist, ops[..n], p) + if Receives(Run(dist, ops[..n]).world, ops[n], p) then 1 else 0
  {
  }

  lemma QuietTracked(s: System, after: World, got: Id -> nat)
    requires Tracked(s, got) && AllCalm(s.world, after)
    ensures Tracked(System(after, s.issued, s.completed), got)
  {
  }

  /** A completed capture pays the payment when the money is right and fails it when it is not, whatever its status. */
  lemma CompletedCapture(w: World, dist: Distance, op: Op)
    requires Completes(w, op)
    ensures var after := Apply(w, dist, op);
            op.p in w.payments && w.payments[op.p].order == Some(op.order)
            && op.p in after.payments && after == w.(payments := w.payments[op.p := after.payments[op.p]])
            && after.payments[op.p].order == w.payments[op.p].order
            && after.payments[op.p].status == if Receives(w, op, op.p) then Paid else Failed
  {
  }

  lemma CaptureTracked(s: System, p: Id, order: string, y: Payment, got: Id -> nat, gotThen: Id -> nat)
    requires Tracked(s, got) && p in s.world.payments
    requires s.world.payments[p].order == Some(order) == y.order && order !in s.completed
    requires y.status == Paid || y.status == Failed
    requires forall q :: gotThen(q) == got(q) + if q == p && y.status == Paid then 1 else 0
    ensures Tracked(System(s.world.(payments := s.world.payments[p := y]), s.issued, s.completed + {order}), gotThen)
  {
    var after := System(s.world.(payments := s.world.payments[p := y]), s.issued, s.completed + {order});
    forall q | q in after.world.payments
      ensures PaymentTracked(after, q, gotThen(q))
    {
      assert PaymentTracked(s, q, got(q));
      assert q != p && s.world.payments[q].order.Some? ==> s.world.payments[q].order != Some(order);
    }
  }

  lemma CaptureIsNoOrder(w: World, op: Op)
    requires op.Capture?
    ensures !PlacesOrder(w, op)
  {
  }

  lemma OrderTracked(s: System, p: Id, order: string, got: Id -> nat)
    requires Tracked(s, got) && p in s.world.payments && s.world.payments[p].status == Pending && order !in s.issued
    ensures Tracked(System(s.world.(payments := s.world.payments[p := s.world.payments[p].(order := Some(order))]),
                           s.issued + {order}, s.completed), got)
  {
    var y := s.world.payments[p].(order := Some(order));
    var after := System(s.world.(payments := s.world.payments[p := y]), s.issued + {order}, s.completed);
    forall q | q in after.world.payments
      ensures PaymentTracked(after, q, got(q))
    {
      assert PaymentTracked(s, q, got(q));
    }
  }

  /** One step with an honest PayPal. */
  lemma StepTracked(s: System, dist: Distance, op: Op, got: Id -> nat, gotThen: Id -> nat)
    requires Tracked(s, got) && KeysBelow(s.world) && Honest(s, op)
    requires forall p :: gotThen(p) == got(p) + if Receives(s.world, op, p) then 1 else 0
    ensures Tracked(Step(s, dist, op), gotThen)
  {
    hide Tracked, KeysBelow, Apply;
    if Completes(s.world, op) {
      CompletedCapture(s.world, dist, op);
      CaptureIsNoOrder(s.world, op);
      CaptureTracked(s, op.p, op.order, Apply(s.world, dist, op).payments[op.p], got, gotThen);
    } else {
      SameReceipts(s, got, gotThen);
      if PlacesOrder(s.world, op) {
        PlacedOrder(s.world, dist, op);
        OrderTracked(s, op.p, op.placed.order, gotThen);
      } else {
        QuietStepIsCalm(s.world, dist, op);
        QuietTracked(s, Apply(s.world, dist, op), gotThen);
      }
    }
  }

  lemma SameReceipts(s: System, got: Id -> nat, gotThen: Id -> nat)
    requires Tracked(s, got) && forall p :: gotThen(p) == got(p)
    ensures Tracked(s, gotThen)
  {
  }

  ghost function AllReceipts(dist: Distance, ops: seq<Op>): Id -> nat {
    (p: Id) => Receipts(dist, ops, p)
  }

  /** With an honest PayPal every payment stays tracked over every run. */
  lemma {:induction false} AlwaysTracked(dist: Distance, ops: seq<Op>)
    requires HonestRun(dist, ops)
    ensures Tracked(Run(dist, ops), AllReceipts(dist, ops)) && KeysBelow(Run(dist, ops).world)
    decreases |ops|
  {
    if ops != [] {
      var n := |ops| - 1;
      var init, op := ops[..n], ops[n];
      HonestPrefix(dist, ops);
      assert Honest(Run(dist, ops[..n]), ops[n]);
      AlwaysTracked(dist, init);
      var s := Run(dist, init);
      forall p
        ensures AllReceipts(dist, ops)(p) == AllReceipts(dist, init)(p) + if Receives(s.world, op, p) then 1 else 0
      {
        ReceiptsGrow(dist, ops, p);
      }
      hide Tracked, Honest, KeysBelow, Evolves, HonestRun, Receipts, Receives, Apply;
      StepEvolves(s.world, dist, op);
      StepTracked(s, dist, op, AllReceipts(dist, init), AllReceipts(dist, ops));
    }
  }

  lemma HonestLast(dist: Distance, ops: seq<Op>)
    requires ops != [] && HonestRun(dist, ops)
    ensures Honest(Run(dist, ops[..|ops| - 1]), ops[|ops| - 1])
  {
    hide Honest, Run;
  }

  lemma HonestPrefix(dist: Distance, ops: seq<Op>)
    requires ops != [] && HonestRun(dist, ops)
    ensures HonestRun(dist, ops[..|ops| - 1])
  {
    var init := ops[..|ops| - 1];
    forall i | 0 <= i < |init|
      ensures Honest(Run(dist, init[..i]), init[i])
    {
      assert init[..i] == ops[..i];
    }
  }

  // ---- the life of a payment ----

  /** The money of a payment arrives at most once, and only a payment whose money arrived is paid or reversed. */
  lemma PaidAtMostOnce(dist: Distance, ops: seq<Op>, p: Id)
    requires HonestRun(dist, ops)
    ensures Receipts(dist, ops, p) <= 1
    ensures var payments := Run(dist, ops).world.payments;
            p in payments && (payments[p].status == Paid || payments[p].status == Reversed) ==>
              Receipts(dist, ops, p) == 1
  {
    AlwaysTracked(dist, ops);
    hide Run, Receipts, HonestRun, KeysBelow;
    assert AllReceipts(dist, ops)(p) == Receipts(dist, ops, p);
    assert p in Run(dist, ops).world.payments ==> PaymentTracked(Run(dist, ops), p, AllReceipts(dist, ops)(p));
  }

  /** A step turns a payment to paid exactly when PayPal reports its order completed for exactly its amount and
      currency. */
  lemma PaidExactlyWhenReceived(w: World, dist: Distance, op: Op, p: Id)
    requires KeysBelow(w) && p in w.payments && w.payments[p].status != Paid
    ensures p in Apply(w, dist, op).payments
    ensures Apply(w, dist, op).payments[p].status == Paid <==> Receives(w, op, p)
  {
    if Completes(w, op) {
      CompletedCapture(w, dist, op);
    } else {
      hide Apply, KeysBelow;
      if PlacesOrder(w, op) {
        PlacedOrder(w, dist, op);
      } else {
        QuietStepIsCalm(w, dist, op);
      }
    }
  }

  lemma PlacedOrder(w: World, dist: Distance, op: Op)
    requires PlacesOrder(w, op)
    ensures Apply(w, dist, op) == w.(payments := w.payments[op.p := w.payments[op.p].(order := Some(op.placed.order))])
  {
  }

  lemma ReversedStep(s: System, dist: Distance, op: Op, p: Id, receipts: nat)
    requires KeysBelow(s.world) && Honest(s, op)
    requires p in s.world.payments && PaymentTracked(s, p, receipts) && s.world.payments[p].status == Reversed
    ensures p in Apply(s.world, dist, op).payments && Apply(s.world, dist, op).payments[p].status == Reversed
  {
    hide Apply, KeysBelow;
    if Completes(s.world, op) {
      CompletedCapture(s.world, dist, op);
    } else if PlacesOrder(s.world, op) {
      PlacedOrder(s.world, dist, op);
    } else {
      QuietStepIsCalm(s.world, dist, op);
    }
  }

  /** With an honest PayPal a payment that was reversed at any time is reversed ever after. */
  lemma {:induction false} ReversedForever(dist: Distance, ops: seq<Op>, i: nat, p: Id)
    requires HonestRun(dist, ops) && i <= |ops|
    requires var past := Run(dist, ops[..i]).world;
             p in past.payments && past.payments[p].status == Reversed
    ensures var now := Run(dist, ops).world;
            p in now.payments && now.payments[p].status == Reversed
    decreases |ops|
  {
    hide Apply, KeysBelow, Receipts, HonestRun, Honest, PaymentTracked;
    if i == |ops| {
      assert ops[..i] == ops;
    } else {
      var n := |ops| - 1;
      var init := ops[..n];
      HonestPrefix(dist, ops);
      HonestLast(dist, ops);
      assert init[..i] == ops[..i];
      ReversedForever(dist, init, i, p);
      AlwaysTracked(dist, init);
      assert PaymentTracked(Run(dist, init), p, AllReceipts(dist, init)(p));
      ReversedStep(Run(dist, init), dist, ops[n], p, AllReceipts(dist, init)(p));
    }
  }

  // ---- which settled payments an honest PayPal can still pay ----

  /** The payment was sent to PayPal as an order. */
  predicate HasOrder(payment: Payment) {
    payment.order.Some? && Payments.Online(payment.payBy)
  }

  /** The capture that pays this payment. */
  function PayingCapture(w: World, p: Id): Op
    requires p in w.payments && w.payments[p].order.Some? && w.payments[p].booking in w.bookings
  {
    var payment := w.payments[p];
    Capture(w.bookings[payment.booking].passenger, p, payment.order.value,
            Payments.CaptureCompleted(Some(Payments.Money(payment.amount, payment.currency)), None), 0)
  }

  /** The payment has an order that PayPal has not reported completed. */
  ghost predicate OrderIsOpen(s: System, p: Id)
    requires p in s.world.payments
  {
    HasOrder(s.world.payments[p]) && s.world.payments[p].order.value !in s.completed
  }

  ghost predicate Settled(s: System, p: Id) {
    p in s.world.payments && s.world.payments[p].status != Pending && s.world.payments[p].status != Paid
  }

  ghost predicate PaidLater(dist: Distance, ops: seq<Op>, more: seq<Op>, p: Id) {
    var payments := Run(dist, ops + more).world.payments;
    HonestRun(dist, ops + more) && p in payments && payments[p].status == Paid
  }

  /** Nothing pays a settled payment without open order, and it stays that. */
  lemma ClosedOrderStep(s: System, dist: Distance, op: Op, p: Id)
    requires KeysBelow(s.world) && Honest(s, op) && Settled(s, p) && !OrderIsOpen(s, p)
    ensures Settled(Step(s, dist, op), p) && !OrderIsOpen(Step(s, dist, op), p)
  {
    StepEvolves(s.world, dist, op);
    PaidExactlyWhenReceived(s.world, dist, op, p);
    hide Apply, KeysBelow, RoutesEvolve, BookingsEvolve, PayoutsEvolve;
  }

  lemma {:induction false} ClosedOrderStays(dist: Distance, ops: seq<Op>, more: seq<Op>, p: Id)
    requires HonestRun(dist, ops + more) && Settled(Run(dist, ops), p) && !OrderIsOpen(Run(dist, ops), p)
    ensures Settled(Run(dist, ops + more), p) && !OrderIsOpen(Run(dist, ops + more), p)
    decreases |more|
  {
    hide Honest, HonestRun, Tracked, KeysBelow, Settled, OrderIsOpen, Step;
    if more == [] {
      assert ops + more == ops;
    } else {
      var n := |more| - 1;
      var init, all := ops + more[..n], ops + more;
      assert all[..|all| - 1] == init && all[|all| - 1] == more[n];
      HonestPrefix(dist, all);
      HonestLast(dist, all);
      ClosedOrderStays(dist, ops, more[..n], p);
      AlwaysTracked(dist, init);
      ClosedOrderStep(Run(dist, init), dist, more[n], p);
    }
  }

  /** A run that is honest up to its last step, which is honest too. */
  lemma HonestLonger(dist: Distance, ops: seq<Op>, op: Op)
    requires HonestRun(dist, ops) && Honest(Run(dist, ops), op)
    ensures HonestRun(dist, ops + [op])
  {
    hide Honest, Run;
    var all := ops + [op];
    forall i | 0 <= i < |all| ensures Honest(Run(dist, all[..i]), all[i]) {
      if i < |ops| { assert all[..i] == ops[..i] && all[i] == ops[i]; } else { assert all[..i] == ops; }
    }
  }

  lemma PayingCaptureReceives(s: System, p: Id)
    requires p in s.world.payments && OrderIsOpen(s, p) && s.world.payments[p].booking in s.world.bookings
    ensures Honest(s, PayingCapture(s.world, p)) && Receives(s.world, PayingCapture(s.world, p), p)
  {
  }

  lemma OpenOrderPays(dist: Distance, ops: seq<Op>, p: Id)
    requires HonestRun(dist, ops) && KeysBelow(Run(dist, ops).world)
    requires var s := Run(dist, ops);
             Settled(s, p) && OrderIsOpen(s, p) && s.world.payments[p].booking in s.world.bookings
    ensures exists more :: PaidLater(dist, ops, more, p)
  {
    hide Apply, KeysBelow, Honest, Receives, HonestRun, OrderIsOpen;
    var s := Run(dist, ops);
    assert HasOrder(s.world.payments[p]) by { OpenHasOrder(s, p); }
    var op := PayingCapture(s.world, p);
    PayingCaptureReceives(s, p);
    PaidExactlyWhenReceived(s.world, dist, op, p);
    HonestLonger(dist, ops, op);
    assert (ops + [op])[..|ops|] == ops;
    assert PaidLater(dist, ops, [op], p);
  }

  lemma OpenHasOrder(s: System, p: Id)
    requires p in s.world.payments && OrderIsOpen(s, p)
    ensures HasOrder(s.world.payments[p])
  {
  }

  /** With an honest PayPal a settled payment is paid in some continuation exactly when its order is still open. */
  lemma PaidLaterExactlyWhen(dist: Distance, ops: seq<Op>, p: Id)
    requires HonestRun(dist, ops)
    requires var s := Run(dist, ops); Settled(s, p) && s.world.payments[p].booking in s.world.bookings
    ensures (exists more :: PaidLater(dist, ops, more, p)) <==> OrderIsOpen(Run(dist, ops), p)
  {
    AlwaysTracked(dist, ops);
    hide Run, HonestRun, KeysBelow, Tracked;
    if OrderIsOpen(Run(dist, ops), p) {
      OpenOrderPays(dist, ops, p);
    } else if more: seq<Op> :| PaidLater(dist, ops, more, p) {
      ClosedOrderStays(dist, ops, more, p);
      assert false;
    }
  }
}
