/** Concrete runs that end where one would not expect: money lost from a payout, stranded in one, asked for or received
    twice, a paid payout that fails, a cancelled route with a missing seat and a ride paid after it, and a started route
    with an unchecked passenger. */
module Stories {
  import opened Wrappers
  import opened Domain
  import opened Sums
  import Database
  import Payments
  import Payouts
  import Bookings
  import Routes
  import Withdrawal
  import opened Runs
  import opened Ledger
  import opened LedgerRuns
  import opened Conservation
  import PayoutRuns
  import PaypalRuns
  import RouteRuns
  import BookingRuns

  const MIDNIGHT := 0

  function Places(): seq<Place> { [Place(0.0, 0.0), Place(0.0, 1.0)] }

  /** A route with one seat for ten dollars, booked, paid through PayPal, and withdrawn by its driver. */
  function Story(): seq<Op> {
    [CreateRoute(Routes.Request(1, Some(HOUR), Places(), 1, Some(1), 1000, false), MIDNIGHT),
     CreateBooking(Bookings.Request(2, 0, Paypal, Bookings.NoPickup, false, "123456")),
     CreatePayment(2, 3, Paypal),
     CreatePaypalOrder(2, 4, Payments.OrderPlaced("order")),
     Capture(2, 4, "order", Payments.CaptureCompleted(Some(Payments.Money(1000, "USD")), Some("capture")), MIDNIGHT),
     RequestPayout(1, 1000, true, "2026-01", [4])]
  }

  function RouteAfter(free: int): Route { Route(1, 1, free, 1000, Activa, HOUR, None) }

  function BookingAfter(): Booking { Booking(0, 2, Confirmada, Paypal, "123456", false, None) }

  function Stops(): map<Id, Stop> { Routes.WithStops(map[], 0, Places(), 1) }

  function PaymentAfter(
      status: PaymentStatus, order: Option<string>, capture: Option<string>, payout: Option<Id>): Payment {
    Payment(3, 1000, "USD", Paypal, status, order, capture, payout, if capture.Some? then Some(MIDNIGHT) else None)
  }

  function Stage(payments: map<Id, Payment>, payouts: map<Id, Payout>, next: Id): World {
    World(map[0 := RouteAfter(0)], Stops(), map[3 := BookingAfter()], payments, payouts, next)
  }

  function Withdrawn(): World {
    Stage(map[4 := PaymentAfter(Paid, Some("order"), Some("capture"), Some(5))],
          map[5 := Payout(1, "2026-01", 1000, PayoutPending, None, 0, None)], 6)
  }

  lemma NextStep(dist: Distance, ops: seq<Op>, op: Op)
    ensures Run(EmptyWorld, dist, ops + [op]) == Apply(Run(EmptyWorld, dist, ops), dist, op)
  {
    assert (ops + [op])[..|ops|] == ops;
  }

  function RouteStage(): World {
    World(map[0 := RouteAfter(1)], Stops(), map[], map[], map[], 3)
  }

  lemma RouteMade(dist: Distance)
    ensures Apply(EmptyWorld, dist, Story()[0]) == RouteStage()
  {
    var q := Routes.Request(1, Some(HOUR), Places(), 1, Some(1), 1000, false);
    assert Story()[0] == CreateRoute(q, MIDNIGHT);
    hide Routes.WithStops, Story;
    assert Routes.RouteRefusal(q, MIDNIGHT) == None && |q.places| == 2;
    assert Routes.CreateRoute(EmptyWorld, q, MIDNIGHT).0 == RouteStage();
  }

  lemma RideBooked(dist: Distance)
    ensures Apply(RouteStage(), dist, Story()[1]) == BookedStage()
  {
    var w, q := RouteStage(), Bookings.Request(2, 0, Paypal, Bookings.NoPickup, false, "123456");
    assert Story()[1] == CreateBooking(q);
    hide Routes.WithStops, Story;
    assert Bookings.Debts(w.bookings, 2) == {} && Bookings.BookedBy(w.bookings, 0, 2) == {};
    assert Bookings.BookingRefusal(w, q) == None;
    hide Bookings.BookingRefusal;
    assert Bookings.CreateBooking(w, dist, q).0 == BookedStage();
  }

  lemma Booked(dist: Distance)
    ensures Run(EmptyWorld, dist, Story()[..2]) == BookedStage()
  {
    var story := Story();
    assert Run(EmptyWorld, dist, []) == EmptyWorld;
    RouteMade(dist);
    RideBooked(dist);
    NextStep(dist, [], story[0]);
    NextStep(dist, story[..1], story[1]);
    assert story[..1] == [] + [story[0]] && story[..2] == story[..1] + [story[1]];
    hide Run, Apply, Story, RouteStage, BookedStage;
  }

  function BookedStage(): World { Stage(map[], map[], 4) }

  function PendingStage(): World { Stage(map[4 := PaymentAfter(Pending, None, None, None)], map[], 5) }

  function OrderedStage(): World { Stage(map[4 := PaymentAfter(Pending, Some("order"), None, None)], map[], 5) }

  lemma Ordered(dist: Distance)
    ensures Run(EmptyWorld, dist, Story()[..4]) == OrderedStage()
  {
    var story := Story();
    Booked(dist);
    NextStep(dist, story[..2], story[2]);
    NextStep(dist, story[..3], story[3]);
    assert story[..3] == story[..2] + [story[2]] && story[..4] == story[..3] + [story[3]];
    PaymentMade(dist);
    PaymentOrdered(dist);
    hide Run, Apply, Story, Stage;
  }

  lemma PaidFor(dist: Distance)
    ensures Run(EmptyWorld, dist, Story()[..5]) == PaidStage()
  {
    hide Run, Apply, Stage;
    var story := Story();
    Ordered(dist);
    NextStep(dist, story[..4], story[4]);
    assert story[..5] == story[..4] + [story[4]];
    PaymentCaptured(dist);
  }

  lemma PaymentMade(dist: Distance)
    ensures Apply(BookedStage(), dist, Story()[2]) == PendingStage()
  {
    PaymentSteps(BookedStage(), dist);
    hide Apply, Story, Routes.WithStops;
    assert PaymentsOf(map[], 3) == {};
  }

  lemma PaymentOrdered(dist: Distance)
    ensures Apply(PendingStage(), dist, Story()[3]) == OrderedStage()
  {
    PaymentSteps(PendingStage(), dist);
    hide Apply, Routes.WithStops;
  }

  lemma PaymentCaptured(dist: Distance)
    ensures Apply(OrderedStage(), dist, Story()[4]) == PaidStage()
  {
    PaymentSteps(OrderedStage(), dist);
    hide Apply, Routes.WithStops;
  }

  /** What three steps of the story do in any state. */
  lemma PaymentSteps(w: World, dist: Distance)
    ensures Apply(w, dist, Story()[2]) == Payments.CreatePayment(w, 2, 3, Paypal).0
    ensures Apply(w, dist, Story()[3]) == Payments.CreatePaypalOrder(w, 2, 4, Story()[3].placed).0
    ensures Apply(w, dist, Story()[4]) == Payments.Capture(w, 2, 4, "order", Story()[4].captured, MIDNIGHT).0
  {
    hide Payments.CreatePayment, Payments.CreatePaypalOrder, Payments.Capture, Places;
  }

  function PaidStage(): World {
    Stage(map[4 := PaymentAfter(Paid, Some("order"), Some("capture"), None)], map[], 5)
  }

  lemma StoryEnds(dist: Distance)
    ensures Run(EmptyWorld, dist, Story()) == Withdrawn()
  {
    var story, paid := Story(), PaidStage();
    PaidFor(dist);
    NextStep(dist, story[..5], story[5]);
    assert story == story[..5] + [story[5]];
    WithdrawalStep(dist);
    hide Run, Apply, Routes.WithStops, PaidStage, Withdrawn;
  }

  lemma WithdrawalStep(dist: Distance)
    ensures Apply(PaidStage(), dist, Story()[5]) == Withdrawn()
  {
    var paid := PaidStage();
    hide Routes.WithStops;
    assert AvailableTo(paid, 1) == {4};
    assert Database.IsAgeListing(paid, 1, [4]);
    WithdrawalTaken();
    assert Payouts.AmountsOf(paid.payments, [4]) == [1000];
    var rows: seq<Id>, chosen: seq<nat> := [4], [0];
    assert Payouts.TakenRows(rows, chosen) == {4} by {
      assert chosen[0] == 0 && rows[chosen[0]] in Payouts.TakenRows(rows, chosen);
    }
    assert Payouts.Linked(paid.payments, {4}, 5) == Withdrawn().payments;
    hide Withdrawal.Withdraw;
    assert Payouts.RequestPayout(paid, 1, 1000, true, "2026-01", [4]).0 == Withdrawn();
  }

  lemma WithdrawalTaken()
    ensures Withdrawal.Withdraw([1000], 1000) == Some(Withdrawal.Selection([0], 1000))
  {
    assert Withdrawal.Sum([1000]) == 1000 by { assert [1000][..0] == []; }
  }

  lemma WorthOfOne(w: World, ids: set<Id>, p: Id)
    requires ids == {p} && p in w.payments
    ensures Worth(w.payments, ids) == w.payments[p].amount
  {
    SumTakeOut(AmountIn(w.payments), ids, p);
    assert ids - {p} == {};
  }

  function Refunded(): World {
    Withdrawn().(payments := map[4 := PaymentAfter(Reversed, Some("order"), Some("capture"), Some(5))])
  }

  function PayoutFailedStage(): World {
    Withdrawn().(payouts := map[5 := Payout(1, "2026-01", 1000, PayoutFailed, None, 1, None)])
  }

  lemma RefundStep(dist: Distance)
    ensures Apply(Withdrawn(), dist, ReversePayment(4, true)) == Refunded()
  {
    hide Routes.WithStops;
    assert Payments.ReversePayment(Withdrawn(), 4, true).0 == Refunded();
  }

  lemma FailureStep(dist: Distance)
    ensures Apply(Withdrawn(), dist, FailPayout(5)) == PayoutFailedStage()
  {
    hide Routes.WithStops;
    assert Payouts.FailPayout(Withdrawn(), 5).0 == PayoutFailedStage();
  }

  lemma RefundReached(dist: Distance)
    ensures Run(EmptyWorld, dist, Story() + [ReversePayment(4, true)]) == Refunded() && Reachable(Refunded())
  {
    StoryEnds(dist);
    RefundStep(dist);
    NextStep(dist, Story(), ReversePayment(4, true));
    hide Run, Apply, Story, Withdrawn, Refunded;
  }

  lemma FailureReached(dist: Distance)
    ensures Run(EmptyWorld, dist, Story() + [FailPayout(5)]) == PayoutFailedStage() && Reachable(PayoutFailedStage())
  {
    StoryEnds(dist);
    FailureStep(dist);
    NextStep(dist, Story(), FailPayout(5));
    hide Run, Apply, Story, Withdrawn, PayoutFailedStage;
  }

  /** A ride refunded after its money was withdrawn: the payout stays, though the ride brought in nothing. */
  lemma RefundAfterWithdrawal(dist: Distance)
    ensures var w := Run(EmptyWorld, dist, Story() + [ReversePayment(4, true)]);
            Reachable(w) && TotalOf(w, PayoutsOf(w, 1)) == 1000 && Balance(w, 1) == 0 && PaidOf(w, 1) == {}
            && LostOf(w, 1) == {4}
  {
    RefundReached(dist);
    var w := Refunded();
    hide Run, Story, Routes.WithStops, Reachable;
    assert PaidOf(w, 1) == {} && LostOf(w, 1) == {4} && AvailableTo(w, 1) == {};
    EarningsConserved(w, 1);
    WorthOfOne(w, LostOf(w, 1), 4);
    assert Worth(w.payments, {}) == 0;
  }

  /** A payout that failed: its money is held, but in no balance and in no payout that could still be carried out. */
  lemma FailureStrands(dist: Distance)
    ensures var w := Run(EmptyWorld, dist, Story() + [FailPayout(5)]);
            Reachable(w) && StrandedOf(w, 1) == {4} && Balance(w, 1) == 0 && LivePayouts(w, 1) == {}
            && Worth(w.payments, PaidOf(w, 1)) == 1000
  {
    FailureReached(dist);
    var w := PayoutFailedStage();
    hide Run, Story, Routes.WithStops, Reachable;
    assert PaidOf(w, 1) == {4} && StrandedOf(w, 1) == {4} && AvailableTo(w, 1) == {};
    WorthOfOne(w, PaidOf(w, 1), 4);
    assert Worth(w.payments, {}) == 0;
  }

  /** PayPal answers that the batch is neither paid nor refused yet. */
  function Sending(): Op {
    ExecutePayout(5, true, Payouts.BatchAnswer(Payouts.BatchOther, Some("batch")), MIDNIGHT)
  }

  lemma SendingStep(dist: Distance)
    ensures PayoutRuns.Sends(Withdrawn(), Sending(), 5)
    ensures var after := Apply(Withdrawn(), dist, Sending());
            5 in after.payouts && after.payouts[5] == Payout(1, "2026-01", 1000, PayoutPending, Some("batch"), 1, None)
  {
    hide Routes.WithStops;
    assert Payouts.ExecutePayout(Withdrawn(), 5, true, Sending().answer, MIDNIGHT).0
        == Apply(Withdrawn(), dist, Sending());
  }

  /** Executing a payout again before its batch is settled asks PayPal for the money twice. */
  lemma SentTwice(dist: Distance)
    ensures PayoutRuns.Batches(EmptyWorld, dist, Story() + [Sending()] + [Sending()], 5) > 1
  {
    var once, twice := Story() + [Sending()], Story() + [Sending()] + [Sending()];
    StoryEnds(dist);
    SendingStep(dist);
    NextStep(dist, Story(), Sending());
    var n := |once|;
    assert twice[..n] == once && twice[n] == Sending();
    hide Run, Apply, Story, Withdrawn, PayoutRuns.Batches;
    assert PayoutRuns.SendsAgain(Run(EmptyWorld, dist, twice[..n]), twice[n], 5);
    PayoutRuns.SentAgainExactlyWhen(dist, twice, 5);
  }

  // ---- a paid payout that fails ----

  /** PayPal answers that the batch was paid. */
  function Paying(): Op {
    ExecutePayout(5, true, Payouts.BatchAnswer(Payouts.BatchSuccess, Some("batch")), MIDNIGHT)
  }

  function PaidOut(): World {
    Withdrawn().(payouts := map[5 := Payout(1, "2026-01", 1000, PayoutPaid, Some("batch"), 1, Some(MIDNIGHT))])
  }

  lemma PayingStep(dist: Distance)
    ensures Apply(Withdrawn(), dist, Paying()) == PaidOut()
  {
    hide Routes.WithStops;
    assert Payouts.ExecutePayout(Withdrawn(), 5, true, Paying().answer, MIDNIGHT).0 == PaidOut();
  }

  lemma FailingStep(dist: Distance)
    ensures var after := Apply(PaidOut(), dist, FailPayout(5)).payouts;
            5 in after && after[5] == Payout(1, "2026-01", 1000, PayoutFailed, Some("batch"), 2, Some(MIDNIGHT))
  {
    hide Routes.WithStops;
    assert Payouts.FailPayout(PaidOut(), 5).0 == Apply(PaidOut(), dist, FailPayout(5));
  }

  /** A payout that PayPal has paid is marked as failed. */
  lemma PaidPayoutFails(dist: Distance)
    ensures var paid := Run(EmptyWorld, dist, Story() + [Paying()]).payouts;
            var failed := Run(EmptyWorld, dist, Story() + [Paying()] + [FailPayout(5)]).payouts;
            5 in paid && paid[5].status == PayoutPaid && 5 in failed && failed[5].status == PayoutFailed
  {
    StoryEnds(dist);
    PayingStep(dist);
    FailingStep(dist);
    NextStep(dist, Story(), Paying());
    NextStep(dist, Story() + [Paying()], FailPayout(5));
    hide Run, Apply, Story, Withdrawn, Stops;
  }

  // ---- a payment received twice ----

  lemma {:induction false} SameTables(dist: Distance, ops: seq<Op>)
    ensures PaypalRuns.Run(dist, ops).world == Run(EmptyWorld, dist, ops)
    decreases |ops|
  {
    hide Apply;
    if ops != [] { SameTables(dist, ops[..|ops| - 1]); }
  }

  lemma CaptureReceives(dist: Distance)
    ensures PaypalRuns.Receives(OrderedStage(), Story()[4], 4) && PaypalRuns.Receives(PaidStage(), Story()[4], 4)
  {
    hide Routes.WithStops;
  }

  /** If PayPal reported an order completed twice, the money of its payment would be taken twice. */
  lemma ReceivedTwice(dist: Distance)
    ensures PaypalRuns.Receipts(dist, Story()[..5] + [Story()[4]], 4) == 2
  {
    var story := Story();
    var last := story[4];
    var once := story[..5];
    var ops := once + [last];
    assert ops[..5] == once && ops[5] == last && once[..4] == story[..4] && once[4] == last;
    NoReceiptsBefore(dist);
    hide Run, Story, PaypalRuns.Run, PaypalRuns.Receives, Stage, OrderedStage, PaidStage;
    Ordered(dist);
    PaidFor(dist);
    CaptureReceives(dist);
    SameTables(dist, story[..4]);
    SameTables(dist, once);
    PaypalRuns.ReceiptsGrow(dist, ops, 4);
    PaypalRuns.ReceiptsGrow(dist, once, 4);
  }

  lemma NoReceiptsBefore(dist: Distance)
    ensures PaypalRuns.Receipts(dist, Story()[..4], 4) == 0
  {
    var story := Story();
    assert story[..4][..3] == story[..3] && story[..3][..2] == story[..2] && story[..2][..1] == story[..1]
        && story[..1][..0] == [];
    hide PaypalRuns.Run;
    PaypalRuns.ReceiptsGrow(dist, story[..4], 4);
    PaypalRuns.ReceiptsGrow(dist, story[..3], 4);
    PaypalRuns.ReceiptsGrow(dist, story[..2], 4);
    PaypalRuns.ReceiptsGrow(dist, story[..1], 4);
  }

  // ---- a route cancelled between order and capture ----

  function CancelledStage(payment: Payment): World {
    World(map[0 := RouteAfter(0).(state := RutaCancelada)], Stops(),
          map[3 := BookingAfter().(state := ReservaCancelada)], map[4 := payment], map[], 5)
  }

  lemma CancellingStep(dist: Distance)
    ensures Apply(OrderedStage(), dist, CancelRoute(1, 0, {}))
         == CancelledStage(PaymentAfter(Failed, Some("order"), None, None))
  {
    var w := OrderedStage();
    hide Routes.WithStops;
    assert Routes.OpenPayments(w, 0) == {4};
    assert Routes.CancelRoute(w, 1, 0, {}).0 == CancelledStage(PaymentAfter(Failed, Some("order"), None, None));
  }

  lemma LateCaptureStep(dist: Distance)
    ensures Apply(CancelledStage(PaymentAfter(Failed, Some("order"), None, None)), dist, Story()[4])
         == CancelledStage(PaymentAfter(Paid, Some("order"), Some("capture"), None))
  {
    PaymentSteps(CancelledStage(PaymentAfter(Failed, Some("order"), None, None)), dist);
    hide Apply, Routes.WithStops;
  }

  /** The driver cancels the route after the passenger placed the order, and the passenger's capture then pays for the
      cancelled ride; besides, the only seat of the route is neither free nor held. */
  lemma PaidAfterCancellation(dist: Distance)
    ensures var w := Run(EmptyWorld, dist, Story()[..4] + [CancelRoute(1, 0, {})] + [Story()[4]]);
            RouteRuns.PaysFor(w, 4, 0) && w.payments[4].status == Paid
            && 0 in w.routes && w.routes[0].state == RutaCancelada && RouteRuns.Deficit(w, 0) == 1
  {
    Ordered(dist);
    CancellingStep(dist);
    LateCaptureStep(dist);
    NextStep(dist, Story()[..4], CancelRoute(1, 0, {}));
    NextStep(dist, Story()[..4] + [CancelRoute(1, 0, {})], Story()[4]);
    hide Run, Apply, Story, Stops;
    var w := CancelledStage(PaymentAfter(Paid, Some("order"), Some("capture"), None));
    assert SeatedOn(w.bookings, 0) == {};
  }

  // ---- a started route with an unchecked passenger ----

  function StartedStage(free: int, bookings: map<Id, Booking>, next: Id): World {
    World(map[0 := RouteAfter(free).(startedAt := Some(MIDNIGHT))], Stops(), bookings, map[], map[], next)
  }

  lemma StartStep(dist: Distance)
    ensures Apply(RouteStage(), dist, StartRoute(1, 0, MIDNIGHT)) == StartedStage(1, map[], 3)
  {
    hide Routes.WithStops;
    assert Routes.Unverified(map[], 0) == {};
    assert Routes.StartRoute(RouteStage(), 1, 0, MIDNIGHT).0 == StartedStage(1, map[], 3);
  }

  lemma LateBookingStep(dist: Distance)
    ensures Apply(StartedStage(1, map[], 3), dist, Story()[1]) == StartedStage(0, map[3 := BookingAfter()], 4)
  {
    var w, q := StartedStage(1, map[], 3), Bookings.Request(2, 0, Paypal, Bookings.NoPickup, false, "123456");
    assert Story()[1] == CreateBooking(q);
    hide Routes.WithStops, Story;
    assert Bookings.Debts(w.bookings, 2) == {} && Bookings.BookedBy(w.bookings, 0, 2) == {};
    assert Bookings.BookingRefusal(w, q) == None;
    hide Bookings.BookingRefusal;
    assert Bookings.CreateBooking(w, dist, q).0 == StartedStage(0, map[3 := BookingAfter()], 4);
  }

  /** A route that has started is booked, so that a confirmed passenger of it has their code unchecked. */
  lemma BookedAfterStart(dist: Distance)
    ensures var w := Run(EmptyWorld, dist, [Story()[0]] + [StartRoute(1, 0, MIDNIGHT)] + [Story()[1]]);
            0 in w.routes && w.routes[0].startedAt.Some? && !BookingRuns.AllChecked(w, 0)
  {
    RouteMade(dist);
    StartStep(dist);
    LateBookingStep(dist);
    assert Run(EmptyWorld, dist, []) == EmptyWorld && [] + [Story()[0]] == [Story()[0]];
    NextStep(dist, [], Story()[0]);
    NextStep(dist, [Story()[0]], StartRoute(1, 0, MIDNIGHT));
    NextStep(dist, [Story()[0]] + [StartRoute(1, 0, MIDNIGHT)], Story()[1]);
    hide Run, Apply, Story, Stops;
    var w := StartedStage(0, map[3 := BookingAfter()], 4);
    assert w.bookings[3].route == 0 && !BookingRuns.CheckedOrClosed(w.bookings[3]);
  }
}
