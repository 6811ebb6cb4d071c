/** How the money of paid rides, the payouts and the available balances of the drivers compare, over whole runs. */
module Conservation {
  import opened Wrappers
  import opened Domain
  import opened Sums
  import opened Runs
  import opened Evolution
  import opened Ledger
  import opened LedgerRuns

  /** The payments for the driver's rides whose money is held. */
  function PaidOf(w: World, driver: Id): set<Id> {
    set p | p in w.payments && DriverOf(w, p) == Some(driver) && w.payments[p].status == Paid
  }

  /** The driver's payments that are in a payout of the given ones. */
  function InPayouts(w: World, driver: Id, ids: set<Id>, paid: bool): set<Id> {
    set p | p in w.payments && DriverOf(w, p) == Some(driver) && w.payments[p].payout.Some?
            && w.payments[p].payout.value in ids && (w.payments[p].status == Paid <==> paid)
  }

  /** Payments in a payout whose money was given back, or whose refund failed. */
  function LostOf(w: World, driver: Id): set<Id> {
    InPayouts(w, driver, PayoutsOf(w, driver), false)
  }

  function FailedPayouts(w: World, driver: Id): set<Id> {
    set id | id in w.payouts && w.payouts[id].driver == driver && w.payouts[id].status == PayoutFailed
  }

  function LivePayouts(w: World, driver: Id): set<Id> {
    set id | id in w.payouts && w.payouts[id].driver == driver && w.payouts[id].status != PayoutFailed
  }

  /** Payments whose money is held, in a payout that has failed. */
  function StrandedOf(w: World, driver: Id): set<Id> {
    InPayouts(w, driver, FailedPayouts(w, driver), true)
  }

  ghost function TotalOf(w: World, ids: set<Id>): int {
    Sum(PayoutAmounts(w.payouts), ids)
  }

  // ---- what payouts hold ----

  /** Payouts of a driver are worth the payments in them, those whose money is held and those where it is not. */
  lemma PayoutsHold(w: World, driver: Id, ids: set<Id>)
    requires LedgerSound(w) && ids <= PayoutsOf(w, driver)
    ensures TotalOf(w, ids)
            == Worth(w.payments, InPayouts(w, driver, ids, true)) + Worth(w.payments, InPayouts(w, driver, ids, false))
  {
    PayoutsWorth(w, ids);
    LinkedAreTheDrivers(w, driver, ids);
    SumUnion(AmountIn(w.payments), InPayouts(w, driver, ids, true), InPayouts(w, driver, ids, false));
    hide LedgerSound, InPayouts, LinkedToAny;
  }

  lemma LinkedAreTheDrivers(w: World, driver: Id, ids: set<Id>)
    requires LedgerSound(w) && ids <= PayoutsOf(w, driver)
    ensures LinkedToAny(w.payments, ids) == InPayouts(w, driver, ids, true) + InPayouts(w, driver, ids, false)
    ensures InPayouts(w, driver, ids, true) !! InPayouts(w, driver, ids, false)
  {
    hide DriverOf, PaymentsSound, AmountsSound;
  }

  /** The money held is either withdrawable or in one of the driver's payouts. */
  lemma HeldSplits(w: World, driver: Id)
    requires LedgerSound(w)
    ensures var paid := InPayouts(w, driver, PayoutsOf(w, driver), true);
            AvailableTo(w, driver) !! paid && PaidOf(w, driver) == AvailableTo(w, driver) + paid
    ensures Worth(w.payments, PaidOf(w, driver))
            == Balance(w, driver) + Worth(w.payments, InPayouts(w, driver, PayoutsOf(w, driver), true))
  {
    hide DriverOf, PaymentsSound, AmountsSound, Worth;
    var paid := InPayouts(w, driver, PayoutsOf(w, driver), true);
    assert PaidOf(w, driver) == AvailableTo(w, driver) + paid;
    WorthUnion(w, AvailableTo(w, driver), paid);
  }

  lemma WorthUnion(w: World, a: set<Id>, b: set<Id>)
    requires a !! b
    ensures Worth(w.payments, a + b) == Worth(w.payments, a) + Worth(w.payments, b)
  {
    SumUnion(AmountIn(w.payments), a, b);
  }

  /** Only no payments are worth nothing. */
  lemma WorthIsPositive(w: World, ids: set<Id>)
    requires PaymentsSound(w) && ids <= w.payments.Keys
    ensures Worth(w.payments, ids) >= 0 && (Worth(w.payments, ids) == 0 <==> ids == {})
  {
    var f := AmountIn(w.payments);
    assert forall p :: p in ids ==> f(p) > 0;
    SumNonNegative(f, ids);
    if ids != {} {
      var p :| p in ids;
      SumTakeOut(f, ids, p);
      SumNonNegative(f, ids - {p});
    }
  }

  // ---- conservation in every reachable state ----

  /** In every reachable state a driver's payouts and available balance add up to the money held for the driver's rides
      and the money that was given back, or lost to a failed refund, after it had been put into a payout. */
  lemma EarningsConserved(w: World, driver: Id)
    requires Reachable(w)
    ensures TotalOf(w, PayoutsOf(w, driver)) + Balance(w, driver)
            == Worth(w.payments, PaidOf(w, driver)) + Worth(w.payments, LostOf(w, driver))
  {
    LedgerAlwaysSound(w);
    PayoutsHold(w, driver, PayoutsOf(w, driver));
    HeldSplits(w, driver);
    hide LedgerSound, PaidOf, InPayouts, Balance;
  }

  /** So they equal the money held exactly when no payment in a payout was reversed or has failed. */
  lemma ConservedExactlyWhen(w: World, driver: Id)
    requires Reachable(w)
    ensures TotalOf(w, PayoutsOf(w, driver)) + Balance(w, driver) == Worth(w.payments, PaidOf(w, driver))
            <==> forall p :: p in w.payments && DriverOf(w, p) == Some(driver) && w.payments[p].payout.Some? ==>
                               w.payments[p].status == Paid
  {
    EarningsConserved(w, driver);
    LedgerAlwaysSound(w);
    WorthIsPositive(w, LostOf(w, driver));
    NothingLost(w, driver);
    hide LedgerSound, PaidOf, LostOf, Balance, DriverOf;
  }

  lemma NothingLost(w: World, driver: Id)
    requires LedgerSound(w)
    ensures LostOf(w, driver) == {}
            <==> forall p :: p in w.payments && DriverOf(w, p) == Some(driver) && w.payments[p].payout.Some? ==>
                               w.payments[p].status == Paid
  {
    hide DriverOf, PaymentsSound, AmountsSound;
    forall p | p in w.payments && DriverOf(w, p) == Some(driver) && w.payments[p].payout.Some?
      ensures p in LostOf(w, driver) <==> w.payments[p].status != Paid
    {
    }
  }

  lemma LiveOrFailed(w: World, driver: Id)
    ensures PayoutsOf(w, driver) == LivePayouts(w, driver) + FailedPayouts(w, driver)
    ensures LivePayouts(w, driver) !! FailedPayouts(w, driver)
  {
  }

  lemma HeldInPayoutsSplits(w: World, driver: Id)
    ensures InPayouts(w, driver, PayoutsOf(w, driver), true)
            == InPayouts(w, driver, LivePayouts(w, driver), true) + StrandedOf(w, driver)
    ensures InPayouts(w, driver, LivePayouts(w, driver), true) !! StrandedOf(w, driver)
  {
    hide DriverOf;
  }

  /** The same without the failed payouts: what is withdrawable or in a payout that can still be or was carried out is
      the money held, less what is stranded in failed payouts, plus what was lost from the others. */
  lemma LiveEarnings(w: World, driver: Id)
    requires Reachable(w)
    ensures TotalOf(w, LivePayouts(w, driver)) + Balance(w, driver) + Worth(w.payments, StrandedOf(w, driver))
            == Worth(w.payments, PaidOf(w, driver))
               + Worth(w.payments, InPayouts(w, driver, LivePayouts(w, driver), false))
  {
    LedgerAlwaysSound(w);
    LiveOrFailed(w, driver);
    PayoutsHold(w, driver, LivePayouts(w, driver));
    HeldSplits(w, driver);
    HeldInPayoutsSplits(w, driver);
    hide LedgerSound, PaidOf, InPayouts, Balance, PayoutsOf, LivePayouts, FailedPayouts;
    WorthUnion(w, InPayouts(w, driver, LivePayouts(w, driver), true), StrandedOf(w, driver));
  }

  /** All the money held is withdrawable or in a payout that did not fail, exactly when no failed payout of the driver
      holds a paid payment. */
  lemma NoneStrandedExactlyWhen(w: World, driver: Id)
    requires Reachable(w)
    ensures Worth(w.payments, PaidOf(w, driver))
            == Balance(w, driver) + Worth(w.payments, InPayouts(w, driver, LivePayouts(w, driver), true))
            <==> StrandedOf(w, driver) == {}
  {
    LedgerAlwaysSound(w);
    HeldSplits(w, driver);
    HeldInPayoutsSplits(w, driver);
    WorthIsPositive(w, StrandedOf(w, driver));
    hide LedgerSound, PaidOf, InPayouts, StrandedOf, Balance, PayoutsOf, LivePayouts;
    WorthUnion(w, InPayouts(w, driver, LivePayouts(w, driver), true), StrandedOf(w, driver));
  }

  /** A payment in a failed payout stays there and never becomes withdrawable again, whatever happens. */
  lemma StrandedForever(w: World, dist: Distance, ops: seq<Op>, p: Id)
    requires KeysBelow(w) && p in w.payments && w.payments[p].payout.Some?
    requires var id := w.payments[p].payout.value; id in w.payouts && w.payouts[id].status == PayoutFailed
    ensures var later := Run(w, dist, ops);
            p in later.payments && later.payments[p].payout == w.payments[p].payout
            && later.payments[p].payout.value in later.payouts
            && later.payouts[later.payments[p].payout.value].status == PayoutFailed
            && forall driver :: p !in AvailableTo(later, driver)
  {
    RunEvolves(w, dist, ops);
    hide KeysBelow, Run, DriverOf;
  }
}
