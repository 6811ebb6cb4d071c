/** The money that passes through payments and payouts, in every state that a run reaches. */
module Ledger {
  import opened Wrappers
  import opened Domain
  import opened Sums
  import StopOrder
  import Database
  import Payments
  import Payouts
  import Withdrawal
  import opened Runs
  import opened Evolution
  import opened TripInvariant

  function AmountIn(payments: map<Id, Payment>): Id -> int {
    (p: Id) => if p in payments then payments[p].amount else 0
  }

  ghost function Worth(payments: map<Id, Payment>, ids: set<Id>): int {
    Sum(AmountIn(payments), ids)
  }

  /** The payments that were put into a payout. */
  function LinkedTo(payments: map<Id, Payment>, payout: Id): set<Id> {
    set p | p in payments && payments[p].payout == Some(payout)
  }

  /** Every payment belongs to a booking of its own and costs what the ride cost. */
  ghost predicate PaymentsSound(w: World) {
    (forall p :: p in w.payments ==>
       var b := w.payments[p].booking;
       b in w.bookings && w.bookings[b].route in w.routes
       && w.payments[p].amount == w.routes[w.bookings[b].route].price > 0
       && (w.payments[p].status == Paid ==> w.payments[p].paidAt.Some?))
    && (forall p, q :: p in w.payments && q in w.payments && p != q ==> w.payments[p].booking != w.payments[q].booking)
  }

  /** Every payment in a payout was paid for a ride of that payout's driver. */
  ghost predicate LinksSound(w: World) {
    forall p :: p in w.payments && w.payments[p].payout.Some? ==>
                  var id := w.payments[p].payout.value;
                  id in w.payouts && DriverOf(w, p) == Some(w.payouts[id].driver) && w.payments[p].status != Pending
  }

  /** Every payout is worth exactly the payments put into it. */
  ghost predicate AmountsSound(w: World) {
    forall id :: id in w.payouts ==> w.payouts[id].amount == Worth(w.payments, LinkedTo(w.payments, id))
  }

  ghost predicate LedgerSound(w: World) {
    PaymentsSound(w) && LinksSound(w) && AmountsSound(w)
  }

  // ---- steps that leave the links alone ----

  /** The same payments in the same payouts. */
  ghost predicate SameLinks(before: World, after: World) {
    after.payments.Keys == before.payments.Keys && after.payouts.Keys == before.payouts.Keys
    && forall p :: p in before.payments ==> after.payments[p].payout == before.payments[p].payout
  }

  lemma OwnerEvolves(before: World, after: World, p: Id)
    requires PaymentsSound(before) && Evolves(before, after) && p in before.payments
    ensures DriverOf(after, p) == DriverOf(before, p) != None
    ensures var b := after.payments[p].booking;
            b == before.payments[p].booking && b in after.bookings && after.bookings[b].route in after.routes
            && after.payments[p].amount == before.payments[p].amount == after.routes[after.bookings[b].route].price
  {
    var b := before.payments[p].booking;
    assert PaymentEvolves(before.payments[p], after.payments[p]);
    assert BookingEvolves(before.bookings[b], after.bookings[b]);
    assert RouteEvolves(before.routes[before.bookings[b].route], after.routes[before.bookings[b].route]);
  }

  lemma SameLinksKeepLedger(before: World, after: World)
    requires LedgerSound(before) && Evolves(before, after) && SameLinks(before, after)
    ensures LedgerSound(after)
  {
    forall p | p in before.payments
      ensures DriverOf(after, p) == DriverOf(before, p)
    {
      OwnerEvolves(before, after, p);
    }
    SameLinksPayments(before, after);
    SameLinksAmounts(before, after);
    forall p | p in after.payments && after.payments[p].payout.Some?
      ensures var id := after.payments[p].payout.value;
              id in after.payouts && DriverOf(after, p) == Some(after.payouts[id].driver)
              && after.payments[p].status != Pending
    {
      hide DriverOf;
      assert p in before.payments && PaymentEvolves(before.payments[p], after.payments[p]);
      var id := before.payments[p].payout.value;
      assert PayoutEvolves(before.payouts[id], after.payouts[id]);
    }
  }

  lemma SameLinksPayments(before: World, after: World)
    requires PaymentsSound(before) && Evolves(before, after) && SameLinks(before, after)
    ensures PaymentsSound(after)
  {
    forall p | p in after.payments
      ensures var b := after.payments[p].booking;
              b == before.payments[p].booking && b in after.bookings && after.bookings[b].route in after.routes
              && after.payments[p].amount == after.routes[after.bookings[b].route].price > 0
              && (after.payments[p].status == Paid ==> after.payments[p].paidAt.Some?)
    {
      assert p in before.payments && PaymentEvolves(before.payments[p], after.payments[p]);
      OwnerEvolves(before, after, p);
    }
  }

  lemma SameLinksAmounts(before: World, after: World)
    requires AmountsSound(before) && Evolves(before, after) && SameLinks(before, after)
    ensures AmountsSound(after)
  {
    hide Worth, KeysBelow, RoutesEvolve, BookingsEvolve;
    forall id | id in after.payouts
      ensures after.payouts[id].amount == Worth(after.payments, LinkedTo(after.payments, id))
    {
      assert LinkedTo(after.payments, id) == LinkedTo(before.payments, id);
      assert PayoutEvolves(before.payouts[id], after.payouts[id]);
      WorthEvolves(before, after, LinkedTo(before.payments, id));
    }
  }

  lemma WorthEvolves(before: World, after: World, ids: set<Id>)
    requires Evolves(before, after) && ids <= before.payments.Keys
    ensures Worth(after.payments, ids) == Worth(before.payments, ids)
  {
    hide Worth;
    forall p | p in ids
      ensures p in after.payments && after.payments[p].amount == before.payments[p].amount
    {
      assert PaymentEvolves(before.payments[p], after.payments[p]);
    }
    SameWorth(after.payments, before.payments, ids);
  }

  lemma SameWorth(a: map<Id, Payment>, b: map<Id, Payment>, ids: set<Id>)
    requires forall p :: p in ids ==> p in a && p in b && a[p].amount == b[p].amount
    ensures Worth(a, ids) == Worth(b, ids)
  {
    SumSame(AmountIn(a), AmountIn(b), ids);
  }

  // ---- a new payment ----

  ghost predicate FreshPayment(w: World, x: Payment) {
    x.booking in w.bookings && w.bookings[x.booking].route in w.routes && PaymentsOf(w.payments, x.booking) == {}
    && x.amount == w.routes[w.bookings[x.booking].route].price > 0 && x.status == Pending && x.payout == None
  }

  lemma NewPaymentSound(w: World, x: Payment)
    requires PaymentsSound(w) && FreshPayment(w, x) && w.nextId !in w.payments
    ensures PaymentsSound(w.(payments := w.payments[w.nextId := x], nextId := w.nextId + 1))
  {
    forall p | p in w.payments
      ensures w.payments[p].booking != x.booking
    {
      assert p !in PaymentsOf(w.payments, x.booking);
    }
  }

  lemma NewPaymentLinks(w: World, x: Payment)
    requires LinksSound(w) && FreshPayment(w, x) && w.nextId !in w.payments
    ensures LinksSound(w.(payments := w.payments[w.nextId := x], nextId := w.nextId + 1))
  {
  }

  lemma NewPaymentAmounts(w: World, x: Payment)
    requires AmountsSound(w) && FreshPayment(w, x) && w.nextId !in w.payments
    ensures AmountsSound(w.(payments := w.payments[w.nextId := x], nextId := w.nextId + 1))
  {
    hide Worth;
    var payments := w.payments[w.nextId := x];
    forall id | id in w.payouts
      ensures w.payouts[id].amount == Worth(payments, LinkedTo(payments, id))
    {
      assert LinkedTo(payments, id) == LinkedTo(w.payments, id);
      SameWorth(payments, w.payments, LinkedTo(w.payments, id));
    }
  }

  lemma CreatePaymentKeeps(w: World, passenger: Id, b: Id, payBy: PayMethod)
    requires KeysBelow(w) && LedgerSound(w)
    ensures LedgerSound(Payments.CreatePayment(w, passenger, b, payBy).0)
  {
    assert w.nextId !in w.payments by { KeysAreFresh(w); }
    hide KeysBelow, PaymentsSound, LinksSound, AmountsSound;
    var after := Payments.CreatePayment(w, passenger, b, payBy).0;
    if after != w {
      var x := Payment(b, w.routes[w.bookings[b].route].price, "USD", payBy, Pending, None, None, None, None);
      NewPaymentSound(w, x);
      NewPaymentLinks(w, x);
      NewPaymentAmounts(w, x);
    }
  }

  // ---- a new payout ----

  /** Unclaimed payments for rides of one driver. */
  ghost predicate Claimable(w: World, driver: Id, taken: set<Id>) {
    forall p :: p in taken ==> p in w.payments && Unclaimed(w.payments[p]) && DriverOf(w, p) == Some(driver)
  }

  lemma NewPayoutPayments(w: World, payout: Payout, taken: set<Id>)
    requires PaymentsSound(w)
    ensures PaymentsSound(Payouts.WithPayout(w, payout, taken))
  {
    var payments := Payouts.Linked(w.payments, taken, w.nextId);
    assert payments.Keys == w.payments.Keys;
    assert forall p :: p in payments ==> payments[p] == w.payments[p].(payout := payments[p].payout);
    hide Payouts.Linked;
    SamePaymentsSound(w, Payouts.WithPayout(w, payout, taken));
  }

  lemma SamePaymentsSound(before: World, after: World)
    requires PaymentsSound(before) && after.bookings == before.bookings && after.routes == before.routes
    requires after.payments.Keys == before.payments.Keys
    requires forall p ::
              p in after.payments ==> after.payments[p] == before.payments[p].(payout := after.payments[p].payout)
    ensures PaymentsSound(after)
  {
    forall p | p in after.payments
      ensures after.payments[p].booking == before.payments[p].booking
              && after.payments[p].amount == before.payments[p].amount
              && after.payments[p].status == before.payments[p].status
              && after.payments[p].paidAt == before.payments[p].paidAt
    {
      assert after.payments[p] == before.payments[p].(payout := after.payments[p].payout);
    }
    forall p, q | p in after.payments && q in after.payments && p != q
      ensures after.payments[p].booking != after.payments[q].booking
    {
      assert before.payments[p].booking != before.payments[q].booking;
    }
  }

  lemma NewPayoutLinks(w: World, payout: Payout, taken: set<Id>)
    requires LinksSound(w) && w.nextId !in w.payouts && Claimable(w, payout.driver, taken)
    ensures LinksSound(Payouts.WithPayout(w, payout, taken))
  {
    var after := Payouts.WithPayout(w, payout, taken);
    assert forall p :: p in w.payments ==> DriverOf(after, p) == DriverOf(w, p);
    hide DriverOf;
  }

  lemma NewPayoutAmounts(w: World, payout: Payout, taken: set<Id>)
    requires LinksSound(w) && AmountsSound(w) && w.nextId !in w.payouts && Claimable(w, payout.driver, taken)
    requires payout.amount == Worth(w.payments, taken)
    ensures AmountsSound(Payouts.WithPayout(w, payout, taken))
    ensures LinkedTo(Payouts.WithPayout(w, payout, taken).payments, w.nextId) == taken
  {
    hide DriverOf, Worth;
    var payments := Payouts.Linked(w.payments, taken, w.nextId);
    assert forall p :: p in w.payments ==> w.payments[p].payout != Some(w.nextId);
    assert LinkedTo(payments, w.nextId) == taken;
    SameWorth(payments, w.payments, taken);
    forall id | id in w.payouts
      ensures w.payouts[id].amount == Worth(payments, LinkedTo(payments, id))
    {
      assert LinkedTo(payments, id) == LinkedTo(w.payments, id);
      SameWorth(payments, w.payments, LinkedTo(w.payments, id));
    }
  }

  lemma WithPayoutKeeps(w: World, payout: Payout, taken: set<Id>)
    requires KeysBelow(w) && LedgerSound(w)
    requires Claimable(w, payout.driver, taken) && payout.amount == Worth(w.payments, taken)
    ensures LedgerSound(Payouts.WithPayout(w, payout, taken))
    ensures LinkedTo(Payouts.WithPayout(w, payout, taken).payments, w.nextId) == taken
  {
    assert w.nextId !in w.payouts by { KeysAreFresh(w); }
    hide KeysBelow, PaymentsSound, LinksSound, AmountsSound, Claimable, Payouts.WithPayout;
    NewPayoutPayments(w, payout, taken);
    NewPayoutLinks(w, payout, taken);
    NewPayoutAmounts(w, payout, taken);
  }

  // ---- withdrawals ----

  lemma {:induction false} TakenWorth(payments: map<Id, Payment>, rows: seq<Id>, chosen: seq<nat>)
    requires forall i :: 0 <= i < |rows| ==> rows[i] in payments
    requires StopOrder.Distinct(rows) && Withdrawal.Increasing(chosen)
    requires forall a :: 0 <= a < |chosen| ==> chosen[a] < |rows|
    ensures Worth(payments, Payouts.TakenRows(rows, chosen))
            == Withdrawal.SumAt(Payouts.AmountsOf(payments, rows), chosen)
    decreases |chosen|
  {
    if chosen == [] {
      assert Payouts.TakenRows(rows, chosen) == {};
    } else {
      var rest := chosen[1..];
      TakenWorth(payments, rows, rest);
      var first, others := rows[chosen[0]], Payouts.TakenRows(rows, rest);
      assert first !in others;
      TakenSplits(rows, chosen);
      SumAdd(AmountIn(payments), others, first);
    }
  }

  lemma TakenSplits(rows: seq<Id>, chosen: seq<nat>)
    requires chosen != [] && forall a :: 0 <= a < |chosen| ==> chosen[a] < |rows|
    ensures Payouts.TakenRows(rows, chosen) == Payouts.TakenRows(rows, chosen[1..]) + {rows[chosen[0]]}
  {
    var rest := chosen[1..];
    forall p | p in Payouts.TakenRows(rows, chosen)
      ensures p in Payouts.TakenRows(rows, rest) + {rows[chosen[0]]}
    {
      var k :| 0 <= k < |chosen| && p == rows[chosen[k]];
      if k > 0 {
        assert rest[k - 1] == chosen[k];
      }
    }
    forall p | p in Payouts.TakenRows(rows, rest)
      ensures p in Payouts.TakenRows(rows, chosen)
    {
      var k :| 0 <= k < |rest| && p == rows[rest[k]];
      assert chosen[k + 1] == rest[k];
    }
  }

  /** The payments a successful withdrawal takes are the driver's to take, and are worth the request. */
  lemma WithdrawalTakes(w: World, driver: Id, amount: int, rows: seq<Id>)
    requires Database.IsAgeListing(w, driver, rows) && amount >= Payouts.MINIMUM_CENTS
    ensures var taken := Withdrawal.Withdraw(Payouts.AmountsOf(w.payments, rows), amount);
            taken.Some? ==>
              var ids := Payouts.TakenRows(rows, taken.value.chosen);
              Claimable(w, driver, ids) && ids <= AvailableTo(w, driver)
              && Worth(w.payments, ids) == taken.value.total == amount
  {
    hide DriverOf, Worth;
    var amounts := Payouts.AmountsOf(w.payments, rows);
    Withdrawal.WithdrawsExactly(amounts, amount);
    var taken := Withdrawal.Withdraw(amounts, amount);
    if taken.Some? {
      hide Withdrawal.Withdraw;
      TakenWorth(w.payments, rows, taken.value.chosen);
    }
  }

  lemma RequestPayoutKeeps(w: World, driver: Id, amount: int, hasEmail: bool, period: string, rows: seq<Id>)
    requires KeysBelow(w) && LedgerSound(w) && Database.IsAgeListing(w, driver, rows)
    ensures LedgerSound(Payouts.RequestPayout(w, driver, amount, hasEmail, period, rows).0)
  {
    hide KeysBelow, LedgerSound, Claimable, Worth, Payouts.WithPayout, Payouts.AmountsOf, Withdrawal.Withdraw;
    var taken := Withdrawal.Withdraw(Payouts.AmountsOf(w.payments, rows), amount);
    if amount >= Payouts.MINIMUM_CENTS && taken.Some? {
      WithdrawalTakes(w, driver, amount, rows);
      var payout := Payout(driver, period, taken.value.total, PayoutPending, None, 0, None);
      WithPayoutKeeps(w, payout, Payouts.TakenRows(rows, taken.value.chosen));
    }
  }

  /** What a driver can withdraw. */
  ghost function Balance(w: World, driver: Id): int {
    Worth(w.payments, AvailableTo(w, driver))
  }

  lemma ClaimLowersBalance(w: World, payout: Payout, taken: set<Id>, driver: Id)
    requires Claimable(w, payout.driver, taken)
    ensures var after := Payouts.WithPayout(w, payout, taken);
            Balance(after, driver) ==
            Balance(w, driver) - if driver == payout.driver then Worth(w.payments, taken) else 0
  {
    var after := Payouts.WithPayout(w, payout, taken);
    assert forall p :: p in w.payments ==> DriverOf(after, p) == DriverOf(w, p);
    hide DriverOf;
    var left := AvailableTo(after, driver);
    SameWorth(after.payments, w.payments, left);
    if driver == payout.driver {
      assert AvailableTo(w, driver) == left + taken;
      SumUnion(AmountIn(w.payments), left, taken);
    } else {
      assert AvailableTo(w, driver) == left;
    }
  }

  /** Either nothing happens, or one payout for the selected rows is made. */
  lemma RequestOutcome(w: World, driver: Id, amount: int, hasEmail: bool, period: string, rows: seq<Id>)
    requires Database.IsAgeListing(w, driver, rows)
    ensures var (after, reply) := Payouts.RequestPayout(w, driver, amount, hasEmail, period, rows);
            var taken := Withdrawal.Withdraw(Payouts.AmountsOf(w.payments, rows), amount);
            if reply.Withdrawn? then
              amount >= Payouts.MINIMUM_CENTS && taken.Some?
              && reply == Withdrawn(w.nextId, taken.value.total)
              && after == Payouts.WithPayout(w, Payout(driver, period, taken.value.total, PayoutPending, None, 0, None),
                                             Payouts.TakenRows(rows, taken.value.chosen))
            else after == w
  {
    hide Payouts.WithPayout, Withdrawal.Withdraw, Payouts.TakenRows;
  }

  /** A granted withdrawal lowers the driver's balance by exactly the amount asked for, and nobody else's. */
  lemma WithdrawalMovesBalance(
      w: World, driver: Id, amount: int, hasEmail: bool, period: string, rows: seq<Id>, other: Id)
    requires KeysBelow(w) && Database.IsAgeListing(w, driver, rows)
    ensures var (after, reply) := Payouts.RequestPayout(w, driver, amount, hasEmail, period, rows);
            if reply.Withdrawn? then
              reply.amount == amount && reply.id !in w.payouts && reply.id in after.payouts
              && after.payouts[reply.id].amount == amount && after.payouts[reply.id].driver == driver
              && Balance(after, driver) == Balance(w, driver) - amount
              && (other != driver ==> Balance(after, other) == Balance(w, other))
            else after == w
  {
    assert w.nextId !in w.payouts by { KeysAreFresh(w); }
    hide KeysBelow, Claimable, Worth, Balance, Payouts.AmountsOf, Withdrawal.Withdraw, Payouts.RequestPayout,
         Payouts.TakenRows, Payouts.Linked;
    RequestOutcome(w, driver, amount, hasEmail, period, rows);
    var taken := Withdrawal.Withdraw(Payouts.AmountsOf(w.payments, rows), amount);
    if Payouts.RequestPayout(w, driver, amount, hasEmail, period, rows).1.Withdrawn? {
      WithdrawalTakes(w, driver, amount, rows);
      var payout := Payout(driver, period, taken.value.total, PayoutPending, None, 0, None);
      ClaimLowersBalance(w, payout, Payouts.TakenRows(rows, taken.value.chosen), driver);
      ClaimLowersBalance(w, payout, Payouts.TakenRows(rows, taken.value.chosen), other);
    }
  }

  // ---- monthly payouts ----

  lemma {:induction false} GroupWorth(w: World, rows: seq<Id>, driver: Id)
    requires forall i :: 0 <= i < |rows| ==> rows[i] in w.payments
    requires StopOrder.Distinct(rows)
    ensures Worth(w.payments, Payouts.GroupRows(w, rows, driver)) == Payouts.GroupTotal(w, rows, driver)
    decreases |rows|
  {
    if rows == [] {
      assert Payouts.GroupRows(w, rows, driver) == {};
    } else {
      var n := |rows| - 1;
      GroupWorth(w, rows[..n], driver);
      Payouts.GroupGrows(w, rows, n, driver);
      assert rows[..n + 1] == rows;
      var before := Payouts.GroupRows(w, rows[..n], driver);
      assert rows[n] !in before;
      if DriverOf(w, rows[n]) == Some(driver) {
        SumAdd(AmountIn(w.payments), before, rows[n]);
      } else {
        assert before + {} == before;
      }
    }
  }

  /** The payouts of other drivers leave a driver's rows as they were found. */
  lemma OwnRowsUntouched(w: World, rows: seq<Id>, period: string, drivers: seq<Id>, driver: Id)
    requires Payouts.NoRepeats(drivers) && driver !in drivers && StopOrder.Distinct(rows)
    requires forall i :: 0 <= i < |rows| ==> rows[i] in w.payments && Unclaimed(w.payments[rows[i]])
    ensures var before := Payouts.CreatePayouts(w, w, rows, period, drivers);
            var taken := Payouts.GroupRows(w, rows, driver);
            Claimable(before, driver, taken) && Worth(before.payments, taken) == Payouts.GroupTotal(w, rows, driver)
  {
    var before := Payouts.CreatePayouts(w, w, rows, period, drivers);
    var taken := Payouts.GroupRows(w, rows, driver);
    Payouts.PayoutsCreated(w, w, rows, period, drivers);
    hide Payouts.CreatePayouts, Worth, Payouts.GroupTotal;
    GroupWorth(w, rows, driver);
    forall p | p in taken
      ensures p in before.payments && before.payments[p] == w.payments[p] && DriverOf(before, p) == DriverOf(w, p)
    {
      Payouts.PaymentLinked(w, w, rows, period, drivers, p);
    }
    SameWorth(before.payments, w.payments, taken);
  }

  /** The transaction keeps the books after every single payout. */
  lemma {:induction false} CreatePayoutsKeeps(w: World, rows: seq<Id>, period: string, drivers: seq<Id>)
    requires KeysBelow(w) && LedgerSound(w) && Payouts.NoRepeats(drivers) && StopOrder.Distinct(rows)
    requires forall i :: 0 <= i < |rows| ==> rows[i] in w.payments && Unclaimed(w.payments[rows[i]])
    ensures var after := Payouts.CreatePayouts(w, w, rows, period, drivers);
            KeysBelow(after) && LedgerSound(after)
    decreases |drivers|
  {
    if drivers != [] {
      hide KeysBelow, LedgerSound, Claimable, Worth, Payouts.WithPayout, Payouts.GroupTotal, Payouts.GroupRows;
      var n := |drivers| - 1;
      var init, driver := drivers[..n], drivers[n];
      CreatePayoutsKeeps(w, rows, period, init);
      OwnRowsUntouched(w, rows, period, init, driver);
      var before := Payouts.CreatePayouts(w, w, rows, period, init);
      var taken, payout := Payouts.GroupRows(w, rows, driver), Payouts.NewPayout(w, rows, period, driver);
      ClaimableIsUnlinked(before, driver, taken);
      WithPayoutEvolves(before, payout, taken);
      WithPayoutKeeps(before, payout, taken);
    }
  }

  lemma ClaimableIsUnlinked(w: World, driver: Id, taken: set<Id>)
    requires Claimable(w, driver, taken)
    ensures forall p :: p in taken && p in w.payments ==> w.payments[p].payout == None
  {
  }
}
