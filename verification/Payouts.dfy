/** Withdrawals, monthly payouts and their PayPal batches, after src/modules/payments/payouts/payouts.service.ts. */
module Payouts {
  import opened Wrappers
  import opened Domain
  import opened Database
  import Withdrawal

  // ---- what PayPal answers ----

  datatype BatchStatus = BatchSuccess | BatchFailure | BatchOther

  datatype BatchReply = BatchError | BatchAnswer(status: BatchStatus, batch: Option<string>)

  // ---- withdrawals ----

  const MINIMUM_CENTS: int := 500

  function AmountsOf(payments: map<Id, Payment>, rows: seq<Id>): (amounts: seq<int>)
    requires forall i :: 0 <= i < |rows| ==> rows[i] in payments
    ensures |amounts| == |rows| && forall i :: 0 <= i < |rows| ==> amounts[i] == payments[rows[i]].amount
  {
    seq(|rows|, i requires 0 <= i < |rows| => payments[rows[i]].amount)
  }

  function TakenRows(rows: seq<Id>, chosen: seq<nat>): set<Id> {
    set k | 0 <= k < |chosen| && chosen[k] < |rows| :: rows[chosen[k]]
  }

  /** UPDATE payments SET payoutId = id WHERE id IN taken */
  function Linked(payments: map<Id, Payment>, taken: set<Id>, id: Id): map<Id, Payment> {
    map p | p in payments :: if p in taken then payments[p].(payout := Some(id)) else payments[p]
  }

  /** Saving a new payout and linking these payments to it, in one transaction. */
  function WithPayout(w: World, payout: Payout, taken: set<Id>): World {
    w.(payouts := w.payouts[w.nextId := payout],
       payments := Linked(w.payments, taken, w.nextId),
       nextId := w.nextId + 1)
  }

  /** rows is what the query of the driver's withdrawable payments returned. */
  function RequestPayout(
      w: World, driver: Id, amount: int, hasEmail: bool, period: string, rows: seq<Id>): (World, Reply)
    requires IsAgeListing(w, driver, rows)
  {
    if amount <= 0 then (w, Refused(AmountInvalid))
    else if amount < MINIMUM_CENTS then (w, Refused(AmountTooLow))
    else
      match Withdrawal.Withdraw(AmountsOf(w.payments, rows), amount)
      case None => (w, Refused(AmountNotAvailable))
      case Some(taken) =>
        if !hasEmail then (w, Refused(InvalidPaypal))
        else
          var payout := Payout(driver, period, taken.total, PayoutPending, None, 0, None);
          (WithPayout(w, payout, TakenRows(rows, taken.chosen)), Withdrawn(w.nextId, taken.total))
  }

  // ---- monthly payouts ----

  /** PAID, in no payout yet, and paid within [start, end). */
  function Eligible(payments: map<Id, Payment>, start: int, end: int): set<Id> {
    set p | p in payments && Unclaimed(payments[p])
            && payments[p].paidAt.Some? && start <= payments[p].paidAt.value < end
  }

  /** The drivers of the rows, in order of first appearance. */
  function DriversOf(w: World, rows: seq<Id>): seq<Id>
    requires forall i :: 0 <= i < |rows| ==> rows[i] in w.payments
  {
    if rows == [] then [] else
    var before, owner := DriversOf(w, rows[..|rows| - 1]), DriverOf(w, rows[|rows| - 1]);
    if owner == None || owner.value in before then before else before + [owner.value]
  }

  lemma {:induction false} DriversDistinct(w: World, rows: seq<Id>)
    requires forall i :: 0 <= i < |rows| ==> rows[i] in w.payments
    ensures NoRepeats(DriversOf(w, rows))
    ensures forall p :: p in rows && DriverOf(w, p).Some? ==> DriverOf(w, p).value in DriversOf(w, rows)
    ensures forall d :: d in DriversOf(w, rows) ==> exists p :: p in rows && DriverOf(w, p) == Some(d)
    decreases |rows|
  {
    if rows != [] {
      hide DriverOf;
      var n := |rows| - 1;
      var init, last := rows[..n], rows[n];
      assert rows == init + [last];
      DriversDistinct(w, init);
      assert last in rows;
      forall d | d in DriversOf(w, rows)
        ensures exists p :: p in rows && DriverOf(w, p) == Some(d)
      {
        if d in DriversOf(w, init) {
          var p :| p in init && DriverOf(w, p) == Some(d);
          assert p in rows;
        }
      }
    }
  }

  /** A driver earlier in the list has a row before all rows of a later one. */
  lemma {:induction false} FirstAppearance(w: World, rows: seq<Id>, i: nat, j: nat)
    requires forall k :: 0 <= k < |rows| ==> rows[k] in w.payments
    requires i < j < |DriversOf(w, rows)|
    ensures var drivers := DriversOf(w, rows);
            exists k :: 0 <= k < |rows| && DriverOf(w, rows[k]) == Some(drivers[i])
                        && forall l :: 0 <= l <= k ==> DriverOf(w, rows[l]) != Some(drivers[j])
    decreases |rows|
  {
    hide DriverOf;
    var n := |rows| - 1;
    var drivers, before := DriversOf(w, rows), DriversOf(w, rows[..n]);
    assert forall k :: 0 <= k < n ==> rows[..n][k] == rows[k];
    if j < |before| {
      FirstAppearance(w, rows[..n], i, j);
      var k :| 0 <= k < n && DriverOf(w, rows[..n][k]) == Some(before[i])
               && forall l :: 0 <= l <= k ==> DriverOf(w, rows[..n][l]) != Some(before[j]);
      assert DriverOf(w, rows[k]) == Some(drivers[i]);
    } else {
      DriversDistinct(w, rows[..n]);
      assert before[i] in before;
      var p :| p in rows[..n] && DriverOf(w, p) == Some(before[i]);
      var k :| 0 <= k < n && rows[..n][k] == p;
      forall l | 0 <= l <= k ensures DriverOf(w, rows[l]) != Some(drivers[j]) { assert rows[..n][l] in rows[..n]; }
      assert DriverOf(w, rows[k]) == Some(drivers[i]);
    }
  }

  /** What the rows of one driver are worth together. */
  function GroupTotal(w: World, rows: seq<Id>, driver: Id): int
    requires forall i :: 0 <= i < |rows| ==> rows[i] in w.payments
  {
    if rows == [] then 0 else
    var last := rows[|rows| - 1];
    GroupTotal(w, rows[..|rows| - 1], driver) + if DriverOf(w, last) == Some(driver) then w.payments[last].amount else 0
  }

  function GroupRows(w: World, rows: seq<Id>, driver: Id): set<Id>
    requires forall i :: 0 <= i < |rows| ==> rows[i] in w.payments
  {
    set p | p in rows && DriverOf(w, p) == Some(driver)
  }

  function NewPayout(w: World, rows: seq<Id>, period: string, driver: Id): Payout
    requires forall i :: 0 <= i < |rows| ==> rows[i] in w.payments
  {
    Payout(driver, period, GroupTotal(w, rows, driver), PayoutPending, None, 0, None)
  }

  /** The transaction that creates the payouts of these drivers, one after the other. */
  function CreatePayouts(w: World, found: World, rows: seq<Id>, period: string, drivers: seq<Id>): World
    requires forall i :: 0 <= i < |rows| ==> rows[i] in found.payments
  {
    if drivers == [] then w else
    var before, driver := CreatePayouts(w, found, rows, period, drivers[..|drivers| - 1]), drivers[|drivers| - 1];
    WithPayout(before, NewPayout(found, rows, period, driver), GroupRows(found, rows, driver))
  }

  /** The place of a driver in a list without repetitions. */
  function IndexIn(drivers: seq<Id>, d: Id): (i: nat)
    requires d in drivers
    ensures i < |drivers| && drivers[i] == d
  {
    var n := |drivers| - 1;
    if drivers[n] == d then n else
    assert drivers == drivers[..n] + [drivers[n]];
    IndexIn(drivers[..n], d)
  }

  predicate AmongDrivers(found: World, rows: seq<Id>, drivers: seq<Id>, p: Id) {
    p in rows && p in found.payments && DriverOf(found, p).Some? && DriverOf(found, p).value in drivers
  }

  predicate NoRepeats(drivers: seq<Id>) {
    forall i, j :: 0 <= i < j < |drivers| ==> drivers[i] != drivers[j]
  }

  /** The transaction in one view: the i-th driver's payout gets the i-th new id. */
  lemma {:induction false} PayoutsCreated(w: World, found: World, rows: seq<Id>, period: string, drivers: seq<Id>)
    requires forall i :: 0 <= i < |rows| ==> rows[i] in found.payments
    ensures var after := CreatePayouts(w, found, rows, period, drivers);
            after == w.(payouts := after.payouts, payments := after.payments, nextId := w.nextId + |drivers|)
            && (forall id :: id in after.payouts <==> id in w.payouts || w.nextId <= id < w.nextId + |drivers|)
            && (forall id :: id in w.payouts && id < w.nextId ==> after.payouts[id] == w.payouts[id])
            && (forall id :: w.nextId <= id < w.nextId + |drivers| ==>
                  after.payouts[id] == NewPayout(found, rows, period, drivers[id - w.nextId]))
    decreases |drivers|
  {
    if drivers != [] {
      hide GroupTotal, GroupRows, DriverOf, Linked;
      PayoutsCreated(w, found, rows, period, drivers[..|drivers| - 1]);
    }
  }

  /** And the rows of the i-th driver, no others, point to it. */
  lemma {:induction false} PaymentLinked(w: World, found: World, rows: seq<Id>, period: string, drivers: seq<Id>, p: Id)
    requires forall i :: 0 <= i < |rows| ==> rows[i] in found.payments
    requires NoRepeats(drivers) && p in w.payments
    ensures var after := CreatePayouts(w, found, rows, period, drivers);
            after.nextId == w.nextId + |drivers| && p in after.payments
            && after.payments[p]
               == if AmongDrivers(found, rows, drivers, p)
                  then w.payments[p].(payout := Some(w.nextId + IndexIn(drivers, DriverOf(found, p).value)))
                  else w.payments[p]
    decreases |drivers|
  {
    if drivers != [] {
      hide NewPayout, DriverOf, GroupTotal;
      var n := |drivers| - 1;
      var init, last := drivers[..n], drivers[n];
      PaymentLinked(w, found, rows, period, init, p);
      assert drivers == init + [last];
      assert last !in init;
    }
  }

  lemma {:induction false} NoPaymentAppears(w: World, found: World, rows: seq<Id>, period: string, drivers: seq<Id>)
    requires forall i :: 0 <= i < |rows| ==> rows[i] in found.payments
    ensures CreatePayouts(w, found, rows, period, drivers).payments.Keys == w.payments.Keys
    decreases |drivers|
  {
    if drivers != [] {
      NoPaymentAppears(w, found, rows, period, drivers[..|drivers| - 1]);
    }
  }

  /** rows is what the query of the eligible payments returned. */
  function GeneratePayouts(w: World, period: string, start: int, end: int, rows: seq<Id>): (World, Reply)
    requires IsListing(rows, Eligible(w.payments, start, end))
  {
    var drivers := DriversOf(w, rows);
    (CreatePayouts(w, w, rows, period, drivers), Generated(|drivers|))
  }

  // ---- carrying a payout out ----

  function AfterBatch(payout: Payout, status: BatchStatus, now: int): Payout {
    match status
    case BatchSuccess => payout.(status := PayoutPaid, paidAt := Some(now))
    case BatchFailure => payout.(status := PayoutFailed)
    case BatchOther => payout
  }

  /** A payout that already has a batch can be sent again while it is pending. */
  function ExecutePayout(w: World, id: Id, hasEmail: bool, reply: BatchReply, now: int): (World, Reply) {
    if id !in w.payouts then (w, Refused(NotFound))
    else if w.payouts[id].status != PayoutPending then (w, Refused(PayoutNotPending))
    else if w.payouts[id].amount < MINIMUM_CENTS then (w, Refused(BelowMinimum))
    else if !hasEmail then (w, Refused(InvalidPaypal))
    else
      var sent := w.payouts[id].(attempts := w.payouts[id].attempts + 1);
      match reply
      case BatchError => (w.(payouts := w.payouts[id := sent.(status := PayoutFailed)]), Refused(PaymentFailed))
      case BatchAnswer(status, batch) =>
        (w.(payouts := w.payouts[id := AfterBatch(sent.(batch := batch), status, now)]), Done)
  }

  function Synced(payout: Payout, reply: BatchReply, now: int): Payout {
    if payout.status == PayoutPending && payout.batch.Some? && reply.BatchAnswer?
    then AfterBatch(payout, reply.status, now) else payout
  }

  function SyncPayouts(w: World, replies: map<Id, BatchReply>, now: int): World {
    w.(payouts := map id | id in w.payouts ::
         if id in replies then Synced(w.payouts[id], replies[id], now) else w.payouts[id])
  }

  /** There is no check on the status. */
  function FailPayout(w: World, id: Id): (World, Reply) {
    if id !in w.payouts then (w, Refused(NotFound))
    else
      var payout := w.payouts[id];
      (w.(payouts := w.payouts[id := payout.(status := PayoutFailed, attempts := payout.attempts + 1)]), Done)
  }

  /** At least five dollars, which the withdrawable payments make up, for a driver with a PayPal address. */
  ghost predicate CanWithdraw(w: World, amount: int, hasEmail: bool, rows: seq<Id>)
    requires forall i :: 0 <= i < |rows| ==> rows[i] in w.payments
  {
    amount >= 500 && hasEmail && Withdrawal.Withdraw(AmountsOf(w.payments, rows), amount).Some?
  }

  /** There is a new pending payout of the amount, the payments chosen for it point to it, nothing else changes. */
  ghost predicate WithdrawnOnly(before: World, after: World, driver: Id, amount: int, period: string, rows: seq<Id>)
    requires forall i :: 0 <= i < |rows| ==> rows[i] in before.payments
    requires Withdrawal.Withdraw(AmountsOf(before.payments, rows), amount).Some?
  {
    var id, chosen := before.nextId, Withdrawal.Withdraw(AmountsOf(before.payments, rows), amount).value.chosen;
    after.payouts == before.payouts[id := Payout(driver, period, amount, PayoutPending, None, 0, None)]
    && after.routes == before.routes && after.stops == before.stops && after.bookings == before.bookings
    && after.nextId == id + 1 && after.payments.Keys == before.payments.Keys
    && forall p :: p in before.payments ==>
         var taken := exists k :: 0 <= k < |chosen| && chosen[k] < |rows| && rows[chosen[k]] == p;
         after.payments[p] == if taken then before.payments[p].(payout := Some(id)) else before.payments[p]
  }

  lemma WithdrawingDoes(w: World, driver: Id, amount: int, hasEmail: bool, period: string, rows: seq<Id>)
    requires IsAgeListing(w, driver, rows)
    ensures var (after, reply) := RequestPayout(w, driver, amount, hasEmail, period, rows);
            (reply.Withdrawn? <==> CanWithdraw(w, amount, hasEmail, rows))
            && (reply.Withdrawn? ==> reply == Withdrawn(w.nextId, amount)
                                     && WithdrawnOnly(w, after, driver, amount, period, rows))
            && (!reply.Withdrawn? ==> reply.Refused? && after == w)
  {
    if amount > 0 { Withdrawal.WithdrawsExactly(AmountsOf(w.payments, rows), amount); }
    hide Withdrawal.Withdraw, AmountsOf;
    var taken := Withdrawal.Withdraw(AmountsOf(w.payments, rows), amount);
    if taken.Some? {
      assert forall p :: p in TakenRows(rows, taken.value.chosen) <==>
                         exists k :: 0 <= k < |taken.value.chosen| && taken.value.chosen[k] < |rows|
                                     && rows[taken.value.chosen[k]] == p;
      hide TakenRows;
    }
  }

  /** The payment was paid from `start` on and before `end`, is in no payout yet, and is for a ride with the driver. */
  predicate DueTo(w: World, p: Id, start: int, end: int, driver: Id)
    requires p in w.payments
  {
    w.payments[p].status == Paid && w.payments[p].payout == None && w.payments[p].paidAt.Some?
    && start <= w.payments[p].paidAt.value < end && RiddenWith(w, p, driver)
  }

  /** A new payout is pending, of this period, and of a driver to whom something is due. */
  ghost predicate NewAndDue(before: World, after: World, period: string, start: int, end: int, id: Id) {
    id in after.payouts &&
    var payout := after.payouts[id];
    payout == Payout(payout.driver, period, payout.amount, PayoutPending, None, 0, None)
    && exists p :: p in before.payments && DueTo(before, p, start, end, payout.driver)
  }

  /** A due payment points to a new payout of its driver, any other is the same. */
  ghost predicate LinkedIfDue(before: World, after: World, start: int, end: int, p: Id)
    requires p in before.payments
  {
    p in after.payments &&
    var link := after.payments[p].payout;
    if exists d :: DueTo(before, p, start, end, d) then
      after.payments[p] == before.payments[p].(payout := link)
      && link.Some? && before.nextId <= link.value < after.nextId && link.value in after.payouts
      && DueTo(before, p, start, end, after.payouts[link.value].driver)
    else after.payments[p] == before.payments[p]
  }

  /** There are new payouts, each of a driver of its own, for what is due, and nothing else changes. */
  ghost predicate GeneratedOnly(before: World, after: World, period: string, start: int, end: int) {
    after.routes == before.routes && after.stops == before.stops && after.bookings == before.bookings
    && before.nextId <= after.nextId && after.payments.Keys == before.payments.Keys
    && (forall id :: id in after.payouts <==> id in before.payouts || before.nextId <= id < after.nextId)
    && (forall id :: id in before.payouts && id < before.nextId ==> after.payouts[id] == before.payouts[id])
    && (forall id :: before.nextId <= id < after.nextId ==> NewAndDue(before, after, period, start, end, id))
    && (forall i, j :: before.nextId <= i < j < after.nextId ==> after.payouts[i].driver != after.payouts[j].driver)
    && (forall p :: p in before.payments ==> LinkedIfDue(before, after, start, end, p))
  }

  /** A pending payout of at least five dollars to a driver with a PayPal address. */
  predicate CanExecute(w: World, id: Id, hasEmail: bool) {
    id in w.payouts && w.payouts[id].status == PayoutPending && w.payouts[id].amount >= MINIMUM_CENTS && hasEmail
  }

  // ---- the service methods ----

  method SavePayout(db: Db, payout: Payout, taken: set<Id>) returns (id: Id)
    modifies db
    ensures id == old(db.nextId) && db.Contents() == WithPayout(old(db.Contents()), payout, taken)
  {
    id := db.FreshId();
    db.payouts := db.payouts[id := payout];
    if taken != {} {
      db.payments := Linked(db.payments, taken, id);
    } else {
      assert Linked(db.payments, taken, id) == db.payments;
    }
  }

  method RequestPayoutIn(db: Db, driver: Id, amount: int, hasEmail: bool, period: string)
    returns (reply: Reply, ghost rows: seq<Id>)
    modifies db
    ensures Withdrawable(old(db.Contents()), driver, rows) && IsAgeListing(old(db.Contents()), driver, rows)
    ensures reply.Withdrawn? <==> CanWithdraw(old(db.Contents()), amount, hasEmail, rows)
    ensures reply.Withdrawn? ==>
              reply == Withdrawn(old(db.nextId), amount)
              && WithdrawnOnly(old(db.Contents()), db.Contents(), driver, amount, period, rows)
    ensures !reply.Withdrawn? ==> reply.Refused? && db.Contents() == old(db.Contents())
    ensures (db.Contents(), reply) == RequestPayout(old(db.Contents()), driver, amount, hasEmail, period, rows)
  {
    var found := db.FindAvailable(driver);
    rows := found;
    WithdrawingDoes(db.Contents(), driver, amount, hasEmail, period, rows);
    hide CanWithdraw, WithdrawnOnly, Withdrawable;
    if amount <= 0 {
      return Refused(AmountInvalid), rows;
    }
    if amount < MINIMUM_CENTS {
      return Refused(AmountTooLow), rows;
    }
    var taken := Withdrawal.SelectPayments(AmountsOf(db.payments, found), amount);
    if taken.None? {
      return Refused(AmountNotAvailable), rows;
    }
    if !hasEmail {
      return Refused(InvalidPaypal), rows;
    }
    var payout := Payout(driver, period, taken.value.total, PayoutPending, None, 0, None);
    var id := SavePayout(db, payout, TakenRows(found, taken.value.chosen));
    return Withdrawn(id, taken.value.total), rows;
  }

  /** One entry of the Map that collects the payments of each driver. */
  datatype Group = Group(total: int, paymentIds: seq<Id>)

  function IdSet(ids: seq<Id>): set<Id> {
    set p | p in ids
  }

  ghost predicate GroupsAre(w: World, rows: seq<Id>, order: seq<Id>, grouped: map<Id, Group>)
    requires forall i :: 0 <= i < |rows| ==> rows[i] in w.payments
  {
    (forall d :: d in grouped <==> d in order)
    && (forall d :: d in grouped ==> grouped[d].total == GroupTotal(w, rows, d)
                                     && IdSet(grouped[d].paymentIds) == GroupRows(w, rows, d))
  }

  lemma {:induction false} GroupGrows(w: World, rows: seq<Id>, i: nat, d: Id)
    requires i < |rows| && forall j :: 0 <= j < |rows| ==> rows[j] in w.payments
    ensures var mine := DriverOf(w, rows[i]) == Some(d);
            GroupTotal(w, rows[..i + 1], d)
            == GroupTotal(w, rows[..i], d) + (if mine then w.payments[rows[i]].amount else 0)
            && GroupRows(w, rows[..i + 1], d) == GroupRows(w, rows[..i], d) + (if mine then {rows[i]} else {})
  {
    assert rows[..i + 1] == rows[..i] + [rows[i]];
  }

  /** A driver who does not appear has nothing. */
  lemma {:induction false} AbsentDriver(w: World, rows: seq<Id>, d: Id)
    requires forall j :: 0 <= j < |rows| ==> rows[j] in w.payments
    requires d !in DriversOf(w, rows)
    ensures GroupTotal(w, rows, d) == 0 && GroupRows(w, rows, d) == {}
    decreases |rows|
  {
    if rows != [] {
      var i := |rows| - 1;
      assert rows[..i + 1] == rows;
      AbsentDriver(w, rows[..i], d);
      GroupGrows(w, rows, i, d);
    }
  }

  method GroupByDriver(w: World, rows: seq<Id>) returns (order: seq<Id>, grouped: map<Id, Group>)
    requires forall i :: 0 <= i < |rows| ==> rows[i] in w.payments
    ensures order == DriversOf(w, rows) && GroupsAre(w, rows, order, grouped)
  {
    hide GroupTotal, GroupRows, DriverOf;
    order, grouped := [], map[];
    for i := 0 to |rows|
      invariant order == DriversOf(w, rows[..i]) && GroupsAre(w, rows[..i], order, grouped)
    {
      assert rows[..i + 1][..i] == rows[..i];
      forall d: Id
        ensures var mine := DriverOf(w, rows[i]) == Some(d);
                GroupTotal(w, rows[..i + 1], d)
                == GroupTotal(w, rows[..i], d) + (if mine then w.payments[rows[i]].amount else 0)
                && GroupRows(w, rows[..i + 1], d) == GroupRows(w, rows[..i], d) + (if mine then {rows[i]} else {})
      {
        GroupGrows(w, rows, i, d);
      }
      var owner := DriverOf(w, rows[i]);
      if owner.None? {
        continue;
      }
      var driver := owner.value;
      var current := Group(0, []);
      if driver in grouped {
        current := grouped[driver];
      } else {
        AbsentDriver(w, rows[..i], driver);
        order := order + [driver];
      }
      ghost var was := current.paymentIds;
      current := Group(current.total + w.payments[rows[i]].amount, current.paymentIds + [rows[i]]);
      assert IdSet(current.paymentIds) == IdSet(was) + {rows[i]};
      grouped := grouped[driver := current];
    }
    assert rows[..|rows|] == rows;
  }

  /** What the query of the eligible payments returns is what is due. */
  lemma RowsAreDue(w: World, start: int, end: int, rows: seq<Id>, p: Id, d: Id)
    requires IsListing(rows, Eligible(w.payments, start, end)) && p in w.payments
    ensures p in rows && DriverOf(w, p) == Some(d) <==> DueTo(w, p, start, end, d)
  {
    assert p in rows <==> p in Eligible(w.payments, start, end);
  }

  lemma EligibleRows(w: World, start: int, end: int, rows: seq<Id>)
    requires IsListing(rows, Eligible(w.payments, start, end))
    ensures forall i :: 0 <= i < |rows| ==> rows[i] in w.payments
  {
  }

  lemma NewPayoutIsDue(w: World, period: string, start: int, end: int, rows: seq<Id>, id: Id)
    requires IsListing(rows, Eligible(w.payments, start, end))
    requires w.nextId <= id < GeneratePayouts(w, period, start, end, rows).0.nextId
    ensures NewAndDue(w, GeneratePayouts(w, period, start, end, rows).0, period, start, end, id)
  {
    hide CreatePayouts, DriversOf, GroupTotal, Eligible, DueTo, DriverOf;
    EligibleRows(w, start, end, rows);
    var drivers := DriversOf(w, rows);
    PayoutsCreated(w, w, rows, period, drivers);
    DriversDistinct(w, rows);
    assert drivers[id - w.nextId] in drivers;
    var p :| p in rows && DriverOf(w, p) == Some(drivers[id - w.nextId]);
    RowsAreDue(w, start, end, rows, p, drivers[id - w.nextId]);
  }

  lemma OwnerIsDue(w: World, start: int, end: int, rows: seq<Id>, p: Id)
    requires IsListing(rows, Eligible(w.payments, start, end)) && p in w.payments
    ensures p in rows && DriverOf(w, p).Some? <==> exists d :: DueTo(w, p, start, end, d)
    ensures p in rows && DriverOf(w, p).Some? ==> DueTo(w, p, start, end, DriverOf(w, p).value)
  {
    hide Eligible, DueTo, DriverOf;
    if p in rows && DriverOf(w, p).Some? { RowsAreDue(w, start, end, rows, p, DriverOf(w, p).value); }
    if d: Id :| DueTo(w, p, start, end, d) { RowsAreDue(w, start, end, rows, p, d); }
  }

  lemma DueIsLinked(w: World, period: string, start: int, end: int, rows: seq<Id>, p: Id)
    requires IsListing(rows, Eligible(w.payments, start, end)) && p in w.payments
    ensures LinkedIfDue(w, GeneratePayouts(w, period, start, end, rows).0, start, end, p)
  {
    hide CreatePayouts, DriversOf, GroupTotal, Eligible, DueTo, DriverOf, NoRepeats;
    EligibleRows(w, start, end, rows);
    var drivers := DriversOf(w, rows);
    PayoutsCreated(w, w, rows, period, drivers);
    DriversDistinct(w, rows);
    PaymentLinked(w, w, rows, period, drivers, p);
    OwnerIsDue(w, start, end, rows, p);
  }

  lemma GeneratingDoes(w: World, period: string, start: int, end: int, rows: seq<Id>)
    requires IsListing(rows, Eligible(w.payments, start, end))
    ensures var (after, reply) := GeneratePayouts(w, period, start, end, rows);
            GeneratedOnly(w, after, period, start, end) && reply == Generated(after.nextId - w.nextId)
  {
    hide CreatePayouts, DriversOf, GroupTotal, Eligible, DueTo, DriverOf, NewAndDue, LinkedIfDue;
    EligibleRows(w, start, end, rows);
    var drivers := DriversOf(w, rows);
    var after := GeneratePayouts(w, period, start, end, rows).0;
    DriversDistinct(w, rows);
    PayoutsCreated(w, w, rows, period, drivers);
    NoPaymentAppears(w, w, rows, period, drivers);
    forall p | p in w.payments ensures LinkedIfDue(w, after, start, end, p) {
      DueIsLinked(w, period, start, end, rows, p);
    }
    forall id | w.nextId <= id < after.nextId ensures NewAndDue(w, after, period, start, end, id) {
      NewPayoutIsDue(w, period, start, end, rows, id);
    }
  }

  method GeneratePayoutsIn(db: Db, period: string, start: int, end: int, rows: seq<Id>) returns (reply: Reply)
    requires IsListing(rows, Eligible(db.payments, start, end))
    modifies db
    ensures GeneratedOnly(old(db.Contents()), db.Contents(), period, start, end)
    ensures reply == Generated(db.nextId - old(db.nextId))
    ensures (db.Contents(), reply) == GeneratePayouts(old(db.Contents()), period, start, end, rows)
  {
    GeneratingDoes(db.Contents(), period, start, end, rows);
    hide GeneratedOnly;
    var drivers, grouped := GroupByDriver(db.Contents(), rows);
    var created := CreatePayoutsIn(db, db.Contents(), rows, period, drivers, grouped);
    return Generated(created);
  }

  /** The transaction: one payout after the other, for what was found before it began. */
  method CreatePayoutsIn(
      db: Db, ghost found: World, ghost rows: seq<Id>, period: string, drivers: seq<Id>, grouped: map<Id, Group>)
    returns (created: nat)
    requires forall j :: 0 <= j < |rows| ==> rows[j] in found.payments
    requires GroupsAre(found, rows, drivers, grouped)
    modifies db
    ensures db.Contents() == CreatePayouts(old(db.Contents()), found, rows, period, drivers) && created == |drivers|
  {
    hide GroupTotal, GroupRows, WithPayout;
    created := 0;
    for i := 0 to |drivers|
      invariant db.Contents() == CreatePayouts(old(db.Contents()), found, rows, period, drivers[..i]) && created == i
    {
      var prefix := drivers[..i + 1];
      assert prefix[..|prefix| - 1] == drivers[..i] && prefix[|prefix| - 1] == drivers[i];
      var group := grouped[drivers[i]];
      var payout := Payout(drivers[i], period, group.total, PayoutPending, None, 0, None);
      assert payout == NewPayout(found, rows, period, drivers[i]);
      var id := SavePayout(db, payout, IdSet(group.paymentIds));
      created := created + 1;
    }
    assert drivers[..|drivers|] == drivers;
  }

  method ExecutePayoutIn(db: Db, id: Id, hasEmail: bool, answer: BatchReply, now: int) returns (reply: Reply)
    modifies db
    ensures reply == Done <==> CanExecute(old(db.Contents()), id, hasEmail) && answer.BatchAnswer?
    ensures !CanExecute(old(db.Contents()), id, hasEmail) ==> reply.Refused? && db.Contents() == old(db.Contents())
    ensures CanExecute(old(db.Contents()), id, hasEmail) ==>
              id in db.payouts &&
              var before, after := old(db.payouts)[id], db.payouts[id];
              db.Contents() == old(db.Contents()).(payouts := old(db.payouts)[id := after])
              && after.attempts == before.attempts + 1
              && (after.driver, after.period, after.amount) == (before.driver, before.period, before.amount)
              && after.batch == (if reply == Done then answer.batch else before.batch)
              && (after.status == PayoutPaid <==> reply == Done && answer.status == BatchSuccess)
              && (after.status == PayoutPending <==> reply == Done && answer.status == BatchOther)
              && after.paidAt == (if after.status == PayoutPaid then Some(now) else before.paidAt)
    ensures (db.Contents(), reply) == ExecutePayout(old(db.Contents()), id, hasEmail, answer, now)
  {
    if id !in db.payouts {
      return Refused(NotFound);
    }
    var payout := db.payouts[id];
    if payout.status != PayoutPending {
      return Refused(PayoutNotPending);
    }
    if payout.amount < MINIMUM_CENTS {
      return Refused(BelowMinimum);
    }
    if !hasEmail {
      return Refused(InvalidPaypal);
    }
    payout := payout.(attempts := payout.attempts + 1);
    if answer.BatchError? {
      payout := payout.(status := PayoutFailed);
      db.payouts := db.payouts[id := payout];
      return Refused(PaymentFailed);
    }
    payout := payout.(batch := answer.batch);
    if answer.status == BatchSuccess {
      payout := payout.(status := PayoutPaid, paidAt := Some(now));
    } else if answer.status == BatchFailure {
      payout := payout.(status := PayoutFailed);
    }
    db.payouts := db.payouts[id := payout];
    return Done;
  }

  /** Each payout that waits for its batch is asked about and saved on its own. */
  method SyncPayoutsIn(db: Db, replies: map<Id, BatchReply>, now: int)
    modifies db
    ensures db.Contents() == old(db.Contents()).(payouts := db.payouts) && db.payouts.Keys == old(db.payouts).Keys
    ensures forall id :: id in db.payouts ==>
              var payout := old(db.payouts)[id];
              var asked := payout.status == PayoutPending && payout.batch.Some? && id in replies
                           && replies[id].BatchAnswer?;
              db.payouts[id] ==
              if asked && replies[id].status == BatchSuccess then payout.(status := PayoutPaid, paidAt := Some(now))
              else if asked && replies[id].status == BatchFailure then payout.(status := PayoutFailed)
              else payout
    ensures db.Contents() == SyncPayouts(old(db.Contents()), replies, now)
  {
    ghost var before := db.payouts;
    var waiting := set id | id in db.payouts && db.payouts[id].status == PayoutPending && db.payouts[id].batch.Some?;
    var left := waiting;
    while left != {}
      invariant left <= waiting
      invariant db.Contents() == old(db.Contents()).(payouts := db.payouts) && db.payouts.Keys == before.Keys
      invariant forall id :: id in before ==>
                  db.payouts[id] == if id in waiting - left && id in replies
                                    then Synced(before[id], replies[id], now) else before[id]
    {
      var id :| id in left;
      if id in replies && replies[id].BatchAnswer? {
        var payout := db.payouts[id];
        if replies[id].status == BatchSuccess {
          payout := payout.(status := PayoutPaid, paidAt := Some(now));
          db.payouts := db.payouts[id := payout];
        } else if replies[id].status == BatchFailure {
          payout := payout.(status := PayoutFailed);
          db.payouts := db.payouts[id := payout];
        }
      }
      left := left - {id};
    }
  }

  method FailPayoutIn(db: Db, id: Id) returns (reply: Reply)
    modifies db
    ensures reply == Done <==> id in old(db.payouts)
    ensures reply != Done ==> reply.Refused? && db.Contents() == old(db.Contents())
    ensures reply == Done ==>
              id in db.payouts && db.Contents() == old(db.Contents()).(payouts := old(db.payouts)[id := db.payouts[id]])
              && db.payouts[id] == old(db.payouts)[id].(
                   status := PayoutFailed, attempts := old(db.payouts)[id].attempts + 1)
    ensures (db.Contents(), reply) == FailPayout(old(db.Contents()), id)
  {
    if id !in db.payouts {
      return Refused(NotFound);
    }
    var payout := db.payouts[id];
    payout := payout.(status := PayoutFailed);
    payout := payout.(attempts := payout.attempts + 1);
    db.payouts := db.payouts[id := payout];
    return Done;
  }
}
