/** The database as an object that the service methods update. */
module Database {
  import opened Wrappers
  import opened Domain
  import opened StopPlan

  class Db {
    var routes: map<Id, Route>
    var stops: map<Id, Stop>
    var bookings: map<Id, Booking>
    var payments: map<Id, Payment>
    var payouts: map<Id, Payout>
    var nextId: Id

    constructor ()
      ensures Contents() == EmptyWorld
    {
      routes, stops, bookings, payments, payouts, nextId := map[], map[], map[], map[], map[], 0;
    }

    function Contents(): World
      reads this
    {
      World(routes, stops, bookings, payments, payouts, nextId)
    }

    method FreshId() returns (id: Id)
      modifies this`nextId
      ensures id == old(nextId) && nextId == id + 1
    {
      id := nextId;
      nextId := nextId + 1;
    }

    /** The stops of a route, ORDER BY orden ASC. */
    method FindStops(r: Id) returns (rows: seq<Id>)
      ensures forall s :: s in rows <==> s in stops && stops[s].route == r
      ensures forall i, j :: 0 <= i < j < |rows| ==>
                rows[i] != rows[j] && stops[rows[i]].orden <= stops[rows[j]].orden
      ensures IsOrderedListing(stops, r, rows)
    {
      rows := [];
      var left := StopsOn(stops, r);
      while left != {}
        invariant left <= StopsOn(stops, r)
        invariant IsListing(rows, StopsOn(stops, r) - left)
        invariant forall i, j :: 0 <= i < j < |rows| ==> stops[rows[i]].orden <= stops[rows[j]].orden
        invariant forall i, s :: 0 <= i < |rows| && s in left ==> stops[rows[i]].orden <= stops[s].orden
      {
        LowestExists(stops, left);
        var s :| s in left && forall t :: t in left ==> stops[s].orden <= stops[t].orden;
        ListingExtended(rows, StopsOn(stops, r) - left, s);
        assert StopsOn(stops, r) - left + {s} == StopsOn(stops, r) - (left - {s});
        rows, left := rows + [s], left - {s};
      }
      assert StopsOn(stops, r) - {} == StopsOn(stops, r);
    }

    /** The payments a driver can withdraw, ORDER BY paidAt ASC. */
    method FindAvailable(driver: Id) returns (rows: seq<Id>)
      ensures Withdrawable(Contents(), driver, rows)
      ensures IsAgeListing(Contents(), driver, rows)
    {
      hide Withdrawable, DriverOf;
      rows := [];
      var ids := AvailableTo(Contents(), driver);
      var left := ids;
      while left != {}
        invariant left <= ids
        invariant IsListing(rows, ids - left)
        invariant forall i, j :: 0 <= i < j < |rows| ==> Age(payments[rows[i]]) <= Age(payments[rows[j]])
        invariant forall i, p :: 0 <= i < |rows| && p in left ==> Age(payments[rows[i]]) <= Age(payments[p])
      {
        OldestExists(payments, left);
        var p :| p in left && forall q :: q in left ==> Age(payments[p]) <= Age(payments[q]);
        ListingExtended(rows, ids - left, p);
        assert ids - left + {p} == ids - (left - {p});
        rows, left := rows + [p], left - {p};
      }
      assert ids - {} == ids;
      ListingIsWithdrawable(Contents(), driver, rows);
    }
  }

  lemma ListingExtended(rows: seq<Id>, ids: set<Id>, x: Id)
    requires IsListing(rows, ids) && x !in ids
    ensures IsListing(rows + [x], ids + {x})
  {
  }

  /** Payments sort by the time they were paid; SQL puts a missing time last, no row here lacks it. */
  function Age(payment: Payment): int {
    if payment.paidAt.Some? then payment.paidAt.value else 0
  }

  /** The driver's withdrawable payments, each once, oldest first; ties in any order. */
  predicate IsAgeListing(w: World, driver: Id, rows: seq<Id>) {
    IsListing(rows, AvailableTo(w, driver))
    && forall i, j :: 0 <= i < j < |rows| ==> Age(w.payments[rows[i]]) <= Age(w.payments[rows[j]])
  }

  /** All paid payments in no payout yet for rides with this driver, each once, by the time they were paid. */
  ghost predicate Withdrawable(w: World, driver: Id, rows: seq<Id>) {
    (forall p :: p in rows <==>
       p in w.payments && w.payments[p].status == Paid && w.payments[p].payout == None && RiddenWith(w, p, driver))
    && (forall i, j :: 0 <= i < j < |rows| ==> rows[i] != rows[j])
    && (forall i, j :: 0 <= i < j < |rows| && w.payments[rows[i]].paidAt.Some? && w.payments[rows[j]].paidAt.Some? ==>
          w.payments[rows[i]].paidAt.value <= w.payments[rows[j]].paidAt.value)
  }

  lemma ListingIsWithdrawable(w: World, driver: Id, rows: seq<Id>)
    requires IsAgeListing(w, driver, rows)
    ensures Withdrawable(w, driver, rows)
  {
    assert forall p :: p in AvailableTo(w, driver) <==>
                       p in w.payments && Unclaimed(w.payments[p]) && DriverOf(w, p) == Some(driver);
    forall i, j | 0 <= i < j < |rows| && w.payments[rows[i]].paidAt.Some? && w.payments[rows[j]].paidAt.Some?
      ensures w.payments[rows[i]].paidAt.value <= w.payments[rows[j]].paidAt.value
    {
      assert Age(w.payments[rows[i]]) <= Age(w.payments[rows[j]]);
    }
    hide AvailableTo, Age;
  }

  lemma {:induction false} OldestExists(payments: map<Id, Payment>, ids: set<Id>)
    requires ids <= payments.Keys && ids != {}
    ensures exists p :: p in ids && forall q :: q in ids ==> Age(payments[p]) <= Age(payments[q])
    decreases ids
  {
    var x :| x in ids;
    if ids == {x} {
    } else {
      OldestExists(payments, ids - {x});
      var y :| y in ids - {x} && forall q :: q in ids - {x} ==> Age(payments[y]) <= Age(payments[q]);
      var z := if Age(payments[x]) <= Age(payments[y]) then x else y;
      assert forall q :: q in ids ==> q == x || q in ids - {x};
      assert z in ids && forall q :: q in ids ==> Age(payments[z]) <= Age(payments[q]);
    }
  }
}
