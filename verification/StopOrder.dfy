/** The numbering of a route's stops: inserting and removing rows of the stop table, after
    insertPickupStop and removePickupStop in src/modules/bookings/bookings.service.ts and
    addRouteStop in src/modules/routes/routes.service.ts. */
module StopOrder {
  import opened Domain
  import opened StopPlan

  /** The stops of route r numbered from `start` on, all moved by the same amount. */
  function Shifted(stops: map<Id, Stop>, r: Id, start: int, step: int): map<Id, Stop> {
    map s | s in stops ::
      if stops[s].route == r && stops[s].orden >= start then stops[s].(orden := stops[s].orden + step) else stops[s]
  }

  /** The number that the planner gives a new stop of route r at p. */
  ghost function PlannedOrder(dist: Distance, stops: map<Id, Stop>, r: Id, p: Place): (order: nat)
    ensures order >= 1
  {
    NewOrder(dist, RowsFrom(stops, StopListing(stops, r)), p)
  }

  ghost function Inserted(dist: Distance, stops: map<Id, Stop>, r: Id, p: Place, id: Id): map<Id, Stop> {
    var order := PlannedOrder(dist, stops, r, p);
    Shifted(stops, r, order, 1)[id := Stop(r, p, order)]
  }

  /** Deleting stop s of route r, if it is there, and closing the gap. */
  function Removed(stops: map<Id, Stop>, r: Id, s: Id): map<Id, Stop> {
    if s in stops && stops[s].route == r then Shifted(stops - {s}, r, stops[s].orden + 1, -1) else stops
  }

  /** Route r has a new stop at p; its stops from the number of the new one on are one further, all others the same. */
  ghost predicate StopAdded(before: map<Id, Stop>, after: map<Id, Stop>, r: Id, p: Place, id: Id) {
    after.Keys == before.Keys + {id} && after[id] == Stop(r, p, after[id].orden)
    && forall s :: s in before && s != id ==>
         after[s] == if before[s].route == r && before[s].orden >= after[id].orden
                     then before[s].(orden := before[s].orden + 1) else before[s]
  }

  /** Stop `id` of route r is gone and its later stops are one number lower; without such a stop nothing changes. */
  ghost predicate StopTakenOut(before: map<Id, Stop>, after: map<Id, Stop>, r: Id, id: Id) {
    if id in before && before[id].route == r then
      after.Keys == before.Keys - {id}
      && forall s :: s in after ==>
           after[s] == if before[s].route == r && before[s].orden > before[id].orden
                       then before[s].(orden := before[s].orden - 1) else before[s]
    else after == before
  }

  lemma InsertedAdds(dist: Distance, stops: map<Id, Stop>, r: Id, p: Place, id: Id)
    requires id !in stops
    ensures StopAdded(stops, Inserted(dist, stops, r, p, id), r, p, id)
  {
    hide PlannedOrder;
  }

  lemma RemovedTakesOut(stops: map<Id, Stop>, r: Id, id: Id)
    ensures StopTakenOut(stops, Removed(stops, r, id), r, id)
  {
  }

  /** Route r has stops numbered 1..n, each number once. */
  ghost predicate NumberedTo(stops: map<Id, Stop>, r: Id, n: nat) {
    (forall s :: s in StopsOn(stops, r) ==> 1 <= stops[s].orden <= n)
    && UniqueOrdersOn(stops, r)
    && |StopsOn(stops, r)| == n
  }

  ghost predicate UniqueOrdersOn(stops: map<Id, Stop>, r: Id) {
    forall s, t :: s in StopsOn(stops, r) && t in StopsOn(stops, r) && s != t ==> stops[s].orden != stops[t].orden
  }

  /** In a numbering 1..n the i-th stop of the listing has number i + 1. */
  lemma ListingNumbers(stops: map<Id, Stop>, r: Id, n: nat, rows: seq<Id>)
    requires NumberedTo(stops, r, n) && IsOrderedListing(stops, r, rows)
    ensures |rows| == n && forall i :: 0 <= i < n ==> stops[rows[i]].orden == i + 1
  {
    ListingLength(rows, StopsOn(stops, r));
    forall i | 0 <= i < n
      ensures stops[rows[i]].orden == i + 1
    {
      AtLeast(stops, r, n, rows, i);
      AtMost(stops, r, n, rows, i);
    }
  }

  lemma {:induction false} AtLeast(stops: map<Id, Stop>, r: Id, n: nat, rows: seq<Id>, i: nat)
    requires NumberedTo(stops, r, n) && IsOrderedListing(stops, r, rows) && i < |rows| == n
    ensures stops[rows[i]].orden >= i + 1
  {
    if i > 0 {
      AtLeast(stops, r, n, rows, i - 1);
    }
  }

  lemma {:induction false} AtMost(stops: map<Id, Stop>, r: Id, n: nat, rows: seq<Id>, i: nat)
    requires NumberedTo(stops, r, n) && IsOrderedListing(stops, r, rows) && i < |rows| == n
    ensures stops[rows[i]].orden <= i + 1
    decreases n - i
  {
    if i < n - 1 {
      AtMost(stops, r, n, rows, i + 1);
    }
  }

  /** A listing whose i-th stop has number i + 1 shows the numbering. */
  lemma NumberingFromListing(stops: map<Id, Stop>, r: Id, rows: seq<Id>)
    requires IsListing(rows, StopsOn(stops, r))
    requires forall i :: 0 <= i < |rows| ==> stops[rows[i]].orden == i + 1
    ensures NumberedTo(stops, r, |rows|) && IsOrderedListing(stops, r, rows)
  {
    ListingLength(rows, StopsOn(stops, r));
    forall s | s in StopsOn(stops, r)
      ensures 1 <= stops[s].orden <= |rows| && rows[stops[s].orden - 1] == s
    {
      var i :| 0 <= i < |rows| && rows[i] == s;
    }
  }

  // ---- inserting ----

  /** Putting a stop in at position k of a listing. */
  function WithInserted(rows: seq<Id>, k: nat, id: Id): seq<Id>
    requires k <= |rows|
  {
    rows[..k] + [id] + rows[k..]
  }

  lemma NumberedUnique(stops: map<Id, Stop>, r: Id, n: nat)
    requires NumberedTo(stops, r, n)
    ensures UniqueOrdersOn(stops, r)
  {
  }

  lemma InsertedOrders(stops: map<Id, Stop>, r: Id, rows: seq<Id>, order: nat, p: Place, id: Id)
    requires IsListing(rows, StopsOn(stops, r)) && id !in stops && 1 <= order <= |rows| + 1
    requires forall i :: 0 <= i < |rows| ==> stops[rows[i]].orden == i + 1
    ensures var after := Shifted(stops, r, order, 1)[id := Stop(r, p, order)];
            var grown := WithInserted(rows, order - 1, id);
            StopsOn(after, r) == StopsOn(stops, r) + {id}
            && forall i :: 0 <= i < |grown| ==> grown[i] in after && after[grown[i]].orden == i + 1
  {
    var after := Shifted(stops, r, order, 1)[id := Stop(r, p, order)];
    var grown := WithInserted(rows, order - 1, id);
    forall i | 0 <= i < |grown|
      ensures grown[i] in after && after[grown[i]].orden == i + 1
    {
      if i != order - 1 {
        var x := if i < order - 1 then rows[i] else rows[i - 1];
        assert grown[i] == x && x in StopsOn(stops, r);
      }
    }
  }

  /** Whatever number 1..n+1 the new stop gets, the numbers stay dense and the listing gets it at that place. */
  lemma InsertionNumbers(stops: map<Id, Stop>, r: Id, n: nat, rows: seq<Id>, order: nat, p: Place, id: Id)
    requires NumberedTo(stops, r, n) && IsOrderedListing(stops, r, rows) && id !in stops
    requires 1 <= order <= |rows| + 1
    ensures var after := Shifted(stops, r, order, 1)[id := Stop(r, p, order)];
            NumberedTo(after, r, n + 1) && StopListing(after, r) == WithInserted(rows, order - 1, id)
  {
    hide StopListing, NumberedTo;
    var after := Shifted(stops, r, order, 1)[id := Stop(r, p, order)];
    ListingNumbers(stops, r, n, rows);
    var grown := WithInserted(rows, order - 1, id);
    InsertedListing(rows, StopsOn(stops, r), order - 1, id);
    InsertedOrders(stops, r, rows, order, p, id);
    assert |grown| == n + 1;
    hide Shifted, WithInserted, IsOrderedListing, UniqueOrdersOn, StopsOn;
    NumberingFromListing(after, r, grown);
    NumberedUnique(after, r, |grown|);
    ListingDetermined(after, r, StopListing(after, r), grown);
  }

  /** Insertion into the table is insertion into the sequence of stops: the numbers stay dense, the old stops keep
      their order, the ends of a route stay its ends, and the new stop stands in the first gap of least detour. */
  lemma InsertionRefines(dist: Distance, stops: map<Id, Stop>, r: Id, n: nat, p: Place, id: Id)
    requires NumberedTo(stops, r, n) && id !in stops
    ensures var after := Inserted(dist, stops, r, p, id);
            var rows := StopListing(stops, r);
            var k := PlannedOrder(dist, stops, r, p) - 1;
            |rows| == n && k <= n
            && NumberedTo(after, r, n + 1)
            && StopListing(after, r) == WithInserted(rows, k, id)
            && (n >= 2 ==> 1 <= k <= n - 1 && FirstBestGap(dist, RowsFrom(stops, rows), p, n - 1, k - 1))
  {
    hide Shifted, StopListing, FirstBestGap, NumberedTo, StopsOn, WithInserted, NewOrder;
    var rows := StopListing(stops, r);
    ListingNumbers(stops, r, n, rows);
    InsertionNumbers(stops, r, n, rows, PlannedOrder(dist, stops, r, p), p, id);
  }

  lemma InsertedListing(rows: seq<Id>, ids: set<Id>, k: nat, id: Id)
    requires IsListing(rows, ids) && k <= |rows| && id !in ids
    ensures IsListing(WithInserted(rows, k, id), ids + {id})
  {
    var grown := WithInserted(rows, k, id);
    forall x | x in ids + {id}
      ensures x in grown
    {
      if x == id {
        assert grown[k] == id;
      } else {
        var i :| 0 <= i < |rows| && rows[i] == x;
        assert grown[if i < k then i else i + 1] == x;
      }
    }
  }

  lemma ListingDetermined(stops: map<Id, Stop>, r: Id, a: seq<Id>, b: seq<Id>)
    requires UniqueOrdersOn(stops, r)
    requires IsOrderedListing(stops, r, a) && IsOrderedListing(stops, r, b)
    ensures a == b
  {
    var own := map s | s in StopsOn(stops, r) :: stops[s];
    assert StopsOn(own, r) == StopsOn(stops, r);
    OrderedListingUnique(own, r, a, b);
  }

  // ---- removing ----

  lemma ShiftedBack(stops: map<Id, Stop>, r: Id, order: int, p: Place, id: Id)
    requires id !in stops
    ensures Removed(Shifted(stops, r, order, 1)[id := Stop(r, p, order)], r, id) == stops
  {
    var shifted := Shifted(stops, r, order, 1);
    var after := shifted[id := Stop(r, p, order)];
    var back := Removed(after, r, id);
    assert after - {id} == shifted;
    assert back == Shifted(shifted, r, order + 1, -1);
    assert back.Keys == stops.Keys;
    forall s | s in stops ensures back[s] == stops[s] {}
  }

  /** Removing a stop right after inserting it gives back the very same table. */
  lemma RemovalUndoesInsertion(dist: Distance, stops: map<Id, Stop>, r: Id, p: Place, id: Id)
    requires id !in stops
    ensures Removed(Inserted(dist, stops, r, p, id), r, id) == stops
  {
    hide PlannedOrder;
    ShiftedBack(stops, r, PlannedOrder(dist, stops, r, p), p, id);
  }

  function Without(rows: seq<Id>, k: nat): seq<Id>
    requires k < |rows|
  {
    rows[..k] + rows[k + 1..]
  }

  /** Removing a stop takes it out of the sequence of stops and keeps the numbers dense. */
  lemma RemovalRefines(stops: map<Id, Stop>, r: Id, n: nat, s: Id)
    requires NumberedTo(stops, r, n) && s in StopsOn(stops, r)
    ensures var after := Removed(stops, r, s);
            var k := stops[s].orden - 1;
            0 <= k < |StopListing(stops, r)|
            && NumberedTo(after, r, n - 1)
            && StopListing(after, r) == Without(StopListing(stops, r), k)
  {
    hide StopListing;
    var after := Removed(stops, r, s);
    var rows := StopListing(stops, r);
    ListingNumbers(stops, r, n, rows);
    var k := stops[s].orden - 1;
    var shrunk := Without(rows, k);
    assert rows[k] == s by {
      var i :| 0 <= i < |rows| && rows[i] == s;
    }
    assert StopsOn(after, r) == StopsOn(stops, r) - {s};
    ShrunkListing(rows, StopsOn(stops, r), k);
    forall i | 0 <= i < |shrunk|
      ensures after[shrunk[i]].orden == i + 1
    {
      assert shrunk[i] in stops && stops[shrunk[i]].orden == if i < k then i + 1 else i + 2;
    }
    NumberingFromListing(after, r, shrunk);
    ListingDetermined(after, r, StopListing(after, r), shrunk);
  }

  lemma ShrunkListing(rows: seq<Id>, ids: set<Id>, k: nat)
    requires IsListing(rows, ids) && k < |rows|
    ensures IsListing(Without(rows, k), ids - {rows[k]})
  {
    var shrunk := Without(rows, k);
    forall x | x in ids - {rows[k]}
      ensures x in shrunk
    {
      var i :| 0 <= i < |rows| && rows[i] == x;
      assert shrunk[if i < k then i else i - 1] == x;
    }
  }

  // ---- saving the moved rows one at a time ----

  /** The table after the new numbers of these rows were saved, in this order. */
  function Saved(stops: map<Id, Stop>, updates: seq<Row>): (after: map<Id, Stop>)
    ensures after.Keys == stops.Keys
  {
    if updates == [] then stops else
    var u, before := updates[|updates| - 1], Saved(stops, updates[..|updates| - 1]);
    if u.id in before then before[u.id := before[u.id].(orden := u.orden)] else before
  }

  lemma SavedNext(stops: map<Id, Stop>, updates: seq<Row>, i: nat)
    requires i < |updates|
    ensures var before, u := Saved(stops, updates[..i]), updates[i];
            Saved(stops, updates[..i + 1]) ==
            if u.id in before then before[u.id := before[u.id].(orden := u.orden)] else before
  {
    assert updates[..i + 1][..i] == updates[..i];
  }

  predicate Distinct(ids: seq<Id>) {
    forall i, j :: 0 <= i < j < |ids| ==> ids[i] != ids[j]
  }

  predicate RowsIn(stops: map<Id, Stop>, ids: seq<Id>) {
    Distinct(ids) && forall id :: id in ids ==> id in stops
  }

  /** The rows before the last, which is not among them. */
  lemma LastRow(stops: map<Id, Stop>, ids: seq<Id>)
    requires RowsIn(stops, ids) && ids != []
    ensures var m := |ids| - 1;
            var rows := RowsFrom(stops, ids);
            RowsIn(stops, ids[..m]) && rows[..m] == RowsFrom(stops, ids[..m])
            && rows[m] == Row(ids[m], stops[ids[m]].place, stops[ids[m]].orden)
            && forall s :: s in ids <==> s in ids[..m] || s == ids[m]
    ensures ids[|ids| - 1] !in ids[..|ids| - 1]
  {
    var m := |ids| - 1;
    assert ids == ids[..m] + [ids[m]];
    assert RowsFrom(stops, ids)[..m] == RowsFrom(stops, ids[..m]);
  }

  lemma {:induction false} SavedMovedDown(stops: map<Id, Stop>, ids: seq<Id>, gap: int)
    requires RowsIn(stops, ids)
    ensures forall s :: s in stops ==>
              Saved(stops, MovedDown(RowsFrom(stops, ids), gap))[s]
              == if s in ids && stops[s].orden > gap then stops[s].(orden := stops[s].orden - 1) else stops[s]
    decreases |ids|
  {
    if ids != [] {
      hide Saved, MovedDown, Distinct;
      LastRow(stops, ids);
      SavedMovedDown(stops, ids[..|ids| - 1], gap);
      LastMovedDown(stops, RowsFrom(stops, ids), gap);
    }
  }

  /** The last row, if it is behind the gap, is saved with its number lowered. */
  lemma LastMovedDown(stops: map<Id, Stop>, rows: seq<Row>, gap: int)
    requires rows != []
    ensures var m := |rows| - 1;
            var before, last := Saved(stops, MovedDown(rows[..m], gap)), rows[m];
            Saved(stops, MovedDown(rows, gap))
            == if last.orden > gap && last.id in before
               then before[last.id := before[last.id].(orden := last.orden - 1)] else before
  {
    var m := |rows| - 1;
    var before, last := MovedDown(rows[..m], gap), rows[m];
    if last.orden > gap {
      assert (before + [last.(orden := last.orden - 1)])[..|before|] == before;
    } else {
      assert before + [] == before;
    }
  }

  lemma {:induction false} SavedMovedUp(stops: map<Id, Stop>, ids: seq<Id>, start: int)
    requires RowsIn(stops, ids)
    ensures forall s :: s in stops ==>
              Saved(stops, MovedUp(RowsFrom(stops, ids), start))[s]
              == if s in ids && stops[s].orden >= start then stops[s].(orden := stops[s].orden + 1) else stops[s]
    decreases |ids|
  {
    if ids != [] {
      hide Saved, MovedUp, Distinct;
      LastRow(stops, ids);
      SavedMovedUp(stops, ids[..|ids| - 1], start);
      LastMovedUp(stops, RowsFrom(stops, ids), start);
    }
  }

  /** The last row, if it is not before `start`, is saved with its number raised. */
  lemma LastMovedUp(stops: map<Id, Stop>, rows: seq<Row>, start: int)
    requires rows != []
    ensures var m := |rows| - 1;
            var before, last := Saved(stops, MovedUp(rows[..m], start)), rows[m];
            Saved(stops, MovedUp(rows, start))
            == if last.orden >= start && last.id in before
               then before[last.id := before[last.id].(orden := last.orden + 1)] else before
  {
    var m := |rows| - 1;
    var before, last := MovedUp(rows[..m], start), rows[m];
    if last.orden >= start {
      assert (before + [last.(orden := last.orden + 1)])[..|before|] == before;
    } else {
      assert before + [] == before;
    }
  }

  /** Every prefix of the moved rows is what moving a prefix of the rows gives. */
  lemma {:induction false} MovedDownPrefix(rows: seq<Row>, gap: int, j: nat)
    requires j <= |MovedDown(rows, gap)|
    ensures exists m :: 0 <= m <= |rows| && MovedDown(rows[..m], gap) == MovedDown(rows, gap)[..j]
    decreases |rows|
  {
    var all := MovedDown(rows, gap);
    if j == |all| {
      assert rows[..|rows|] == rows && all[..j] == all;
    } else {
      var init := rows[..|rows| - 1];
      MovedDownPrefix(init, gap, j);
      var m :| 0 <= m <= |init| && MovedDown(init[..m], gap) == MovedDown(init, gap)[..j];
      assert init[..m] == rows[..m];
      assert all[..j] == MovedDown(init, gap)[..j];
    }
  }

  /** The rows that close the gap left by stop s, in list order. */
  ghost function GapRows(stops: map<Id, Stop>, r: Id, s: Id): seq<Row>
    requires s in stops
  {
    MovedDown(RowsFrom(stops - {s}, StopListing(stops - {s}, r)), stops[s].orden)
  }

  lemma GapListed(stops: map<Id, Stop>, r: Id, s: Id, remaining: seq<Id>)
    requires s in stops && UniqueOrdersOn(stops, r) && IsOrderedListing(stops - {s}, r, remaining)
    ensures MovedDown(RowsFrom(stops - {s}, remaining), stops[s].orden) == GapRows(stops, r, s)
  {
    ListingDetermined(stops - {s}, r, remaining, StopListing(stops - {s}, r));
    hide MovedDown, StopListing;
  }

  /** Closing the gap row by row, in list order, never makes two stops of the route share a number. */
  lemma RemovalRowByRow(stops: map<Id, Stop>, r: Id, s: Id, j: nat)
    requires UniqueOrdersOn(stops, r) && s in StopsOn(stops, r)
    requires j <= |GapRows(stops, r, s)|
    ensures UniqueOrdersOn(Saved(stops - {s}, GapRows(stops, r, s)[..j]), r)
  {
    hide Saved, MovedDown, StopListing, UniqueOrdersOn;
    var left, gap := stops - {s}, stops[s].orden;
    var ids := StopListing(left, r);
    var rows := RowsFrom(left, ids);
    MovedDownPrefix(rows, gap, j);
    var m :| 0 <= m <= |rows| && MovedDown(rows[..m], gap) == GapRows(stops, r, s)[..j];
    assert rows[..m] == RowsFrom(left, ids[..m]);
    SavedMovedDown(left, ids[..m], gap);
    PrefixClosedKeepsOrder(stops, r, s, ids, m, Saved(left, GapRows(stops, r, s)[..j]));
  }

  /** Once all are saved the table is that of the removal. */
  lemma RemovalSavesAll(stops: map<Id, Stop>, r: Id, s: Id)
    requires s in StopsOn(stops, r)
    ensures Saved(stops - {s}, GapRows(stops, r, s)) == Removed(stops, r, s)
  {
    hide Saved, MovedDown, StopListing;
    var left := stops - {s};
    var ids := StopListing(left, r);
    SavedMovedDown(left, ids, stops[s].orden);
    forall x | x in left
      ensures x in ids <==> stops[x].route == r
    {
      assert x in StopsOn(left, r) <==> stops[x].route == r;
    }
  }

  lemma PrefixClosedKeepsOrder(stops: map<Id, Stop>, r: Id, s: Id, ids: seq<Id>, m: nat, after: map<Id, Stop>)
    requires UniqueOrdersOn(stops, r) && s in StopsOn(stops, r)
    requires IsOrderedListing(stops - {s}, r, ids) && m <= |ids|
    requires after.Keys == stops.Keys - {s}
    requires forall x :: x in after ==>
               after[x] == if x in ids[..m] && stops[x].orden > stops[s].orden
                           then stops[x].(orden := stops[x].orden - 1) else stops[x]
    ensures UniqueOrdersOn(after, r)
  {
    forall x, y | x in StopsOn(after, r) && y in StopsOn(after, r) && x != y
      ensures after[x].orden != after[y].orden
    {
      assert x in StopsOn(stops - {s}, r) && y in StopsOn(stops - {s}, r);
      var i :| 0 <= i < |ids| && ids[i] == x;
      var k :| 0 <= k < |ids| && ids[k] == y;
      if i < k {
        PairStaysApart(stops, r, s, ids, m, after, i, k);
      } else {
        PairStaysApart(stops, r, s, ids, m, after, k, i);
      }
    }
  }

  /** Of two stops in the listing, the later one moves down only when the earlier one does or lies before the gap. */
  lemma PairStaysApart(
      stops: map<Id, Stop>, r: Id, s: Id, ids: seq<Id>, m: nat, after: map<Id, Stop>, i: nat, k: nat)
    requires UniqueOrdersOn(stops, r) && s in StopsOn(stops, r)
    requires IsOrderedListing(stops - {s}, r, ids) && m <= |ids| && i < k < |ids|
    requires after.Keys == stops.Keys - {s}
    requires forall x :: x in after ==>
               after[x] == if x in ids[..m] && stops[x].orden > stops[s].orden
                           then stops[x].(orden := stops[x].orden - 1) else stops[x]
    ensures after[ids[i]].orden != after[ids[k]].orden
  {
    var x, y := ids[i], ids[k];
    assert x in StopsOn(stops - {s}, r) && y in StopsOn(stops - {s}, r);
    assert x in StopsOn(stops, r) && y in StopsOn(stops, r);
    assert stops[x].orden < stops[y].orden && stops[x].orden != stops[s].orden;
    if y in ids[..m] {
      var l :| 0 <= l < m && ids[l] == y;
      assert x == ids[..m][i];
    }
  }

  /** Saving all the rows that the planner moves opens the gap. */
  lemma InsertionSavesAll(stops: map<Id, Stop>, r: Id, rows: seq<Id>, order: nat)
    requires IsOrderedListing(stops, r, rows)
    ensures Saved(stops, MovedUp(RowsFrom(stops, rows), order)) == Shifted(stops, r, order, 1)
  {
    hide Saved, MovedUp;
    SavedMovedUp(stops, rows, order);
    forall x | x in stops
      ensures x in rows <==> stops[x].route == r
    {
      assert x in StopsOn(stops, r) <==> stops[x].route == r;
    }
  }

  /** Opening the gap row by row, in list order, collides as soon as two rows have to move:
      the numbers stay distinct after every row exactly when at most one row moves. */
  lemma InsertionRowByRow(stops: map<Id, Stop>, r: Id, n: nat, rows: seq<Id>, order: nat)
    requires NumberedTo(stops, r, n) && IsOrderedListing(stops, r, rows) && 1 <= order <= n + 1
    ensures var updates := MovedUp(RowsFrom(stops, rows), order);
            (forall j :: 0 <= j <= |updates| ==> UniqueOrdersOn(Saved(stops, updates[..j]), r)) <==> order >= n
  {
    hide MovedUp;
    var updates := MovedUp(RowsFrom(stops, rows), order);
    ListingNumbers(stops, r, n, rows);
    MovedUpNumbered(RowsFrom(stops, rows), order, n);
    if order < n {
      SecondRowCollides(stops, r, n, rows, order, updates[0]);
      assert updates[..1] == [updates[0]];
    } else {
      forall j | 0 <= j <= |updates|
        ensures UniqueOrdersOn(Saved(stops, updates[..j]), r)
      {
        if j == 1 {
          assert updates[..1] == [updates[0]] && [updates[0]][..0] == [];
        }
      }
    }
  }

  lemma SecondRowCollides(stops: map<Id, Stop>, r: Id, n: nat, rows: seq<Id>, order: nat, u: Row)
    requires NumberedTo(stops, r, n) && IsOrderedListing(stops, r, rows) && 1 <= order < n == |rows|
    requires u.id == rows[order - 1] && u.orden == order + 1 == stops[rows[order]].orden
    ensures !UniqueOrdersOn(Saved(stops, [u]), r)
  {
    assert [u][..0] == [] && Saved(stops, []) == stops;
    var after := Saved(stops, [u]);
    assert rows[order - 1] in StopsOn(stops, r) && rows[order] in StopsOn(stops, r);
    assert after == stops[u.id := stops[u.id].(orden := u.orden)];
    assert rows[order - 1] in StopsOn(after, r) && rows[order] in StopsOn(after, r);
    assert after[rows[order - 1]].orden == after[rows[order]].orden;
  }

  lemma {:induction false} MovedUpNumbered(rows: seq<Row>, order: nat, n: nat)
    requires n == |rows| && 1 <= order
    requires forall i :: 0 <= i < n ==> rows[i].orden == i + 1
    ensures |MovedUp(rows, order)| == if n < order then 0 else n - order + 1
    ensures n >= order ==> MovedUp(rows, order)[0] == rows[order - 1].(orden := order + 1)
  {
    if n > 0 {
      MovedUpNumbered(rows[..n - 1], order, n - 1);
    }
  }
}
