/** Where a new stop goes, after src/modules/common/utils/route-stop.util.ts. */
module StopPlan {
  import opened Domain

  /** A stop as the planner sees it. */
  datatype Row = Row(id: Id, place: Place, orden: int)

  /** How much longer the way from stop i to the next one gets by passing through p. */
  function Detour(dist: Distance, rows: seq<Row>, p: Place, i: nat): real
    requires i + 1 < |rows|
  {
    dist(rows[i].place, p) + dist(p, rows[i + 1].place) - dist(rows[i].place, rows[i + 1].place)
  }

  /** Gap g costs no more than any of the first k gaps, and less than those before it. */
  predicate FirstBestGap(dist: Distance, rows: seq<Row>, p: Place, k: nat, g: nat)
    requires k < |rows|
  {
    g < k
    && (forall i :: 0 <= i < k ==> Detour(dist, rows, p, g) <= Detour(dist, rows, p, i))
    && (forall i :: 0 <= i < g ==> Detour(dist, rows, p, g) < Detour(dist, rows, p, i))
  }

  function BestGap(dist: Distance, rows: seq<Row>, p: Place, k: nat): (g: nat)
    requires 1 <= k < |rows|
    ensures FirstBestGap(dist, rows, p, k, g)
  {
    if k == 1 then 0 else
    var g := BestGap(dist, rows, p, k - 1);
    if Detour(dist, rows, p, k - 1) < Detour(dist, rows, p, g) then k - 1 else g
  }

  /** The number the new stop gets: behind the only stop, or in the first gap of least detour. */
  function NewOrder(dist: Distance, rows: seq<Row>, p: Place): (order: nat)
    ensures |rows| < 2 ==> order == |rows| + 1
    ensures |rows| >= 2 ==> 2 <= order <= |rows| && FirstBestGap(dist, rows, p, |rows| - 1, order - 2)
  {
    if |rows| < 2 then |rows| + 1 else BestGap(dist, rows, p, |rows| - 1) + 2
  }

  /** The rows from number `start` on, each moved up by one. */
  function MovedUp(rows: seq<Row>, start: int): seq<Row> {
    if rows == [] then [] else
    var last := rows[|rows| - 1];
    MovedUp(rows[..|rows| - 1], start) + if last.orden >= start then [last.(orden := last.orden + 1)] else []
  }

  /** The rows behind number `gap`, each moved down by one. */
  function MovedDown(rows: seq<Row>, gap: int): seq<Row> {
    if rows == [] then [] else
    var last := rows[|rows| - 1];
    MovedDown(rows[..|rows| - 1], gap) + if last.orden > gap then [last.(orden := last.orden - 1)] else []
  }

  method PlanStopInsertion(dist: Distance, stops: seq<Row>, p: Place) returns (newOrder: nat, updates: seq<Row>)
    ensures newOrder == NewOrder(dist, stops, p)
    ensures updates == MovedUp(stops, newOrder)
  {
    var insertIndex := |stops|;
    if |stops| > 1 {
      var bestExtraDistance := 0.0;
      for i := 0 to |stops| - 1
        invariant i == 0 ==> insertIndex == |stops|
        invariant i > 0 ==> insertIndex == BestGap(dist, stops, p, i) + 1
        invariant i > 0 ==> bestExtraDistance == Detour(dist, stops, p, insertIndex - 1)
      {
        var extra := Detour(dist, stops, p, i);
        if i == 0 || extra < bestExtraDistance {
          bestExtraDistance := extra;
          insertIndex := i + 1;
        }
      }
    }
    if |stops| == 1 {
      insertIndex := 1;
    }
    newOrder := insertIndex + 1;
    updates := MovedUp(stops, newOrder);
  }

  // ---- the way through the stops ----

  /** How long the way from place to place is. */
  function Way(dist: Distance, places: seq<Place>): real {
    if |places| <= 1 then 0.0 else dist(places[0], places[1]) + Way(dist, places[1..])
  }

  function PlacesOf(rows: seq<Row>): (places: seq<Place>)
    ensures |places| == |rows| && forall i :: 0 <= i < |rows| ==> places[i] == rows[i].place
  {
    seq(|rows|, i requires 0 <= i < |rows| => rows[i].place)
  }

  /** Passing through p between two places makes the way longer by the detour. */
  lemma {:induction false} WayThrough(dist: Distance, places: seq<Place>, p: Place, k: nat)
    requires 1 <= k < |places|
    ensures Way(dist, places[..k] + [p] + places[k..])
            == Way(dist, places) + dist(places[k - 1], p) + dist(p, places[k]) - dist(places[k - 1], places[k])
    decreases k
  {
    var longer := places[..k] + [p] + places[k..];
    if k == 1 {
      assert longer[1..] == [p] + places[1..] && longer[1..][1..] == places[1..];
    } else {
      WayThrough(dist, places[1..], p, k - 1);
      assert longer[1..] == places[1..][..k - 1] + [p] + places[1..][k - 1..];
    }
  }

  /** A new stop between the ends of a route makes the way through all its stops the shortest that is possible, and
      stands as early as it can for that. */
  lemma PlanIsShortest(dist: Distance, rows: seq<Row>, p: Place, j: nat)
    requires 1 <= j < |rows|
    ensures var places, k := PlacesOf(rows), NewOrder(dist, rows, p) - 1;
            1 <= k < |rows|
            && Way(dist, places[..k] + [p] + places[k..]) <= Way(dist, places[..j] + [p] + places[j..])
            && (j < k ==> Way(dist, places[..k] + [p] + places[k..]) < Way(dist, places[..j] + [p] + places[j..]))
  {
    var places, k := PlacesOf(rows), NewOrder(dist, rows, p) - 1;
    hide Way, NewOrder;
    WayThrough(dist, places, p, k);
    WayThrough(dist, places, p, j);
    assert Detour(dist, rows, p, k - 1) <= Detour(dist, rows, p, j - 1);
  }

  // ---- the rows of one route in the stop table ----

  function StopsOn(stops: map<Id, Stop>, r: Id): set<Id> {
    set s | s in stops && stops[s].route == r
  }

  /** ORDER BY orden ASC: every stop of the route once, by increasing number. */
  predicate IsOrderedListing(stops: map<Id, Stop>, r: Id, rows: seq<Id>) {
    IsListing(rows, StopsOn(stops, r))
    && forall i, j :: 0 <= i < j < |rows| ==> stops[rows[i]].orden <= stops[rows[j]].orden
  }

  /** The unique constraint on (routeId, orden). */
  ghost predicate UniqueOrders(stops: map<Id, Stop>) {
    forall s, t :: s in stops && t in stops && s != t && stops[s].route == stops[t].route
                   ==> stops[s].orden != stops[t].orden
  }

  ghost predicate Lowest(stops: map<Id, Stop>, ids: set<Id>, s: Id)
    requires ids <= stops.Keys
  {
    s in ids && forall t :: t in ids ==> stops[s].orden <= stops[t].orden
  }

  lemma {:induction false} LowestExists(stops: map<Id, Stop>, ids: set<Id>)
    requires ids <= stops.Keys && ids != {}
    ensures exists s :: Lowest(stops, ids, s)
    decreases ids
  {
    var x :| x in ids;
    if ids == {x} {
      assert Lowest(stops, ids, x);
    } else {
      LowestExists(stops, ids - {x});
      var y :| Lowest(stops, ids - {x}, y);
      assert Lowest(stops, ids, if stops[x].orden <= stops[y].orden then x else y);
    }
  }

  /** The listing that a query ordered by number returns. */
  ghost function Ordered(stops: map<Id, Stop>, ids: set<Id>): (rows: seq<Id>)
    requires ids <= stops.Keys
    ensures IsListing(rows, ids)
    ensures forall i, j :: 0 <= i < j < |rows| ==> stops[rows[i]].orden <= stops[rows[j]].orden
  {
    if ids == {} then [] else
    LowestExists(stops, ids);
    var s :| Lowest(stops, ids, s);
    [s] + Ordered(stops, ids - {s})
  }

  ghost function StopListing(stops: map<Id, Stop>, r: Id): (rows: seq<Id>)
    ensures IsOrderedListing(stops, r, rows)
  {
    Ordered(stops, StopsOn(stops, r))
  }

  function RowsFrom(stops: map<Id, Stop>, ids: seq<Id>): (rows: seq<Row>)
    requires forall id :: id in ids ==> id in stops
    ensures |rows| == |ids|
    ensures forall i :: 0 <= i < |ids| ==> rows[i] == Row(ids[i], stops[ids[i]].place, stops[ids[i]].orden)
  {
    seq(|ids|, i requires 0 <= i < |ids| => Row(ids[i], stops[ids[i]].place, stops[ids[i]].orden))
  }

  /** With unique numbers the ordered listing is determined. */
  lemma {:induction false} OrderedListingUnique(stops: map<Id, Stop>, r: Id, a: seq<Id>, b: seq<Id>)
    requires UniqueOrders(stops)
    requires IsOrderedListing(stops, r, a) && IsOrderedListing(stops, r, b)
    ensures a == b
  {
    ListingsSameLength(a, b, StopsOn(stops, r));
    SortedAgree(stops, r, a, b, |a|);
  }

  lemma {:induction false} SortedAgree(stops: map<Id, Stop>, r: Id, a: seq<Id>, b: seq<Id>, k: nat)
    requires UniqueOrders(stops)
    requires IsOrderedListing(stops, r, a) && IsOrderedListing(stops, r, b)
    requires k <= |a| == |b|
    ensures a[..k] == b[..k]
  {
    if k > 0 {
      var i := k - 1;
      SortedAgree(stops, r, a, b, i);
      if a[i] != b[i] {
        var j :| 0 <= j < |b| && b[j] == a[i];
        var l :| 0 <= l < |a| && a[l] == b[i];
        assert false;
      }
    }
  }

  lemma ListingsSameLength(a: seq<Id>, b: seq<Id>, ids: set<Id>)
    requires IsListing(a, ids) && IsListing(b, ids)
    ensures |a| == |ids| == |b|
  {
    ListingLength(a, ids);
    ListingLength(b, ids);
  }

  lemma {:induction false} ListingLength(a: seq<Id>, ids: set<Id>)
    requires IsListing(a, ids)
    ensures |a| == |ids|
    decreases |a|
  {
    if a == [] {
    } else {
      var rest := ids - {a[0]};
      assert IsListing(a[1..], rest);
      ListingLength(a[1..], rest);
    }
  }
}
