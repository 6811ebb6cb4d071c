/** Which objects the sanitizer visits: exactly the reachable ones, each once; and for which graphs it ends. */
module SanitizerWalk {
  import opened Assoc
  import opened Sanitizer

  // ---- one tree object per visited object ----

  /** The number of objects in a result. */
  function Count(t: Tree): nat
    decreases t
  {
    match t
    case List(items) => CountItems(items)
    case Record(fields) => 1 + CountFields(fields)
    case Text(_) => 0
    case Atomic(_) => 0
    case Missing => 0
    case Raw(_) => 0
  }

  function CountItems(items: seq<Tree>): nat
    decreases items
  {
    if items == [] then 0 else CountItems(items[..|items| - 1]) + Count(items[|items| - 1])
  }

  function CountFields(fields: seq<Entry>): nat
    decreases fields
  {
    if fields == [] then 0 else CountFields(fields[..|fields| - 1]) + Count(fields[|fields| - 1].value)
  }

  lemma CountOneMore(items: seq<Tree>, t: Tree)
    ensures CountItems(items + [t]) == CountItems(items) + Count(t)
  {
    assert (items + [t])[..|items|] == items;
  }

  lemma {:induction false} CountConcat(a: seq<Entry>, b: seq<Entry>)
    requires |b| <= 1
    ensures CountFields(a + b) == CountFields(a) + CountFields(b)
  {
    if b == [] {
      assert a + b == a;
    } else {
      assert (a + b)[..|a|] == a;
      assert b[..0] == [];
    }
  }

  lemma CountLeaf(v: Value)
    ensures Count(AsIs(v)) == 0
  {
  }

  /** Every visited object appears in the result exactly once. */
  lemma {:induction false} VisitedOnce(g: Graph, v: Value, seen: set<nat>)
    requires g.Valid() && g.Known(v)
    ensures var out := Sanitize(g, v, seen); |out.1| == |seen| + Count(out.0)
    decreases |g.Objects() - seen|, g.Level(v), 2, 0
  {
    if g.IsArray(v) {
      VisitedOnceItems(g, g.nodes[v.r].items, g.Level(v), seen);
    } else if g.IsPlainObject(v) && v.r !in seen {
      OneLess(g, seen, v.r);
      var n := |g.nodes[v.r].fields|;
      VisitedOnceFields(g, v.r, n, seen + {v.r});
    }
  }

  lemma {:induction false} VisitedOnceItems(g: Graph, items: seq<Value>, level: nat, seen: set<nat>)
    requires g.Valid()
    requires forall i :: 0 <= i < |items| ==> g.Known(items[i]) && g.Level(items[i]) < level
    ensures var out := SanitizeItems(g, items, level, seen); |out.1| == |seen| + CountItems(out.0)
    decreases |g.Objects() - seen|, level, 1, |items|
  {
    if items != [] {
      var n := |items| - 1;
      var before := SanitizeItems(g, items[..n], level, seen);
      VisitedOnceItems(g, items[..n], level, seen);
      FewerLeft(g, seen, before.1);
      VisitedOnce(g, items[n], before.1);
      var last := Sanitize(g, items[n], before.1);
      CountOneMore(before.0, last.0);
    }
  }

  lemma {:induction false} VisitedOnceFields(g: Graph, r: nat, n: nat, seen: set<nat>)
    requires g.Valid() && r in g.Objects() && n <= |g.nodes[r].fields|
    ensures var out := SanitizeFields(g, r, n, seen); |out.1| == |seen| + CountFields(out.0)
    decreases |g.Objects() - seen|, g.bound + 1, 1, n
  {
    hide Graph.Linked, Graph.Numbered, Graph.Level, SanitizeField, Sanitize;
    if n > 0 {
      var before := SanitizeFields(g, r, n - 1, seen);
      hide CountFields;
      FewerLeft(g, seen, before.1);
      VisitedOnceFields(g, r, n - 1, seen);
      VisitedOnceField(g, r, n - 1, before.1);
      CountConcat(before.0, SanitizeField(g, r, n - 1, before.1).0);
    }
  }

  lemma {:induction false} VisitedOnceField(g: Graph, r: nat, i: nat, seen: set<nat>)
    requires g.Valid() && r in g.Objects() && i < |g.nodes[r].fields|
    ensures var out := SanitizeField(g, r, i, seen); |out.0| <= 1 && |out.1| == |seen| + CountFields(out.0)
    decreases |g.Objects() - seen|, g.bound + 1, 0, 0
  {
    var out := SanitizeField(g, r, i, seen);
    var fields := g.nodes[r].fields;
    var value := fields[i].1;
    CountLeaf(value);
    if out.0 != [] { assert out.0[..0] == []; }
    if Decide(g.nodes, fields, fields[i].0, value) == Descend { VisitedOnce(g, value, seen); }
    hide Decide;
  }

  // ---- reachability ----

  /** Object `x` is `v` itself, or held by `v` through arrays alone. */
  ghost predicate Holds(g: Graph, v: Value, x: nat)
    requires g.Valid() && g.Known(v)
    decreases g.Level(v)
  {
    if g.IsArray(v) then exists i :: 0 <= i < |g.nodes[v.r].items| && Holds(g, g.nodes[v.r].items[i], x)
    else g.IsPlainObject(v) && v.r == x
  }

  /** A field of object `r` that the sanitizer follows holds `x`. */
  ghost predicate Edge(g: Graph, r: nat, x: nat)
    requires g.Valid() && r in g.Objects()
  {
    var fields := g.nodes[r].fields;
    exists i :: 0 <= i < |fields| && Follows(g, r, i, x)
  }

  ghost predicate Closed(g: Graph, s: set<nat>)
    requires g.Valid()
  {
    forall r, x :: r in s && r in g.Objects() && Edge(g, r, x) ==> x in s
  }

  /** What the walk has entered, it has followed to the end. */
  ghost predicate Explored(g: Graph, seen: set<nat>, now: set<nat>)
    requires g.Valid()
  {
    forall r, x :: r in now && r !in seen && r in g.Objects() && Edge(g, r, x) ==> x in now
  }

  lemma {:induction false} VisitsAll(g: Graph, v: Value, seen: set<nat>)
    requires g.Valid() && g.Known(v)
    ensures var now := Sanitize(g, v, seen).1;
            Explored(g, seen, now) && forall x :: Holds(g, v, x) ==> x in now
    decreases |g.Objects() - seen|, g.Level(v), 2, 0
  {
    if g.IsArray(v) {
      VisitsAllItems(g, g.nodes[v.r].items, g.Level(v), seen);
    } else if g.IsPlainObject(v) && v.r !in seen {
      OneLess(g, seen, v.r);
      var n := |g.nodes[v.r].fields|;
      VisitsAllFields(g, v.r, n, seen + {v.r});
    }
  }

  lemma {:induction false} VisitsAllItems(g: Graph, items: seq<Value>, level: nat, seen: set<nat>)
    requires g.Valid()
    requires forall i :: 0 <= i < |items| ==> g.Known(items[i]) && g.Level(items[i]) < level
    ensures var now := SanitizeItems(g, items, level, seen).1;
            Explored(g, seen, now) && forall i, x :: 0 <= i < |items| && Holds(g, items[i], x) ==> x in now
    decreases |g.Objects() - seen|, level, 1, |items|
  {
    hide Graph.Linked, Graph.Numbered, Sanitize, Edge, Holds;
    if items != [] {
      var n := |items| - 1;
      var before := SanitizeItems(g, items[..n], level, seen);
      VisitsAllItems(g, items[..n], level, seen);
      FewerLeft(g, seen, before.1);
      VisitsAll(g, items[n], before.1);
      ExploredInSteps(g, seen, before.1, Sanitize(g, items[n], before.1).1);
      hide Explored, Edge, Holds;
      forall i, x | 0 <= i < |items| && Holds(g, items[i], x) ensures x in SanitizeItems(g, items, level, seen).1 {
        if i < n { assert Holds(g, items[..n][i], x); }
      }
    }
  }

  ghost predicate Follows(g: Graph, r: nat, i: nat, x: nat)
    requires g.Valid() && r in g.Objects() && i < |g.nodes[r].fields|
  {
    var fields := g.nodes[r].fields;
    Decide(g.nodes, fields, fields[i].0, fields[i].1) == Descend && Holds(g, fields[i].1, x)
  }

  ghost predicate FollowedUpTo(g: Graph, r: nat, n: nat, now: set<nat>)
    requires g.Valid() && r in g.Objects() && n <= |g.nodes[r].fields|
  {
    forall i, x :: 0 <= i < n && Follows(g, r, i, x) ==> x in now
  }

  lemma {:induction false} VisitsAllFields(g: Graph, r: nat, n: nat, seen: set<nat>)
    requires g.Valid() && r in g.Objects() && n <= |g.nodes[r].fields|
    ensures var now := SanitizeFields(g, r, n, seen).1;
            Explored(g, seen, now) && FollowedUpTo(g, r, n, now)
    decreases |g.Objects() - seen|, g.bound + 1, 1, n
  {
    hide Graph.Linked, Graph.Numbered, Graph.Level, SanitizeField, Sanitize, Follows;
    if n > 0 {
      FieldsStep(g, r, n, seen);
      hide SanitizeFields, Explored, FollowedUpTo;
      var before := SanitizeFields(g, r, n - 1, seen);
      VisitsAllFields(g, r, n - 1, seen);
      VisitsAllField(g, r, n - 1, before.1);
      var now := SanitizeField(g, r, n - 1, before.1).1;
      ExploredInSteps(g, seen, before.1, now);
      FollowedOneMore(g, r, n, before.1, now);
    }
  }

  lemma ExploredInSteps(g: Graph, a: set<nat>, b: set<nat>, c: set<nat>)
    requires g.Valid() && a <= b <= c && Explored(g, a, b) && Explored(g, b, c)
    ensures Explored(g, a, c)
  {
    hide Edge;
  }

  lemma FollowedOneMore(g: Graph, r: nat, n: nat, before: set<nat>, now: set<nat>)
    requires g.Valid() && r in g.Objects() && 0 < n <= |g.nodes[r].fields| && before <= now
    requires FollowedUpTo(g, r, n - 1, before) && forall x :: Follows(g, r, n - 1, x) ==> x in now
    ensures FollowedUpTo(g, r, n, now)
  {
    hide Follows;
  }

  lemma {:induction false} VisitsAllField(g: Graph, r: nat, i: nat, seen: set<nat>)
    requires g.Valid() && r in g.Objects() && i < |g.nodes[r].fields|
    ensures var now := SanitizeField(g, r, i, seen).1;
            Explored(g, seen, now) && forall x :: Follows(g, r, i, x) ==> x in now
    decreases |g.Objects() - seen|, g.bound + 1, 0, 0
  {
    FieldIsKnown(g, r, i);
    hide Graph.Linked, Graph.Numbered, Edge, Holds, Decide;
    var fields := g.nodes[r].fields;
    if Decide(g.nodes, fields, fields[i].0, fields[i].1) == Descend { VisitsAll(g, fields[i].1, seen); }
  }

  lemma {:induction false} VisitsOnly(g: Graph, v: Value, seen: set<nat>, s: set<nat>)
    requires g.Valid() && g.Known(v) && Closed(g, s)
    requires forall x :: Holds(g, v, x) ==> x in s
    ensures Sanitize(g, v, seen).1 <= seen + s
    decreases |g.Objects() - seen|, g.Level(v), 2, 0
  {
    if g.IsArray(v) {
      forall i, x | 0 <= i < |g.nodes[v.r].items| && Holds(g, g.nodes[v.r].items[i], x) ensures x in s {
        assert Holds(g, v, x);
      }
      VisitsOnlyItems(g, g.nodes[v.r].items, g.Level(v), seen, s);
    } else if g.IsPlainObject(v) && v.r !in seen {
      assert Holds(g, v, v.r);
      OneLess(g, seen, v.r);
      VisitsOnlyFields(g, v.r, |g.nodes[v.r].fields|, seen + {v.r}, s);
    }
  }

  lemma {:induction false} VisitsOnlyItems(g: Graph, items: seq<Value>, level: nat, seen: set<nat>, s: set<nat>)
    requires g.Valid() && Closed(g, s)
    requires forall i :: 0 <= i < |items| ==> g.Known(items[i]) && g.Level(items[i]) < level
    requires forall i, x :: 0 <= i < |items| && Holds(g, items[i], x) ==> x in s
    ensures SanitizeItems(g, items, level, seen).1 <= seen + s
    decreases |g.Objects() - seen|, level, 1, |items|
  {
    if items != [] {
      var n := |items| - 1;
      var before := SanitizeItems(g, items[..n], level, seen);
      assert forall i :: 0 <= i < n ==> items[..n][i] == items[i];
      VisitsOnlyItems(g, items[..n], level, seen, s);
      FewerLeft(g, seen, before.1);
      VisitsOnly(g, items[n], before.1, s);
      hide Edge, Holds;
    }
  }

  lemma {:induction false} VisitsOnlyFields(g: Graph, r: nat, n: nat, seen: set<nat>, s: set<nat>)
    requires g.Valid() && r in g.Objects() && n <= |g.nodes[r].fields| && Closed(g, s) && r in s
    ensures SanitizeFields(g, r, n, seen).1 <= seen + s
    decreases |g.Objects() - seen|, g.bound + 1, 1, n
  {
    hide Graph.Linked, Graph.Numbered, Graph.Level, SanitizeField, Sanitize, Closed;
    if n > 0 {
      FieldsStep(g, r, n, seen);
      var before := SanitizeFields(g, r, n - 1, seen);
      VisitsOnlyFields(g, r, n - 1, seen, s);
      VisitsOnlyField(g, r, n - 1, before.1, s);
    }
  }

  lemma {:induction false} VisitsOnlyField(g: Graph, r: nat, i: nat, seen: set<nat>, s: set<nat>)
    requires g.Valid() && r in g.Objects() && i < |g.nodes[r].fields| && Closed(g, s) && r in s
    ensures SanitizeField(g, r, i, seen).1 <= seen + s
    decreases |g.Objects() - seen|, g.bound + 1, 0, 0
  {
    FieldIsKnown(g, r, i);
    hide Graph.Linked, Graph.Numbered, Holds, Decide, Sanitize;
    var fields := g.nodes[r].fields;
    if Decide(g.nodes, fields, fields[i].0, fields[i].1) == Descend {
      forall x | Holds(g, fields[i].1, x) ensures x in s {
        assert Follows(g, r, i, x);
        assert Edge(g, r, x);
      }
      VisitsOnly(g, fields[i].1, seen, s);
    }
  }

  /** The visited objects are the least set that has the input's own objects and every object they lead to. */
  lemma VisitsExactlyTheReachable(g: Graph, v: Value, s: set<nat>)
    requires g.Valid() && g.Known(v)
    ensures var visited := Sanitize(g, v, {}).1;
            Closed(g, visited) && (forall x :: Holds(g, v, x) ==> x in visited)
            && (Closed(g, s) && (forall x :: Holds(g, v, x) ==> x in s) ==> visited <= s)
  {
    VisitsAll(g, v, {});
    if Closed(g, s) && forall x :: Holds(g, v, x) ==> x in s {
      VisitsOnly(g, v, {}, s);
    }
    hide Holds, Edge;
  }

  // ---- which objects a response is about ----

  /** The objects that lie in every closed set around the input: those that the sanitizer's rules lead to from it. */
  ghost function Reachable(g: Graph, v: Value): set<nat>
    requires g.Valid() && g.Known(v)
  {
    set x | x in g.Objects()
            && forall s: set<nat> :: Closed(g, s) && (forall y :: Holds(g, v, y) ==> y in s) ==> x in s
  }

  /** A call visits exactly the reachable objects. */
  lemma VisitedIsReachable(g: Graph, v: Value)
    requires g.Valid() && g.Known(v)
    ensures Sanitize(g, v, {}).1 == Reachable(g, v)
  {
    var visited := Sanitize(g, v, {}).1;
    forall x | x in visited ensures x in Reachable(g, v) {
      VisitsOnlyObjects(g, v, {});
      forall s: set<nat> | Closed(g, s) && forall y :: Holds(g, v, y) ==> y in s ensures x in s {
        VisitsExactlyTheReachable(g, v, s);
      }
    }
    VisitsExactlyTheReachable(g, v, visited);
    hide Holds, Edge, Closed;
  }

  lemma {:induction false} VisitsOnlyObjects(g: Graph, v: Value, seen: set<nat>)
    requires g.Valid() && g.Known(v)
    ensures Sanitize(g, v, seen).1 <= seen + g.Objects()
    decreases |g.Objects() - seen|, g.Level(v), 2, 0
  {
    AllHeldAreObjects(g, v);
    EdgesLeadToObjects(g);
    VisitsOnly(g, v, seen, g.Objects());
  }

  lemma EdgesLeadToObjects(g: Graph)
    requires g.Valid()
    ensures Closed(g, g.Objects())
  {
    forall r, x | r in g.Objects() && Edge(g, r, x) ensures x in g.Objects() {
      var i :| 0 <= i < |g.nodes[r].fields| && Follows(g, r, i, x);
      AllHeldAreObjects(g, g.nodes[r].fields[i].1);
    }
  }

  lemma {:induction false} AllHeldAreObjects(g: Graph, v: Value)
    requires g.Valid() && g.Known(v)
    ensures forall x :: Holds(g, v, x) ==> x in g.Objects()
    decreases g.Level(v)
  {
    if g.IsArray(v) {
      forall i | 0 <= i < |g.nodes[v.r].items|
        ensures forall x :: Holds(g, g.nodes[v.r].items[i], x) ==> x in g.Objects()
      {
        ItemIsBelow(g, v.r, i);
        AllHeldAreObjects(g, g.nodes[v.r].items[i]);
      }
    }
  }

  // ---- termination ----

  /** Every reference points somewhere, and the keys of an object are distinct. */
  ghost predicate WellFormed(nodes: map<nat, Node>) {
    forall r :: r in nodes ==>
      match nodes[r]
      case Object(fields) =>
        Distinct(fields) && forall i :: 0 <= i < |fields| && fields[i].1.Ref? ==> fields[i].1.r in nodes
      case Array(items) => forall i :: 0 <= i < |items| && items[i].Ref? ==> items[i].r in nodes
  }

  /** Node `r` holds the value `v` where the sanitizer follows it: in any place of an array, and in those fields of
      an object that it neither drops, copies nor replaces. */
  ghost predicate Leads(nodes: map<nat, Node>, r: nat, v: Value)
  {
    r in nodes &&
    match nodes[r]
    case Object(fields) => exists i :: 0 <= i < |fields| && LeadsBy(nodes, fields, i) && fields[i].1 == v
    case Array(items) => exists i :: 0 <= i < |items| && items[i] == v
  }

  predicate LeadsBy(nodes: map<nat, Node>, fields: Assoc<string, Value>, i: nat)
    requires i < |fields|
  {
    Decide(nodes, fields, fields[i].0, fields[i].1) == Descend
  }

  ghost predicate FollowClosed(nodes: map<nat, Node>, v: Value, s: set<nat>) {
    (v.Ref? ==> v.r in s) && forall r, x :: r in s && Leads(nodes, r, Ref(x)) ==> x in s
  }

  /** The part of the graph that is followed from `v`. */
  ghost function Followed(nodes: map<nat, Node>, v: Value): set<nat> {
    set r | r in nodes && forall s: set<nat> :: FollowClosed(nodes, v, s) ==> r in s
  }

  lemma FollowedIsClosed(nodes: map<nat, Node>, v: Value)
    requires WellFormed(nodes) && (v.Ref? ==> v.r in nodes)
    ensures FollowClosed(nodes, v, Followed(nodes, v)) && Followed(nodes, v) <= nodes.Keys
  {
    forall r, x | r in Followed(nodes, v) && Leads(nodes, r, Ref(x)) ensures x in Followed(nodes, v) {
      LeadsInside(nodes, r, x);
      forall s: set<nat> | FollowClosed(nodes, v, s) ensures x in s {}
    }
  }

  lemma LeadsInside(nodes: map<nat, Node>, r: nat, x: nat)
    requires WellFormed(nodes) && Leads(nodes, r, Ref(x))
    ensures x in nodes
  {
    hide LeadsBy, Distinct;
  }

  /** Array `r` directly holds an array of `s`. */
  ghost predicate HoldsArrayOf(nodes: map<nat, Node>, r: nat, s: set<nat>)
  {
    r in nodes && nodes[r].Array?
    && exists i :: 0 <= i < |nodes[r].items| && nodes[r].items[i].Ref? && nodes[r].items[i].r in s
  }

  /** A cycle of arrays: a nonempty set of arrays, each of which holds another of them. */
  ghost predicate ArrayCycle(nodes: map<nat, Node>, s: set<nat>) {
    s != {} && forall r :: r in s ==> HoldsArrayOf(nodes, r, s)
  }

  lemma {:induction false} CycleHasNoDepth(g: Graph, s: set<nat>, r: nat)
    requires g.Valid() && ArrayCycle(g.nodes, s) && r in s && s <= g.live
    ensures false
    decreases if r in g.depth then g.depth[r] else 0
  {
    var next := NextInCycle(g, s, r);
    CycleHasNoDepth(g, s, next);
  }

  lemma NextInCycle(g: Graph, s: set<nat>, r: nat) returns (next: nat)
    requires g.Valid() && ArrayCycle(g.nodes, s) && r in s && s <= g.live
    ensures next in s && r in g.depth && next in g.depth && g.depth[next] < g.depth[r]
  {
    hide Graph.Linked, Graph.Numbered;
    assert HoldsArrayOf(g.nodes, r, s);
    var i :| 0 <= i < |g.nodes[r].items| && g.nodes[r].items[i].Ref? && g.nodes[r].items[i].r in s;
    next := g.nodes[r].items[i].r;
    assert HoldsArrayOf(g.nodes, next, s);
    ItemIsBelow(g, r, i);
    assert g.nodes[next].Array?;
    if |g.nodes[next].items| > 0 { ItemIsBelow(g, next, 0); }
  }

  /** The arrays of `live` are numbered, all but those still in `left`. */
  ghost predicate PartlyNumbered(
    nodes: map<nat, Node>, live: set<nat>, depth: map<nat, nat>, bound: nat, left: set<nat>)
  {
    forall r :: r in live && r in nodes && nodes[r].Array? && r !in left ==>
      r in depth && depth[r] < bound &&
      forall i :: 0 <= i < |nodes[r].items| && ArrayAt(nodes, nodes[r].items[i]) ==>
        nodes[r].items[i].r !in left && nodes[r].items[i].r in depth && depth[nodes[r].items[i].r] < depth[r]
  }

  ghost predicate ItemsLive(nodes: map<nat, Node>, live: set<nat>) {
    forall r, i :: r in live && r in nodes && nodes[r].Array? && 0 <= i < |nodes[r].items| && nodes[r].items[i].Ref? ==>
                     nodes[r].items[i].r in live
  }

  lemma {:induction false} NumberArrays(
      nodes: map<nat, Node>, live: set<nat>, depth: map<nat, nat>, bound: nat, left: set<nat>)
    returns (d: map<nat, nat>, b: nat)
    requires forall r :: r in left ==> r in live && r in nodes && nodes[r].Array?
    requires PartlyNumbered(nodes, live, depth, bound, left)
    requires ItemsLive(nodes, live)
    requires forall s :: s <= live ==> !ArrayCycle(nodes, s)
    ensures PartlyNumbered(nodes, live, d, b, {})
    decreases |left|
  {
    if left == {} {
      d, b := depth, bound;
    } else {
      assert !ArrayCycle(nodes, left);
      var r :| r in left && !HoldsArrayOf(nodes, r, left);
      var d' := depth[r := bound];
      assert PartlyNumbered(nodes, live, d', bound + 1, left - {r});
      d, b := NumberArrays(nodes, live, d', bound + 1, left - {r});
    }
  }

  /** A walk from `v` is well founded, whatever the rest of the graph looks like, exactly when the part followed from
      `v` has no cycle of arrays alone. */
  lemma WalkableExactlyWhen(nodes: map<nat, Node>, v: Value)
    requires WellFormed(nodes) && (v.Ref? ==> v.r in nodes)
    ensures (exists live, depth, bound ::
               var g := Graph(nodes, live, depth, bound); g.Valid() && g.Known(v))
            <==> (forall s :: s <= Followed(nodes, v) ==> !ArrayCycle(nodes, s))
  {
    hide Graph.Valid, ArrayCycle, Followed;
    if live, depth, bound :| var g := Graph(nodes, live, depth, bound); g.Valid() && g.Known(v) {
      var g := Graph(nodes, live, depth, bound);
      forall s | s <= Followed(nodes, v) ensures !ArrayCycle(nodes, s) { NumberedHasNoCycle(g, v, s); }
    }
    if forall s :: s <= Followed(nodes, v) ==> !ArrayCycle(nodes, s) {
      var g := NumberedGraph(nodes, v);
      assert g.Valid() && g.Known(v);
    }
  }

  lemma NumberedHasNoCycle(g: Graph, v: Value, s: set<nat>)
    requires g.Valid() && g.Known(v) && s <= Followed(g.nodes, v)
    ensures !ArrayCycle(g.nodes, s)
  {
    if ArrayCycle(g.nodes, s) {
      hide Graph.Linked, Graph.Numbered;
      LiveIsClosed(g, v);
      assert s <= g.live by {
        forall r | r in s ensures r in g.live { assert r in Followed(g.nodes, v); }
      }
      var r :| r in s;
      CycleHasNoDepth(g, s, r);
    }
  }

  lemma NumberedGraph(nodes: map<nat, Node>, v: Value) returns (g: Graph)
    requires WellFormed(nodes) && (v.Ref? ==> v.r in nodes)
    requires forall s :: s <= Followed(nodes, v) ==> !ArrayCycle(nodes, s)
    ensures g.nodes == nodes && g.Valid() && g.Known(v)
  {
    var live := Followed(nodes, v);
    FollowedIsClosed(nodes, v);
    forall r, i | r in live && nodes[r].Array? && 0 <= i < |nodes[r].items| && nodes[r].items[i].Ref?
      ensures nodes[r].items[i].r in live
    {
      assert Leads(nodes, r, Ref(nodes[r].items[i].r));
    }
    var d, b := NumberArrays(nodes, live, map[], 0, set r | r in live && r in nodes && nodes[r].Array?);
    g := Graph(nodes, live, d, b);
    ClosedIsLinked(g, v);
    assert g.Numbered();
  }

  lemma LiveIsClosed(g: Graph, v: Value)
    requires g.Valid() && g.Known(v)
    ensures FollowClosed(g.nodes, v, g.live)
  {
    forall r, x | r in g.live && Leads(g.nodes, r, Ref(x)) ensures x in g.live {
      hide Graph.Numbered, Distinct, Decide;
    }
  }

  lemma ClosedIsLinked(g: Graph, v: Value)
    requires WellFormed(g.nodes) && g.live <= g.nodes.Keys && FollowClosed(g.nodes, v, g.live)
    ensures g.Linked()
  {
    forall r | r in g.live
      ensures match g.nodes[r]
              case Object(fields) =>
                Distinct(fields) && forall i :: 0 <= i < |fields| ==>
                  Decide(g.nodes, fields, fields[i].0, fields[i].1) == Descend ==> g.Known(fields[i].1)
              case Array(items) => forall i :: 0 <= i < |items| ==> g.Known(items[i])
    {
      match g.nodes[r] {
        case Object(fields) =>
          forall i | 0 <= i < |fields| && Decide(g.nodes, fields, fields[i].0, fields[i].1) == Descend
            ensures g.Known(fields[i].1)
          {
            assert LeadsBy(g.nodes, fields, i);
            if fields[i].1.Ref? { assert Leads(g.nodes, r, Ref(fields[i].1.r)); }
          }
        case Array(items) =>
          forall i | 0 <= i < |items| ensures g.Known(items[i]) {
            if items[i].Ref? { assert Leads(g.nodes, r, Ref(items[i].r)); }
          }
      }
    }
  }
}
