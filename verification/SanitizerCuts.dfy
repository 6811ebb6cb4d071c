/** How many occurrences of shared objects a response loses, and when it loses none. */
module SanitizerCuts {
  import opened Sums
  import opened Sanitizer
  import opened SanitizerWalk

  // ---- what a result lacks ----

  /** The number of undefined places in a result. */
  function Missings(t: Tree): nat
    decreases t
  {
    match t
    case List(items) => MissingItems(items)
    case Record(fields) => MissingFields(fields)
    case Text(_) => 0
    case Atomic(_) => 0
    case Missing => 1
    case Raw(_) => 0
  }

  function MissingItems(items: seq<Tree>): nat
    decreases items
  {
    if items == [] then 0 else MissingItems(items[..|items| - 1]) + Missings(items[|items| - 1])
  }

  function MissingFields(fields: seq<Entry>): nat
    decreases fields
  {
    if fields == [] then 0 else MissingFields(fields[..|fields| - 1]) + Missings(fields[|fields| - 1].value)
  }

  lemma MissingOneMore(items: seq<Tree>, t: Tree)
    ensures MissingItems(items + [t]) == MissingItems(items) + Missings(t)
  {
    assert (items + [t])[..|items|] == items;
  }

  lemma MissingConcat(a: seq<Entry>, b: seq<Entry>)
    requires |b| <= 1
    ensures MissingFields(a + b) == MissingFields(a) + MissingFields(b)
  {
    if b == [] {
      assert a + b == a;
    } else {
      assert (a + b)[..|a|] == a;
      assert b[..0] == [];
    }
  }

  // ---- what the input holds ----

  /** A weight for values that are not arrays. */
  type Weight = Value -> int

  /** The weight of what `v` holds, directly or through arrays. */
  ghost function Weigh(g: Graph, v: Value, f: Weight): int
    requires g.Valid() && g.Known(v)
    decreases g.Level(v), 1, 0
  {
    if g.IsArray(v) then WeighItems(g, g.nodes[v.r].items, g.Level(v), f) else f(v)
  }

  ghost function WeighItems(g: Graph, items: seq<Value>, level: nat, f: Weight): int
    requires g.Valid()
    requires forall i :: 0 <= i < |items| ==> g.Known(items[i]) && g.Level(items[i]) < level
    decreases level, 0, |items|
  {
    if items == [] then 0 else
    var n := |items| - 1;
    WeighItems(g, items[..n], level, f) + Weigh(g, items[n], f)
  }

  /** The weight of a field: what it holds where it is followed, its own value where it is copied and no reference. */
  ghost function WeighField(g: Graph, r: nat, i: nat, f: Weight): int
    requires g.Valid() && r in g.Objects() && i < |g.nodes[r].fields|
  {
    var fields := g.nodes[r].fields;
    match Decide(g.nodes, fields, fields[i].0, fields[i].1)
    case Drop => 0
    case Replace(_) => 0
    case Copy => if fields[i].1.Ref? then 0 else f(fields[i].1)
    case Descend => Weigh(g, fields[i].1, f)
  }

  ghost function WeighFields(g: Graph, r: nat, n: nat, f: Weight): int
    requires g.Valid() && r in g.Objects() && n <= |g.nodes[r].fields|
  {
    if n == 0 then 0 else WeighFields(g, r, n - 1, f) + WeighField(g, r, n - 1, f)
  }

  ghost function WeighObject(g: Graph, r: nat, f: Weight): int
    requires g.Valid() && r in g.Objects()
  {
    WeighFields(g, r, |g.nodes[r].fields|, f)
  }

  ghost function ObjectWeights(g: Graph, f: Weight): nat -> int {
    (r: nat) => if g.Valid() && r in g.Objects() then WeighObject(g, r, f) else 0
  }

  /** Objects and undefined: what the result may show as undefined. */
  function Losable(g: Graph): Weight {
    (v: Value) => if g.IsPlainObject(v) || v == Undefined then 1 else 0
  }

  function AnObject(g: Graph): Weight {
    (v: Value) => if g.IsPlainObject(v) then 1 else 0
  }

  function AnUndefined(): Weight {
    (v: Value) => if v == Undefined then 1 else 0
  }

  /** The object `x`. */
  function TheObject(g: Graph, x: nat): Weight {
    (v: Value) => if g.IsPlainObject(v) && v.r == x then 1 else 0
  }

  // ---- the undefined places of a result ----

  /** What the newly visited objects hold together. */
  ghost function NewWeight(g: Graph, seen: set<nat>, now: set<nat>): int {
    Sum(ObjectWeights(g, Losable(g)), now - seen)
  }

  lemma WeightInSteps(g: Graph, a: set<nat>, b: set<nat>, c: set<nat>)
    requires a <= b <= c
    ensures NewWeight(g, a, c) == NewWeight(g, a, b) + NewWeight(g, b, c)
  {
    assert c - a == (b - a) + (c - b);
    SumUnion(ObjectWeights(g, Losable(g)), b - a, c - b);
  }

  lemma NothingNew(g: Graph, seen: set<nat>)
    ensures NewWeight(g, seen, seen) == 0
  {
    assert seen - seen == {};
  }

  /** Undefined places and newly visited objects together are the occurrences of objects and undefined that the walk
      comes across: under its start, and in the objects it visits. */
  ghost predicate Balanced(g: Graph, missing: int, seen: set<nat>, now: set<nat>, held: int) {
    missing + |now| == |seen| + held + NewWeight(g, seen, now)
  }

  lemma {:induction false} CutsCounted(g: Graph, v: Value, seen: set<nat>)
    requires g.Valid() && g.Known(v)
    ensures var out := Sanitize(g, v, seen); Balanced(g, Missings(out.0), seen, out.1, Weigh(g, v, Losable(g)))
    decreases |g.Objects() - seen|, g.Level(v), 2, 0
  {
    hide Graph.Linked, Graph.Numbered, NewWeight;
    if g.IsArray(v) {
      forall i | 0 <= i < |g.nodes[v.r].items|
        ensures g.Known(g.nodes[v.r].items[i]) && g.Level(g.nodes[v.r].items[i]) < g.Level(v)
      {
        ItemIsBelow(g, v.r, i);
      }
      CutsCountedItems(g, g.nodes[v.r].items, g.Level(v), seen);
      hide Balanced;
    } else if g.IsPlainObject(v) && v.r !in seen {
      OneLess(g, seen, v.r);
      CutsCountedFields(g, v.r, |g.nodes[v.r].fields|, seen + {v.r});
      hide Balanced;
      ObjectBalanced(g, v.r, seen);
    } else {
      LeafBalanced(g, v, seen);
    }
  }

  lemma ObjectBalanced(g: Graph, r: nat, seen: set<nat>)
    requires g.Valid() && r in g.Objects() && r !in seen
    requires var out := SanitizeFields(g, r, |g.nodes[r].fields|, seen + {r});
             Balanced(g, MissingFields(out.0), seen + {r}, out.1, WeighObject(g, r, Losable(g)))
    ensures var out := Sanitize(g, Ref(r), seen);
            Balanced(g, Missings(out.0), seen, out.1, Weigh(g, Ref(r), Losable(g)))
  {
    VisitedWeight(g, r, seen, Sanitize(g, Ref(r), seen).1);
    hide Graph.Linked, Graph.Numbered, NewWeight, SanitizeFields, WeighObject;
  }

  lemma LeafBalanced(g: Graph, v: Value, seen: set<nat>)
    requires g.Valid() && g.Known(v) && !g.IsArray(v) && (g.IsPlainObject(v) ==> v.r in seen)
    ensures var out := Sanitize(g, v, seen); Balanced(g, Missings(out.0), seen, out.1, Weigh(g, v, Losable(g)))
  {
    NothingNew(g, seen);
    hide Graph.Linked, Graph.Numbered, NewWeight;
  }

  lemma VisitedWeight(g: Graph, r: nat, seen: set<nat>, now: set<nat>)
    requires g.Valid() && r in g.Objects() && r !in seen && seen + {r} <= now
    ensures NewWeight(g, seen, now) == WeighObject(g, r, Losable(g)) + NewWeight(g, seen + {r}, now)
  {
    hide Graph.Linked, Graph.Numbered;
    SumTakeOut(ObjectWeights(g, Losable(g)), now - seen, r);
    assert now - seen - {r} == now - (seen + {r});
  }

  lemma {:induction false} CutsCountedItems(g: Graph, items: seq<Value>, level: nat, seen: set<nat>)
    requires g.Valid()
    requires forall i :: 0 <= i < |items| ==> g.Known(items[i]) && g.Level(items[i]) < level
    ensures var out := SanitizeItems(g, items, level, seen);
            Balanced(g, MissingItems(out.0), seen, out.1, WeighItems(g, items, level, Losable(g)))
    decreases |g.Objects() - seen|, level, 1, |items|
  {
    hide Graph.Linked, Graph.Numbered, Sanitize, Weigh, NewWeight, Losable;
    if items == [] {
      NothingNew(g, seen);
    } else {
      var n := |items| - 1;
      var before := SanitizeItems(g, items[..n], level, seen);
      CutsCountedItems(g, items[..n], level, seen);
      FewerLeft(g, seen, before.1);
      CutsCounted(g, items[n], before.1);
      var last := Sanitize(g, items[n], before.1);
      MissingOneMore(before.0, last.0);
      WeightInSteps(g, seen, before.1, last.1);
    }
  }

  lemma {:induction false} CutsCountedFields(g: Graph, r: nat, n: nat, seen: set<nat>)
    requires g.Valid() && r in g.Objects() && n <= |g.nodes[r].fields|
    ensures var out := SanitizeFields(g, r, n, seen);
            Balanced(g, MissingFields(out.0), seen, out.1, WeighFields(g, r, n, Losable(g)))
    decreases |g.Objects() - seen|, g.bound + 1, 1, n
  {
    hide Graph.Linked, Graph.Numbered, Graph.Level, Sanitize, SanitizeField, WeighField, NewWeight, Losable;
    if n == 0 {
      NothingNew(g, seen);
    } else {
      FieldsStep(g, r, n, seen);
      hide SanitizeFields;
      var before := SanitizeFields(g, r, n - 1, seen);
      var last := SanitizeField(g, r, n - 1, before.1);
      CutsCountedFields(g, r, n - 1, seen);
      CutsCountedField(g, r, n - 1, before.1);
      MissingConcat(before.0, last.0);
      WeightInSteps(g, seen, before.1, last.1);
    }
  }

  lemma {:induction false} CutsCountedField(g: Graph, r: nat, i: nat, seen: set<nat>)
    requires g.Valid() && r in g.Objects() && i < |g.nodes[r].fields|
    ensures var out := SanitizeField(g, r, i, seen);
            |out.0| <= 1 && Balanced(g, MissingFields(out.0), seen, out.1, WeighField(g, r, i, Losable(g)))
    decreases |g.Objects() - seen|, g.bound + 1, 0, 0
  {
    var fields := g.nodes[r].fields;
    var value := fields[i].1;
    var out := SanitizeField(g, r, i, seen);
    FieldIsKnown(g, r, i);
    NothingNew(g, seen);
    if out.0 != [] { assert out.0[..0] == []; }
    LeafMissing(g, value);
    if Decide(g.nodes, fields, fields[i].0, value) == Descend { CutsCounted(g, value, seen); }
    hide Decide, Graph.Linked, Graph.Numbered, NewWeight, Losable, Weigh, Sanitize;
  }

  lemma LeafMissing(g: Graph, v: Value)
    ensures Missings(AsIs(v)) == if v.Ref? then 0 else Losable(g)(v)
  {
  }

  // ---- every object of the response counted by its holders ----

  /** All that is held under the input and in the objects reachable from it. */
  ghost function Altogether(g: Graph, v: Value, f: Weight): int
    requires g.Valid() && g.Known(v)
  {
    Weigh(g, v, f) + Sum(ObjectWeights(g, f), Reachable(g, v))
  }

  /** How often object `x` is held: by the input, and by all reachable objects together. */
  ghost function TimesHeld(g: Graph, v: Value, x: nat): int
    requires g.Valid() && g.Known(v)
  {
    Altogether(g, v, TheObject(g, x))
  }

  /** The undefined places of a response and its objects add up to the occurrences of objects and undefined. */
  lemma UndefinedPlaces(g: Graph, v: Value)
    requires g.Valid() && g.Known(v)
    ensures Missings(Sanitize(g, v, {}).0) + |Reachable(g, v)| == Altogether(g, v, Losable(g))
  {
    CutsCounted(g, v, {});
    VisitedIsReachable(g, v);
    var visited := Sanitize(g, v, {}).1;
    assert visited - {} == visited;
    hide Sanitize, Weigh, Reachable;
  }

  // ---- weights add ----

  lemma {:induction false} WeighPlus(g: Graph, v: Value, e: Weight, f: Weight, h: Weight)
    requires g.Valid() && g.Known(v) && forall u :: h(u) == e(u) + f(u)
    ensures Weigh(g, v, h) == Weigh(g, v, e) + Weigh(g, v, f)
    decreases g.Level(v), 1, 0
  {
    if g.IsArray(v) { WeighItemsPlus(g, g.nodes[v.r].items, g.Level(v), e, f, h); }
  }

  lemma {:induction false} WeighItemsPlus(g: Graph, items: seq<Value>, level: nat, e: Weight, f: Weight, h: Weight)
    requires g.Valid() && forall u :: h(u) == e(u) + f(u)
    requires forall i :: 0 <= i < |items| ==> g.Known(items[i]) && g.Level(items[i]) < level
    ensures WeighItems(g, items, level, h) == WeighItems(g, items, level, e) + WeighItems(g, items, level, f)
    decreases level, 0, |items|
  {
    if items != [] {
      var n := |items| - 1;
      WeighItemsPlus(g, items[..n], level, e, f, h);
      WeighPlus(g, items[n], e, f, h);
      hide Weigh, Graph.Linked, Graph.Numbered;
    }
  }

  lemma {:induction false} WeighFieldsPlus(g: Graph, r: nat, n: nat, e: Weight, f: Weight, h: Weight)
    requires g.Valid() && r in g.Objects() && n <= |g.nodes[r].fields| && forall u :: h(u) == e(u) + f(u)
    ensures WeighFields(g, r, n, h) == WeighFields(g, r, n, e) + WeighFields(g, r, n, f)
    decreases n
  {
    hide Graph.Linked, Graph.Numbered, Decide, Weigh;
    if n > 0 {
      var fields := g.nodes[r].fields;
      FieldIsKnown(g, r, n - 1);
      WeighFieldsPlus(g, r, n - 1, e, f, h);
      if Decide(g.nodes, fields, fields[n - 1].0, fields[n - 1].1) == Descend {
        WeighPlus(g, fields[n - 1].1, e, f, h);
      }
    }
  }

  lemma TotalPlus(g: Graph, v: Value, e: Weight, f: Weight, h: Weight)
    requires g.Valid() && g.Known(v) && forall u :: h(u) == e(u) + f(u)
    ensures Altogether(g, v, h) == Altogether(g, v, e) + Altogether(g, v, f)
  {
    WeighPlus(g, v, e, f, h);
    forall r | r in Reachable(g, v) ensures ObjectWeights(g, h)(r) == ObjectWeights(g, e)(r) + ObjectWeights(g, f)(r) {
      if r in g.Objects() { WeighFieldsPlus(g, r, |g.nodes[r].fields|, e, f, h); }
    }
    SumPlus(ObjectWeights(g, e), ObjectWeights(g, f), ObjectWeights(g, h), Reachable(g, v));
  }

  // ---- weights are sums over objects ----

  ghost function Held(g: Graph, v: Value): nat -> int {
    (x: nat) => if g.Valid() && g.Known(v) then Weigh(g, v, TheObject(g, x)) else 0
  }

  ghost predicate Below(g: Graph, items: seq<Value>, level: nat) {
    forall i :: 0 <= i < |items| ==> g.Known(items[i]) && g.Level(items[i]) < level
  }

  ghost function HeldItems(g: Graph, items: seq<Value>, level: nat): nat -> int {
    (x: nat) => if g.Valid() && Below(g, items, level) then WeighItems(g, items, level, TheObject(g, x)) else 0
  }

  ghost function HeldFields(g: Graph, r: nat, n: nat): nat -> int {
    (x: nat) =>
      if g.Valid() && r in g.Objects() && n <= |g.nodes[r].fields| then WeighFields(g, r, n, TheObject(g, x)) else 0
  }

  /** Every object that `v` holds is in the set. */
  ghost predicate HoldsOnly(g: Graph, v: Value, s: set<nat>)
    requires g.Valid() && g.Known(v)
  {
    forall x :: Holds(g, v, x) ==> x in s
  }

  lemma {:induction false} HeldAddsUp(g: Graph, v: Value, s: set<nat>)
    requires g.Valid() && g.Known(v) && HoldsOnly(g, v, s)
    ensures Weigh(g, v, AnObject(g)) == Sum(Held(g, v), s)
    decreases g.Level(v), 1, 0
  {
    if g.IsArray(v) {
      var items := g.nodes[v.r].items;
      forall i | 0 <= i < |items| ensures HoldsOnly(g, items[i], s) {
        forall x | Holds(g, items[i], x) ensures x in s { assert Holds(g, v, x); }
      }
      HeldItemsAddUp(g, items, g.Level(v), s);
      SumSame(Held(g, v), HeldItems(g, items, g.Level(v)), s);
    } else if g.IsPlainObject(v) {
      assert Holds(g, v, v.r);
      SumTakeOut(Held(g, v), s, v.r);
      SumZero(Held(g, v), s - {v.r});
    } else {
      SumZero(Held(g, v), s);
    }
  }

  lemma {:induction false} HeldItemsAddUp(g: Graph, items: seq<Value>, level: nat, s: set<nat>)
    requires g.Valid() && Below(g, items, level)
    requires forall i :: 0 <= i < |items| ==> HoldsOnly(g, items[i], s)
    ensures WeighItems(g, items, level, AnObject(g)) == Sum(HeldItems(g, items, level), s)
    decreases level, 0, |items|
  {
    hide Graph.Linked, Graph.Numbered, Graph.Level, Weigh, AnObject, TheObject;
    if items == [] {
      SumZero(HeldItems(g, items, level), s);
    } else {
      var n := |items| - 1;
      assert Below(g, items[..n], level);
      HeldItemsAddUp(g, items[..n], level, s);
      HeldAddsUp(g, items[n], s);
      SumPlus(HeldItems(g, items[..n], level), Held(g, items[n]), HeldItems(g, items, level), s);
    }
  }

  lemma {:induction false} HeldFieldsAddUp(g: Graph, r: nat, n: nat, s: set<nat>)
    requires g.Valid() && r in g.Objects() && n <= |g.nodes[r].fields| && r in s && Closed(g, s)
    ensures WeighFields(g, r, n, AnObject(g)) == Sum(HeldFields(g, r, n), s)
    decreases n
  {
    hide Graph.Linked, Graph.Numbered, Graph.Level, WeighField, Closed;
    if n == 0 {
      SumZero(HeldFields(g, r, 0), s);
    } else {
      HeldFieldsAddUp(g, r, n - 1, s);
      HeldFieldAddsUp(g, r, n - 1, s);
      SumPlus(HeldFields(g, r, n - 1), HeldField(g, r, n - 1), HeldFields(g, r, n), s);
    }
  }

  ghost function HeldField(g: Graph, r: nat, i: nat): nat -> int {
    (x: nat) =>
      if g.Valid() && r in g.Objects() && i < |g.nodes[r].fields| then WeighField(g, r, i, TheObject(g, x)) else 0
  }

  lemma HeldFieldAddsUp(g: Graph, r: nat, i: nat, s: set<nat>)
    requires g.Valid() && r in g.Objects() && i < |g.nodes[r].fields| && r in s && Closed(g, s)
    ensures WeighField(g, r, i, AnObject(g)) == Sum(HeldField(g, r, i), s)
  {
    hide Graph.Linked, Graph.Numbered, Graph.Level, Weigh;
    var fields := g.nodes[r].fields;
    var value := fields[i].1;
    FieldIsKnown(g, r, i);
    if Decide(g.nodes, fields, fields[i].0, value) == Descend {
      forall x | Holds(g, value, x) ensures x in s {
        assert Follows(g, r, i, x);
        assert Edge(g, r, x);
      }
      HeldAddsUp(g, value, s);
      SumSame(HeldField(g, r, i), Held(g, value), s);
    } else {
      SumZero(HeldField(g, r, i), s);
    }
  }

  ghost function TimesTable(g: Graph): (nat, nat) -> int {
    (r: nat, x: nat) => ObjectWeights(g, TheObject(g, x))(r)
  }

  ghost function Times(g: Graph, v: Value): nat -> int {
    (x: nat) => if g.Valid() && g.Known(v) then TimesHeld(g, v, x) else 0
  }

  /** The occurrences of objects are those of each reachable object together. */
  lemma OccurrencesAddUp(g: Graph, v: Value)
    requires g.Valid() && g.Known(v)
    ensures Altogether(g, v, AnObject(g)) == Sum(Times(g, v), Reachable(g, v))
  {
    hide Graph.Linked, Graph.Numbered, Weigh, WeighObject, Reachable, Sanitize, Closed, Rows, Columns;
    var s := Reachable(g, v);
    VisitsExactlyTheReachable(g, v, s);
    VisitedIsReachable(g, v);
    HeldAddsUp(g, v, s);
    RowsAddUp(g, s);
    SumSwap(TimesTable(g), s, s);
    ColumnsAddUp(g, v);
  }

  lemma RowsAddUp(g: Graph, s: set<nat>)
    requires g.Valid() && Closed(g, s)
    ensures Sum(ObjectWeights(g, AnObject(g)), s) == Sum(Rows(TimesTable(g), s), s)
  {
    forall r | r in s ensures ObjectWeights(g, AnObject(g))(r) == Rows(TimesTable(g), s)(r) {
      RowAddsUp(g, r, s);
    }
    hide Graph.Linked, Graph.Numbered, ObjectWeights, Rows, TimesTable;
    SumSame(ObjectWeights(g, AnObject(g)), Rows(TimesTable(g), s), s);
  }

  lemma ColumnsAddUp(g: Graph, v: Value)
    requires g.Valid() && g.Known(v)
    ensures var s := Reachable(g, v);
            Sum(Times(g, v), s) == Sum(Held(g, v), s) + Sum(Columns(TimesTable(g), s), s)
  {
    hide Graph.Linked, Graph.Numbered, Weigh, WeighObject, Reachable;
    var s := Reachable(g, v);
    forall x: nat ensures Times(g, v)(x) == Held(g, v)(x) + Columns(TimesTable(g), s)(x) {
      var column := (r: nat) => TimesTable(g)(r, x);
      assert forall r: nat :: column(r) == TimesTable(g)(r, x) == ObjectWeights(g, TheObject(g, x))(r);
      SumSame(ObjectWeights(g, TheObject(g, x)), column, s);
    }
    SumPlus(Held(g, v), Columns(TimesTable(g), s), Times(g, v), s);
  }

  lemma RowAddsUp(g: Graph, r: nat, s: set<nat>)
    requires g.Valid() && r in s && Closed(g, s)
    ensures ObjectWeights(g, AnObject(g))(r) == Rows(TimesTable(g), s)(r)
  {
    hide Graph.Linked, Graph.Numbered, WeighFields, Closed;
    var row := (x: nat) => TimesTable(g)(r, x);
    if r in g.Objects() {
      var n := |g.nodes[r].fields|;
      HeldFieldsAddUp(g, r, n, s);
      RowIsHeld(g, r);
      SumSame(HeldFields(g, r, n), row, s);
    } else {
      forall x | x in s ensures row(x) == 0 {
        assert TimesTable(g)(r, x) == ObjectWeights(g, TheObject(g, x))(r);
      }
      SumZero(row, s);
    }
  }

  lemma RowIsHeld(g: Graph, r: nat)
    requires g.Valid() && r in g.Objects()
    ensures forall x :: HeldFields(g, r, |g.nodes[r].fields|)(x) == TimesTable(g)(r, x)
  {
    hide Graph.Linked, Graph.Numbered;
    forall x: nat ensures HeldFields(g, r, |g.nodes[r].fields|)(x) == TimesTable(g)(r, x) {
      assert TimesTable(g)(r, x) == ObjectWeights(g, TheObject(g, x))(r);
      assert ObjectWeights(g, TheObject(g, x))(r) == WeighObject(g, r, TheObject(g, x));
    }
  }

  // ---- every reachable object is held ----

  lemma {:induction false} WeightOfHeld(g: Graph, v: Value, x: nat)
    requires g.Valid() && g.Known(v)
    ensures Weigh(g, v, TheObject(g, x)) >= 0
    ensures Holds(g, v, x) ==> Weigh(g, v, TheObject(g, x)) >= 1
    decreases g.Level(v), 1, 0
  {
    if g.IsArray(v) { WeightOfItems(g, g.nodes[v.r].items, g.Level(v), x); }
  }

  lemma {:induction false} WeightOfItems(g: Graph, items: seq<Value>, level: nat, x: nat)
    requires g.Valid()
    requires forall i :: 0 <= i < |items| ==> g.Known(items[i]) && g.Level(items[i]) < level
    ensures WeighItems(g, items, level, TheObject(g, x)) >= 0
    ensures (exists i :: 0 <= i < |items| && Holds(g, items[i], x)) ==>
              WeighItems(g, items, level, TheObject(g, x)) >= 1
    decreases level, 0, |items|
  {
    hide Graph.Linked, Graph.Numbered, Graph.Level, Weigh, TheObject;
    if items != [] {
      var n := |items| - 1;
      WeightOfItems(g, items[..n], level, x);
      WeightOfHeld(g, items[n], x);
      if i :| 0 <= i < |items| && Holds(g, items[i], x) {
        if i < n { assert Holds(g, items[..n][i], x); }
      }
    }
  }

  lemma {:induction false} WeightOfFields(g: Graph, r: nat, n: nat, x: nat)
    requires g.Valid() && r in g.Objects() && n <= |g.nodes[r].fields|
    ensures WeighFields(g, r, n, TheObject(g, x)) >= 0
    ensures (exists i :: 0 <= i < n && Follows(g, r, i, x)) ==> WeighFields(g, r, n, TheObject(g, x)) >= 1
    decreases n
  {
    hide Graph.Linked, Graph.Numbered, Graph.Level, WeighField, Follows;
    if n > 0 {
      WeightOfFields(g, r, n - 1, x);
      WeightOfField(g, r, n - 1, x);
    }
  }

  lemma WeightOfField(g: Graph, r: nat, i: nat, x: nat)
    requires g.Valid() && r in g.Objects() && i < |g.nodes[r].fields|
    ensures WeighField(g, r, i, TheObject(g, x)) >= 0
    ensures Follows(g, r, i, x) ==> WeighField(g, r, i, TheObject(g, x)) >= 1
  {
    hide Graph.Linked, Graph.Numbered, Graph.Level, Weigh;
    var fields := g.nodes[r].fields;
    FieldIsKnown(g, r, i);
    if Decide(g.nodes, fields, fields[i].0, fields[i].1) == Descend { WeightOfHeld(g, fields[i].1, x); }
  }

  lemma WeightsAreNotNegative(g: Graph, x: nat, s: set<nat>)
    requires g.Valid()
    ensures forall r :: ObjectWeights(g, TheObject(g, x))(r) >= 0
    ensures Sum(ObjectWeights(g, TheObject(g, x)), s) >= 0
    ensures forall r :: r in g.Objects() && Edge(g, r, x) ==> ObjectWeights(g, TheObject(g, x))(r) >= 1
  {
    forall r ensures ObjectWeights(g, TheObject(g, x))(r) >= 0 {
      if r in g.Objects() { WeightOfFields(g, r, |g.nodes[r].fields|, x); }
    }
    SumNonNegative(ObjectWeights(g, TheObject(g, x)), s);
    forall r | r in g.Objects() && Edge(g, r, x) ensures ObjectWeights(g, TheObject(g, x))(r) >= 1 {
      WeightOfFields(g, r, |g.nodes[r].fields|, x);
    }
  }

  lemma HeldAtLeastOnce(g: Graph, v: Value, x: nat)
    requires g.Valid() && g.Known(v) && x in Reachable(g, v)
    ensures TimesHeld(g, v, x) >= 1
  {
    var s, f := Reachable(g, v), ObjectWeights(g, TheObject(g, x));
    WeightOfHeld(g, v, x);
    WeightsAreNotNegative(g, x, s);
    VisitsExactlyTheReachable(g, v, s);
    VisitedIsReachable(g, v);
    if !Holds(g, v, x) {
      if r :| r in s && r in g.Objects() && Edge(g, r, x) {
        SumTakeOut(f, s, r);
        WeightsAreNotNegative(g, x, s - {r});
      } else {
        OutsideClosed(g, v, s, x);
        assert false;
      }
    }
  }

  lemma OutsideClosed(g: Graph, v: Value, s: set<nat>, x: nat)
    requires g.Valid() && g.Known(v) && Closed(g, s) && HoldsOnly(g, v, s) && !Holds(g, v, x)
    requires forall r :: r in s && r in g.Objects() ==> !Edge(g, r, x)
    ensures x !in Reachable(g, v)
  {
    var rest := s - {x};
    hide Edge, Holds;
    assert Closed(g, rest);
    assert forall y :: Holds(g, v, y) ==> y in rest;
  }

  // ---- what a response loses ----

  /** The undefined places of a response are those of the input, and one for every time an object is held beyond the
      first. */
  lemma LostOccurrences(g: Graph, v: Value)
    requires g.Valid() && g.Known(v)
    ensures Missings(Sanitize(g, v, {}).0) ==
            Altogether(g, v, AnUndefined()) + (Sum(Times(g, v), Reachable(g, v)) - |Reachable(g, v)|)
  {
    UndefinedPlaces(g, v);
    OccurrencesAddUp(g, v);
    TotalPlus(g, v, AnUndefined(), AnObject(g), Losable(g));
    hide Sanitize, Altogether, Reachable;
  }

  /** So a response loses nothing exactly when every reachable object is held once. */
  lemma NothingLostExactlyWhen(g: Graph, v: Value)
    requires g.Valid() && g.Known(v)
    ensures Missings(Sanitize(g, v, {}).0) >= Altogether(g, v, AnUndefined())
    ensures Missings(Sanitize(g, v, {}).0) == Altogether(g, v, AnUndefined())
            <==> forall x :: x in Reachable(g, v) ==> TimesHeld(g, v, x) == 1
  {
    LostOccurrences(g, v);
    var s := Reachable(g, v);
    forall x | x in s ensures Times(g, v)(x) >= 1 { HeldAtLeastOnce(g, v, x); }
    hide Sanitize, Altogether, Reachable, TimesHeld;
    SumOfOnes(Times(g, v), s);
    assert forall x :: x in s ==> Times(g, v)(x) == TimesHeld(g, v, x);
  }
}
