/** A result written out beside its input as the fresh arrays and objects that it consists of. */
module SanitizerFresh {
  import opened Assoc
  import opened Sanitizer
  import opened SanitizerWalk
  import opened SanitizerAgain

  /** The value of a tree, its new nodes, and the next free reference. Parts get their references before the whole. */
  function Fresh(t: Tree, next: nat): (out: (Value, map<nat, Node>, nat))
    ensures next <= out.2
    decreases t
  {
    match t
    case Text(s) => (Str(s), map[], next)
    case Atomic(a) => (Atom(a), map[], next)
    case Missing => (Undefined, map[], next)
    case Raw(r) => (Ref(r), map[], next)
    case List(items) =>
      var parts := FreshItems(items, next);
      (Ref(parts.2), parts.1[parts.2 := Array(parts.0)], parts.2 + 1)
    case Record(fields) =>
      var parts := FreshFields(fields, next);
      (Ref(parts.2), parts.1[parts.2 := Object(parts.0)], parts.2 + 1)
  }

  function FreshItems(items: seq<Tree>, next: nat): (out: (seq<Value>, map<nat, Node>, nat))
    ensures next <= out.2 && |out.0| == |items|
    decreases items
  {
    if items == [] then ([], map[], next) else
    var n := |items| - 1;
    var before := FreshItems(items[..n], next);
    var last := Fresh(items[n], before.2);
    (before.0 + [last.0], before.1 + last.1, last.2)
  }

  function FreshFields(fields: seq<Entry>, next: nat): (out: (Assoc<string, Value>, map<nat, Node>, nat))
    ensures next <= out.2 && |out.0| == |fields|
    decreases fields
  {
    if fields == [] then ([], map[], next) else
    var n := |fields| - 1;
    var before := FreshFields(fields[..n], next);
    var last := Fresh(fields[n].value, before.2);
    (before.0 + [(fields[n].key, last.0)], before.1 + last.1, last.2)
  }

  /** The new objects of a tree in the order of a walk. */
  function Owned(t: Tree, next: nat): seq<nat>
    decreases t
  {
    match t
    case List(items) => OwnedItems(items, next)
    case Record(fields) => [FreshFields(fields, next).2] + OwnedFields(fields, next)
    case Text(_) => []
    case Atomic(_) => []
    case Missing => []
    case Raw(_) => []
  }

  function OwnedItems(items: seq<Tree>, next: nat): seq<nat>
    decreases items
  {
    if items == [] then [] else
    var n := |items| - 1;
    OwnedItems(items[..n], next) + Owned(items[n], FreshItems(items[..n], next).2)
  }

  function OwnedFields(fields: seq<Entry>, next: nat): seq<nat>
    decreases fields
  {
    if fields == [] then [] else
    var n := |fields| - 1;
    OwnedFields(fields[..n], next) + Owned(fields[n].value, FreshFields(fields[..n], next).2)
  }

  // ---- the new objects are all different ----

  ghost predicate Apart(owned: seq<nat>, lo: nat, hi: nat) {
    NoRepeats(owned) && forall i :: 0 <= i < |owned| ==> lo <= owned[i] < hi
  }

  lemma ApartConcat(a: seq<nat>, b: seq<nat>, lo: nat, mid: nat, hi: nat)
    requires Apart(a, lo, mid) && Apart(b, mid, hi) && lo <= mid <= hi
    ensures Apart(a + b, lo, hi)
  {
  }

  lemma Prepended(owned: seq<nat>, lo: nat, r: nat)
    requires Apart(owned, lo, r) && lo <= r
    ensures Apart([r] + owned, lo, r + 1)
  {
  }

  lemma {:induction false} OwnedApart(t: Tree, next: nat)
    ensures Apart(Owned(t, next), next, Fresh(t, next).2)
    decreases t, 0
  {
    match t {
      case List(items) => OwnedItemsApart(items, next);
      case Record(fields) =>
        OwnedFieldsApart(fields, next);
        var parts := FreshFields(fields, next);
        Prepended(OwnedFields(fields, next), next, parts.2);
        assert Owned(t, next) == [parts.2] + OwnedFields(fields, next) && Fresh(t, next).2 == parts.2 + 1;
        hide Apart, FreshFields, OwnedFields, Owned, Fresh;
      case Text(_) =>
      case Atomic(_) =>
      case Missing =>
      case Raw(_) =>
    }
  }

  lemma {:induction false} OwnedItemsApart(items: seq<Tree>, next: nat)
    ensures Apart(OwnedItems(items, next), next, FreshItems(items, next).2)
    decreases items, 0
  {
    if items != [] {
      var n := |items| - 1;
      var mid := FreshItems(items[..n], next).2;
      OwnedItemsApart(items[..n], next);
      OwnedApart(items[n], mid);
      ApartConcat(OwnedItems(items[..n], next), Owned(items[n], mid), next, mid, Fresh(items[n], mid).2);
      hide Apart, Owned, Fresh;
    }
  }

  lemma {:induction false} OwnedFieldsApart(fields: seq<Entry>, next: nat)
    ensures Apart(OwnedFields(fields, next), next, FreshFields(fields, next).2)
    decreases fields, 0
  {
    if fields != [] {
      var n := |fields| - 1;
      var mid := FreshFields(fields[..n], next).2;
      OwnedFieldsApart(fields[..n], next);
      OwnedApart(fields[n].value, mid);
      var last := fields[n].value;
      ApartConcat(OwnedFields(fields[..n], next), Owned(last, mid), next, mid, Fresh(last, mid).2);
      hide Apart, Owned, Fresh;
    }
  }

  // ---- the new nodes are sound ----

  /** The nodes lie in [lo, hi), hold only older ones of their kind, and only a publicId points elsewhere. */
  ghost predicate Sound(nodes: map<nat, Node>, lo: nat, hi: nat) {
    forall r :: r in nodes ==> lo <= r < hi && SoundNode(nodes, r)
  }

  ghost predicate SoundNode(nodes: map<nat, Node>, r: nat)
    requires r in nodes
  {
    match nodes[r]
    case Array(items) => forall i :: 0 <= i < |items| ==> Inside(nodes, items[i]) && (items[i].Ref? ==> items[i].r < r)
    case Object(fields) =>
      Distinct(fields) && forall i :: 0 <= i < |fields| && fields[i].0 != "publicId" ==> Inside(nodes, fields[i].1)
  }

  predicate Inside(nodes: map<nat, Node>, v: Value) { v.Ref? ==> v.r in nodes }

  lemma SoundUnion(a: map<nat, Node>, b: map<nat, Node>, lo: nat, mid: nat, hi: nat)
    requires Sound(a, lo, mid) && Sound(b, mid, hi) && lo <= mid <= hi
    ensures Sound(a + b, lo, hi) && a.Keys !! b.Keys
  {
    forall r | r in a + b ensures lo <= r < hi && SoundNode(a + b, r) {
      if r in b { assert SoundNode(b, r); } else { assert SoundNode(a, r); }
    }
  }

  lemma {:induction false} FreshIsSound(t: Tree, next: nat)
    requires Settled(t, false)
    ensures var out := Fresh(t, next); Sound(out.1, next, out.2) && Inside(out.1, out.0)
    decreases t, 0
  {
    match t {
      case List(items) =>
        FreshItemsSound(items, next);
        var parts := FreshItems(items, next);
        AddSound(parts.1, next, parts.2, Array(parts.0));
      case Record(fields) =>
        FreshFieldsSound(fields, next);
        var parts := FreshFields(fields, next);
        AddSound(parts.1, next, parts.2, Object(parts.0));
      case Text(_) =>
      case Atomic(_) =>
      case Missing =>
      case Raw(_) =>
    }
  }

  lemma AddSound(nodes: map<nat, Node>, lo: nat, r: nat, node: Node)
    requires Sound(nodes, lo, r) && lo <= r
    requires match node
             case Array(items) => forall i :: 0 <= i < |items| ==> Inside(nodes, items[i])
             case Object(fields) =>
               Distinct(fields) &&
               forall i :: 0 <= i < |fields| && fields[i].0 != "publicId" ==> Inside(nodes, fields[i].1)
    ensures Sound(nodes[r := node], lo, r + 1)
  {
    var more := nodes[r := node];
    forall x | x in more ensures lo <= x < r + 1 && SoundNode(more, x) {
      if x != r { assert SoundNode(nodes, x); }
    }
  }

  lemma {:induction false} FreshItemsSound(items: seq<Tree>, next: nat)
    requires SettledItems(items, false)
    ensures var out := FreshItems(items, next);
            Sound(out.1, next, out.2) && forall i :: 0 <= i < |out.0| ==> Inside(out.1, out.0[i])
    decreases items, 0
  {
    if items != [] {
      var n := |items| - 1;
      var before := FreshItems(items[..n], next);
      var last := Fresh(items[n], before.2);
      FreshItemsSound(items[..n], next);
      FreshIsSound(items[n], before.2);
      SoundUnion(before.1, last.1, next, before.2, last.2);
      hide Sound, Fresh, Settled;
    }
  }

  lemma {:induction false} FreshFieldsSound(fields: seq<Entry>, next: nat)
    requires SettledFields(fields, false) && ApartKeys(fields)
    ensures var out := FreshFields(fields, next);
            Sound(out.1, next, out.2)
            && (forall i :: 0 <= i < |out.0| ==> out.0[i].0 == fields[i].key)
            && forall i :: 0 <= i < |out.0| && out.0[i].0 != "publicId" ==> Inside(out.1, out.0[i].1)
    decreases fields, 0
  {
    if fields != [] {
      var n := |fields| - 1;
      var before := FreshFields(fields[..n], next);
      var last := Fresh(fields[n].value, before.2);
      FreshFieldsSound(fields[..n], next);
      if fields[n].key == "publicId" {
        LeafIsSound(fields[n].value, before.2);
      } else {
        FreshIsSound(fields[n].value, before.2);
      }
      SoundUnion(before.1, last.1, next, before.2, last.2);
      hide Sound, Fresh, Settled;
    }
  }

  lemma LeafIsSound(t: Tree, next: nat)
    requires !t.List? && !t.Record?
    ensures Sound(Fresh(t, next).1, next, Fresh(t, next).2)
  {
  }

  // ---- the new nodes show the tree ----

  ghost predicate Contains(g: Graph, nodes: map<nat, Node>) {
    forall r :: r in nodes ==> r in g.nodes && g.nodes[r] == nodes[r]
  }

  lemma HasBoth(g: Graph, a: map<nat, Node>, b: map<nat, Node>)
    requires Contains(g, a + b) && a.Keys !! b.Keys
    ensures Contains(g, a) && Contains(g, b)
  {
    forall r | r in a ensures r in g.nodes && g.nodes[r] == a[r] { assert (a + b)[r] == a[r]; }
    forall r | r in b ensures r in g.nodes && g.nodes[r] == b[r] { assert (a + b)[r] == b[r]; }
  }

  lemma {:induction false} FreshShows(g: Graph, t: Tree, next: nat)
    requires Settled(t, false) || (!t.List? && !t.Record?)
    requires Contains(g, Fresh(t, next).1)
    ensures Shows(g, Fresh(t, next).0, t, Owned(t, next))
    decreases t, 1
  {
    match t {
      case List(items) =>
        var parts := FreshItems(items, next);
        FreshItemsSound(items, next);
        assert Fresh(t, next).1[parts.2] == Array(parts.0);
        assert Contains(g, parts.1) by {
          forall r | r in parts.1 ensures r in g.nodes && g.nodes[r] == parts.1[r] {
            assert r < parts.2;
            assert Fresh(t, next).1[r] == parts.1[r];
          }
        }
        FreshItemsShow(g, items, next);
      case Record(fields) =>
        var parts := FreshFields(fields, next);
        FreshFieldsSound(fields, next);
        assert Fresh(t, next).1[parts.2] == Object(parts.0);
        assert Contains(g, parts.1) by {
          forall r | r in parts.1 ensures r in g.nodes && g.nodes[r] == parts.1[r] {
            assert r < parts.2;
            assert Fresh(t, next).1[r] == parts.1[r];
          }
        }
        FreshFieldsShow(g, parts.2, fields, next);
        assert Owned(t, next)[1..] == OwnedFields(fields, next);
      case Text(_) =>
      case Atomic(_) =>
      case Missing =>
      case Raw(_) =>
    }
  }

  lemma {:induction false} FreshItemsShow(g: Graph, items: seq<Tree>, next: nat)
    requires SettledItems(items, false) && Contains(g, FreshItems(items, next).1)
    ensures ShowsItems(g, FreshItems(items, next).0, items, OwnedItems(items, next))
    decreases items, 0
  {
    if items != [] {
      var n := |items| - 1;
      var before := FreshItems(items[..n], next);
      var last := Fresh(items[n], before.2);
      FreshItemsSound(items[..n], next);
      FreshIsSound(items[n], before.2);
      SoundUnion(before.1, last.1, next, before.2, last.2);
      HasBoth(g, before.1, last.1);
      FreshItemsShow(g, items[..n], next);
      FreshShows(g, items[n], before.2);
      var owned, k := OwnedItems(items, next), |OwnedItems(items[..n], next)|;
      assert FreshItems(items, next).0[..n] == before.0;
      assert owned[..k] == OwnedItems(items[..n], next) && owned[k..] == Owned(items[n], before.2);
      hide Fresh, Owned, Shows, Settled, SettledItems, Sound, Contains, FreshItems, OwnedItems;
    }
  }

  lemma {:induction false} FreshFieldsShow(g: Graph, r: nat, fields: seq<Entry>, next: nat)
    requires SettledFields(fields, false) && ApartKeys(fields) && Contains(g, FreshFields(fields, next).1)
    requires r in g.nodes && g.nodes[r].Object? && FreshFields(fields, next).0 <= g.nodes[r].fields
    ensures ShowsFields(g, r, fields, OwnedFields(fields, next))
    decreases fields, 0
  {
    if fields != [] {
      var n := |fields| - 1;
      var before := FreshFields(fields[..n], next);
      var last := Fresh(fields[n].value, before.2);
      FreshFieldsSound(fields[..n], next);
      if fields[n].key == "publicId" {
        LeafIsSound(fields[n].value, before.2);
      } else {
        FreshIsSound(fields[n].value, before.2);
      }
      SoundUnion(before.1, last.1, next, before.2, last.2);
      HasBoth(g, before.1, last.1);
      FreshFieldsShow(g, r, fields[..n], next);
      FreshShows(g, fields[n].value, before.2);
      var owned, k := OwnedFields(fields, next), |OwnedFields(fields[..n], next)|;
      assert FreshFields(fields, next).0[n] == (fields[n].key, last.0);
      assert owned[..k] == OwnedFields(fields[..n], next) && owned[k..] == Owned(fields[n].value, before.2);
      hide Fresh, Owned, Shows, Settled, SettledFields, Sound, Contains, FreshFields, OwnedFields;
    }
  }

  // ---- the graph ----

  /** A settled tree can be written out beside any nodes, in a graph on which the sanitizer can be called. */
  lemma EveryResultIsShown(nodes: map<nat, Node>, t: Tree) returns (again: Graph, w: Value, owned: seq<nat>)
    requires Settled(t, false)
    ensures forall r :: r in nodes ==> r in again.nodes && again.nodes[r] == nodes[r]
    ensures again.Valid() && again.Known(w) && Shows(again, w, t, owned) && NoRepeats(owned)
  {
    var next := Above(nodes.Keys);
    var out := Fresh(t, next);
    FreshIsSound(t, next);
    assert nodes.Keys !! out.1.Keys;
    again := Graph(nodes + out.1, out.1.Keys, map r | r in out.1 :: r, out.2);
    w, owned := out.0, Owned(t, next);
    FreshIsValid(again, out.1, next);
    FreshShows(again, t, next);
    OwnedApart(t, next);
  }

  lemma {:induction false} Above(s: set<nat>) returns (n: nat)
    ensures forall r :: r in s ==> r < n
    decreases s
  {
    if s == {} {
      n := 0;
    } else {
      var r :| r in s;
      var m := Above(s - {r});
      n := if m <= r then r + 1 else m;
      forall x | x in s ensures x < n {
        if x != r { assert x in s - {r}; }
      }
    }
  }

  lemma FreshIsValid(g: Graph, added: map<nat, Node>, lo: nat)
    requires Sound(added, lo, g.bound) && Contains(g, added) && g.live == added.Keys
    requires g.depth.Keys == added.Keys && forall r :: r in added ==> g.depth[r] == r
    ensures g.Valid()
  {
    forall r | r in g.live
      ensures match g.nodes[r]
              case Object(fields) =>
                Distinct(fields) && forall i :: 0 <= i < |fields| ==>
                  Decide(g.nodes, fields, fields[i].0, fields[i].1) == Descend ==> g.Known(fields[i].1)
              case Array(items) => forall i :: 0 <= i < |items| ==> g.Known(items[i])
    {
      assert SoundNode(added, r);
    }
    forall r | r in g.live && r in g.nodes && g.nodes[r].Array?
      ensures r in g.depth && g.depth[r] < g.bound
              && forall i :: 0 <= i < |g.nodes[r].items| ==> g.Level(g.nodes[r].items[i]) <= g.depth[r]
    {
      assert SoundNode(added, r);
    }
  }

  /** A response written out afresh beside the graph it came from can be sanitized again, and stays the same exactly
      when it is stable; so it does when no reachable UUID is replaced by a UUID. */
  lemma SanitizingTwice(g: Graph, v: Value) returns (again: Graph, w: Value)
    requires g.Valid() && g.Known(v)
    ensures forall r :: r in g.nodes ==> r in again.nodes && again.nodes[r] == g.nodes[r]
    ensures again.Valid() && again.Known(w)
    ensures (exists owned: seq<nat> :: Shows(again, w, Sanitize(g, v, {}).0, owned) && NoRepeats(owned))
    ensures Sanitize(again, w, {}).0 == Sanitize(g, v, {}).0 <==> Stable(Sanitize(g, v, {}).0)
    ensures NoLeaks(g, Reachable(g, v)) ==> Sanitize(again, w, {}).0 == Sanitize(g, v, {}).0
  {
    var t := Sanitize(g, v, {}).0;
    ResultSettled(g, v, {}, Sanitize(g, v, {}).1, false);
    var owned: seq<nat>;
    again, w, owned := EveryResultIsShown(g.nodes, t);
    SanitizingAgainExactlyWhen(g, v, again, w, owned);
    if NoLeaks(g, Reachable(g, v)) { SanitizingAgain(g, v, again, w, owned); }
  }
}
