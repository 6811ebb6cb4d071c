/** What sanitizing a result again changes. */
module SanitizerAgain {
  import opened Wrappers
  import opened Assoc
  import opened JsText
  import opened Sanitizer
  import opened SanitizerWalk
  import opened SanitizerIds

  // ---- sanitizing again ----

  /** What a result is like: no object shows its own id beside a public one or as a UUID, keys are distinct, and only a
      publicId may be a reference into the input. In the strict sense no mapped key shows a UUID either. */
  predicate Settled(t: Tree, strict: bool)
    decreases t
  {
    match t
    case List(items) => SettledItems(items, strict)
    case Record(fields) => SettledFields(fields, strict) && !BothIds(fields) && ApartKeys(fields)
    case Text(_) => true
    case Atomic(_) => true
    case Missing => true
    case Raw(_) => false
  }

  predicate SettledItems(items: seq<Tree>, strict: bool)
    decreases items
  {
    items == [] || (SettledItems(items[..|items| - 1], strict) && Settled(items[|items| - 1], strict))
  }

  predicate SettledFields(fields: seq<Entry>, strict: bool)
    decreases fields
  {
    fields == [] || (SettledFields(fields[..|fields| - 1], strict) && SettledEntry(fields[|fields| - 1], strict))
  }

  predicate SettledEntry(e: Entry, strict: bool)
    decreases e, 1
  {
    if e.key == "publicId" then !e.value.List? && !e.value.Record?
    else Settled(e.value, strict) && !(ShowsUuid(e) && (strict || e.key == "id"))
  }

  predicate ApartKeys(fields: seq<Entry>) {
    forall i, j :: 0 <= i < j < |fields| ==> fields[i].key != fields[j].key
  }

  predicate BothIds(fields: seq<Entry>) {
    exists i, j :: 0 <= i < |fields| && 0 <= j < |fields| && fields[i].key == "id" && fields[j].key == "publicId"
                   && fields[j].value.Text?
  }

  /** `v` in graph `g` is the tree `t`, and `owned` lists the tree's objects there in the order of a walk. */
  ghost predicate Shows(g: Graph, v: Value, t: Tree, owned: seq<nat>)
    decreases t
  {
    match t
    case List(items) =>
      g.IsArray(v) && |g.nodes[v.r].items| == |items| && ShowsItems(g, g.nodes[v.r].items, items, owned)
    case Record(fields) =>
      g.IsPlainObject(v) && |g.nodes[v.r].fields| == |fields| && owned != [] && owned[0] == v.r
      && ShowsFields(g, v.r, fields, owned[1..])
    case Text(s) => v == Str(s) && owned == []
    case Atomic(a) => v == Atom(a) && owned == []
    case Missing => v == Undefined && owned == []
    case Raw(r) => v == Ref(r) && owned == []
  }

  ghost predicate ShowsItems(g: Graph, items: seq<Value>, trees: seq<Tree>, owned: seq<nat>)
    requires |items| == |trees|
    decreases trees
  {
    if trees == [] then owned == [] else
    var n := |trees| - 1;
    exists k :: 0 <= k <= |owned| && ShowsItems(g, items[..n], trees[..n], owned[..k])
                && Shows(g, items[n], trees[n], owned[k..])
  }

  ghost predicate ShowsFields(g: Graph, r: nat, entries: seq<Entry>, owned: seq<nat>)
    requires r in g.nodes && g.nodes[r].Object? && |entries| <= |g.nodes[r].fields|
    decreases entries
  {
    if entries == [] then owned == [] else
    var n := |entries| - 1;
    g.nodes[r].fields[n].0 == entries[n].key &&
    exists k :: 0 <= k <= |owned| && ShowsFields(g, r, entries[..n], owned[..k])
                && Shows(g, g.nodes[r].fields[n].1, entries[n].value, owned[k..])
  }

  lemma {:induction false} ShownField(
      g: Graph, r: nat, entries: seq<Entry>, owned: seq<nat>, j: nat) returns (part: seq<nat>)
    requires r in g.nodes && g.nodes[r].Object? && j < |entries| <= |g.nodes[r].fields|
    requires ShowsFields(g, r, entries, owned)
    ensures g.nodes[r].fields[j].0 == entries[j].key && Shows(g, g.nodes[r].fields[j].1, entries[j].value, part)
    decreases |entries|
  {
    var n := |entries| - 1;
    var k :| 0 <= k <= |owned| && ShowsFields(g, r, entries[..n], owned[..k])
             && Shows(g, g.nodes[r].fields[n].1, entries[n].value, owned[k..]);
    hide Shows;
    if j == n { part := owned[k..]; } else { part := ShownField(g, r, entries[..n], owned[..k], j); }
  }

  /** A settled record whose graph object has a string as its public id has no field id. */
  lemma NoIdBesidePublicId(g: Graph, r: nat, entries: seq<Entry>, owned: seq<nat>)
    requires g.Valid() && r in g.Objects() && |entries| == |g.nodes[r].fields|
    requires ShowsFields(g, r, entries, owned) && !BothIds(entries) && HasPublicId(g.nodes[r].fields)
    ensures forall i :: 0 <= i < |entries| ==> entries[i].key != "id"
  {
    hide ShowsFields, Graph.Linked, Graph.Numbered, Shows;
    var fields := g.nodes[r].fields;
    var j :| 0 <= j < |fields| && fields[j] == ("publicId", Field(fields, "publicId"));
    var part := ShownField(g, r, entries, owned, j);
    ShownString(g, fields[j].1, entries[j].value, part);
    assert entries[j].key == "publicId" && entries[j].value.Text?;
  }

  lemma ShownString(g: Graph, v: Value, t: Tree, owned: seq<nat>)
    requires Shows(g, v, t, owned) && v.Str?
    ensures t.Text?
  {
  }

  // ---- which UUIDs a second walk leaves alone ----

  /** The value that a record shows under a key. */
  function TreeField(fields: seq<Entry>, key: string): Tree {
    if fields == [] then Missing
    else if fields[0].key == key then fields[0].value
    else TreeField(fields[1..], key)
  }

  predicate TreeUsable(t: Tree) { t.Text? && NotBlank(t.text) }

  /** The external identifier of a related object, as its sanitized record shows it. */
  function TreeExternalId(relation: seq<Entry>, preferAlias: bool): Option<string> {
    var alias, publicId := TreeField(relation, "alias"), TreeField(relation, "publicId");
    var own := TreeField(relation, "id");
    if preferAlias && TreeUsable(alias) then Some(alias.text)
    else if TreeUsable(publicId) then Some(publicId.text)
    else if !preferAlias && TreeUsable(alias) then Some(alias.text)
    else if own.Text? && !IsUuid(own.text) then Some(own.text)
    else None
  }

  function TreeReplacement(fields: seq<Entry>, key: string): Option<string> {
    match RelationKey(key)
    case None => None
    case Some(relationKey) =>
      var relation := TreeField(fields, relationKey);
      if relation.Record? then TreeExternalId(relation.fields, UserReference(key)) else None
  }

  /** Every UUID shown under a mapped key is the external identifier of the record shown beside it. */
  predicate Stable(t: Tree)
    decreases t, 1
  {
    match t
    case List(items) => StableItems(items)
    case Record(fields) => StableFields(fields, fields)
    case Text(_) => true
    case Atomic(_) => true
    case Missing => true
    case Raw(_) => true
  }

  predicate StableItems(items: seq<Tree>)
    decreases items, 0
  {
    items == [] || (StableItems(items[..|items| - 1]) && Stable(items[|items| - 1]))
  }

  /** Of the record `all`, the first fields are stable. */
  predicate StableFields(fields: seq<Entry>, all: seq<Entry>)
    decreases fields, 0
  {
    fields == [] || (StableFields(fields[..|fields| - 1], all) && StableEntry(fields[|fields| - 1], all))
  }

  predicate StableEntry(e: Entry, all: seq<Entry>)
    decreases e, 0
  {
    (e.key == "publicId" || Stable(e.value))
    && (RelationKey(e.key).Some? && ShowsUuid(e) ==> TreeReplacement(all, e.key) == Some(e.value.text))
  }

  lemma {:induction false} TreeFieldAt(fields: seq<Entry>, j: nat)
    requires ApartKeys(fields) && j < |fields|
    ensures TreeField(fields, fields[j].key) == fields[j].value
    decreases j
  {
    if j > 0 {
      assert forall i :: 0 <= i < |fields| - 1 ==> fields[1..][i] == fields[i + 1];
      TreeFieldAt(fields[1..], j - 1);
    }
  }

  lemma {:induction false} TreeFieldAbsent(fields: seq<Entry>, key: string)
    requires forall j :: 0 <= j < |fields| ==> fields[j].key != key
    ensures TreeField(fields, key) == Missing
    decreases |fields|
  {
    if fields != [] {
      assert forall i :: 0 <= i < |fields| - 1 ==> fields[1..][i] == fields[i + 1];
      TreeFieldAbsent(fields[1..], key);
    }
  }

  /** The graph object and its record show the same under every key. */
  lemma KeyShown(g: Graph, r: nat, entries: seq<Entry>, owned: seq<nat>, key: string) returns (part: seq<nat>)
    requires r in g.nodes && g.nodes[r].Object? && |entries| == |g.nodes[r].fields|
    requires ShowsFields(g, r, entries, owned) && ApartKeys(entries)
    ensures Shows(g, Field(g.nodes[r].fields, key), TreeField(entries, key), part)
  {
    var fields := g.nodes[r].fields;
    forall j | 0 <= j < |fields| ensures fields[j].0 == entries[j].key {
      var p := ShownField(g, r, entries, owned, j);
    }
    hide ShowsFields;
    if j :| 0 <= j < |entries| && entries[j].key == key {
      TreeFieldAt(entries, j);
      assert Distinct(fields) && fields[j] in fields;
      Found(fields, key, fields[j].1);
      part := ShownField(g, r, entries, owned, j);
    } else {
      TreeFieldAbsent(entries, key);
      assert Lookup(fields, key).None?;
      part := [];
    }
  }

  lemma SameExternalId(g: Graph, r: nat, entries: seq<Entry>, owned: seq<nat>, preferAlias: bool)
    requires r in g.nodes && g.nodes[r].Object? && |entries| == |g.nodes[r].fields|
    requires ShowsFields(g, r, entries, owned) && ApartKeys(entries)
    ensures ExternalId(g.nodes[r].fields, preferAlias) == TreeExternalId(entries, preferAlias)
  {
    var a := KeyShown(g, r, entries, owned, "alias");
    var p := KeyShown(g, r, entries, owned, "publicId");
    var o := KeyShown(g, r, entries, owned, "id");
    hide ShowsFields, ShowsItems, ApartKeys, TreeField, Field, NotBlank, IsUuid;
  }

  lemma {:induction false} SettledAt(fields: seq<Entry>, strict: bool, j: nat)
    requires SettledFields(fields, strict) && j < |fields|
    ensures SettledEntry(fields[j], strict)
    decreases |fields|
  {
    if j < |fields| - 1 { SettledAt(fields[..|fields| - 1], strict, j); }
  }

  /** The replacement that a second walk finds for a mapped key is the one that the record itself shows. */
  lemma SameReplacement(g: Graph, r: nat, entries: seq<Entry>, owned: seq<nat>, key: string)
    requires r in g.nodes && g.nodes[r].Object? && |entries| == |g.nodes[r].fields|
    requires ShowsFields(g, r, entries, owned) && ApartKeys(entries) && SettledFields(entries, false)
    ensures Replacement(g, g.nodes[r].fields, key) == TreeReplacement(entries, key)
  {
    if RelationKey(key).Some? {
      var relationKey := RelationKey(key).value;
      RelationsAreFollowed(g.nodes, g.nodes[r].fields, key, Undefined);
      assert relationKey != "publicId";
      var part := KeyShown(g, r, entries, owned, relationKey);
      var tree, value := TreeField(entries, relationKey), Field(g.nodes[r].fields, relationKey);
      RelationIsSettled(entries, relationKey);
      if tree.Record? {
        SameExternalId(g, value.r, tree.fields, part[1..], UserReference(key));
      }
    }
    hide RelationKey, ShowsFields, ShowsItems, SettledFields, SettledItems, TreeField, Field, ExternalId,
      TreeExternalId, Decide;
  }

  lemma RelationIsSettled(entries: seq<Entry>, key: string)
    requires SettledFields(entries, false) && ApartKeys(entries) && key != "publicId"
    ensures Settled(TreeField(entries, key), false)
  {
    if j :| 0 <= j < |entries| && entries[j].key == key {
      TreeFieldAt(entries, j);
      SettledAt(entries, false, j);
    } else {
      TreeFieldAbsent(entries, key);
    }
    hide SettledFields, ApartKeys, TreeField;
  }

  // ---- the second walk ----

  /** What becomes of a field of a settled record: it is copied or followed, unless it shows a UUID under a mapped
      key. */
  lemma SettledFieldKept(g: Graph, fields: Assoc<string, Value>, e: Entry, value: Value, owned: seq<nat>)
    requires Shows(g, value, e.value, owned) && SettledEntry(e, false)
    requires e.key == "id" ==> !HasPublicId(fields)
    ensures var action := Decide(g.nodes, fields, e.key, value);
            if RelationKey(e.key).Some? && ShowsUuid(e) then
              value == Str(e.value.text)
              && ((action == Drop && Replacement(g, fields, e.key) in {None, Some("")})
                  || (action.Replace? && Replacement(g, fields, e.key) == Some(action.id)))
            else (action == Descend && e.key != "publicId") || (action == Copy && AsIs(value) == e.value && owned == [])
  {
    DecideMeans(g, fields, e.key, value);
    if RelationKey(e.key).Some? { MappedKeys(e.key); }
    if value.Str? { assert e.value == Text(value.text); }
    hide RelationKey, IsUuid, IsPublicId, HasPublicId, ShowsItems, ShowsFields, SettledFields, SettledItems, BothIds,
      Graph.Linked, Graph.Numbered, Replacement;
  }

  function Bag(owned: seq<nat>): set<nat> { set r | r in owned }

  lemma BagSplit(owned: seq<nat>, k: nat)
    requires k <= |owned| && NoRepeats(owned)
    ensures Bag(owned[..k]) + Bag(owned[k..]) == Bag(owned) && Bag(owned[..k]) !! Bag(owned[k..])
    ensures NoRepeats(owned[..k]) && NoRepeats(owned[k..])
  {
    assert owned == owned[..k] + owned[k..];
    forall i, j | 0 <= i < k && k <= j < |owned| ensures owned[i] != owned[j] {}
  }

  lemma {:induction false} Again(g: Graph, v: Value, t: Tree, owned: seq<nat>, seen: set<nat>)
    requires g.Valid() && g.Known(v) && Shows(g, v, t, owned) && Settled(t, false)
    requires NoRepeats(owned) && Bag(owned) !! seen
    ensures var out := Sanitize(g, v, seen); out.1 == seen + Bag(owned) && (out.0 == t <==> Stable(t))
    decreases t, 1
  {
    hide Graph.Linked, Graph.Numbered;
    match t {
      case List(items) =>
        forall i | 0 <= i < |items|
          ensures g.Known(g.nodes[v.r].items[i]) && g.Level(g.nodes[v.r].items[i]) < g.Level(v)
        {
          ItemIsBelow(g, v.r, i);
        }
        AgainItems(g, g.nodes[v.r].items, items, g.Level(v), owned, seen);
      case Record(entries) =>
        AgainRecord(g, v.r, t, owned, seen);
      case Text(_) => NothingAdded(seen);
      case Atomic(_) => NothingAdded(seen);
      case Missing => NothingAdded(seen);
      case Raw(_) =>
    }
  }

  lemma NothingAdded(seen: set<nat>)
    ensures seen + Bag([]) == seen
  {
  }

  lemma {:induction false} AgainItems(
      g: Graph, items: seq<Value>, trees: seq<Tree>, level: nat, owned: seq<nat>, seen: set<nat>)
    requires g.Valid() && |items| == |trees|
    requires forall i :: 0 <= i < |items| ==> g.Known(items[i]) && g.Level(items[i]) < level
    requires ShowsItems(g, items, trees, owned) && SettledItems(trees, false)
    requires NoRepeats(owned) && Bag(owned) !! seen
    ensures var out := SanitizeItems(g, items, level, seen);
            out.1 == seen + Bag(owned) && |out.0| == |trees| && (out.0 == trees <==> StableItems(trees))
    decreases trees, 0
  {
    hide Graph.Linked, Graph.Numbered, Graph.Level, Sanitize;
    if trees != [] {
      var n := |trees| - 1;
      var k := LastItemShown(g, items, trees, owned);
      BagSplit(owned, k);
      assert SettledItems(trees[..n], false) && Settled(trees[n], false);
      AgainItems(g, items[..n], trees[..n], level, owned[..k], seen);
      hide Shows, ShowsItems, Settled, SettledItems, SanitizeItems, NoRepeats, Graph.Objects, Stable, StableItems;
      Again(g, items[n], trees[n], owned[k..], seen + Bag(owned[..k]));
      hide Bag;
      ItemsJoin(g, items, trees, level, seen, Bag(owned[..k]), Bag(owned[k..]));
    } else {
      NothingAdded(seen);
    }
  }

  lemma LastItemShown(g: Graph, items: seq<Value>, trees: seq<Tree>, owned: seq<nat>) returns (k: nat)
    requires g.Valid() && |items| == |trees| > 0 && ShowsItems(g, items, trees, owned)
    ensures var n := |trees| - 1;
            k <= |owned| && ShowsItems(g, items[..n], trees[..n], owned[..k])
            && Shows(g, items[n], trees[n], owned[k..])
  {
    hide Shows, Graph.Linked, Graph.Numbered;
    var n := |trees| - 1;
    k :| 0 <= k <= |owned| && ShowsItems(g, items[..n], trees[..n], owned[..k])
         && Shows(g, items[n], trees[n], owned[k..]);
  }

  lemma ItemsJoin(g: Graph, items: seq<Value>, trees: seq<Tree>, level: nat, seen: set<nat>, a: set<nat>, b: set<nat>)
    requires g.Valid() && |items| == |trees| > 0
    requires forall i :: 0 <= i < |items| ==> g.Known(items[i]) && g.Level(items[i]) < level
    requires var n := |trees| - 1;
             var before, last := SanitizeItems(g, items[..n], level, seen), Sanitize(g, items[n], seen + a);
             before.1 == seen + a && |before.0| == n && (before.0 == trees[..n] <==> StableItems(trees[..n]))
             && last.1 == (seen + a) + b && (last.0 == trees[n] <==> Stable(trees[n]))
    ensures var out := SanitizeItems(g, items, level, seen);
            out.1 == seen + (a + b) && |out.0| == |trees| && (out.0 == trees <==> StableItems(trees))
  {
    hide Graph.Linked, Graph.Numbered, Graph.Level, Sanitize, Stable;
    var n := |trees| - 1;
    var before, last := SanitizeItems(g, items[..n], level, seen).0, Sanitize(g, items[n], seen + a).0;
    assert trees == trees[..n] + [trees[n]];
    assert before + [last] == trees <==> before == trees[..n] && last == trees[n] by {
      assert (before + [last])[..n] == before && (before + [last])[n] == last;
    }
    assert (seen + a) + b == seen + (a + b);
  }

  lemma {:induction false} AgainRecord(g: Graph, r: nat, t: Tree, owned: seq<nat>, seen: set<nat>)
    requires g.Valid() && g.Known(Ref(r)) && t.Record? && Shows(g, Ref(r), t, owned) && Settled(t, false)
    requires NoRepeats(owned) && Bag(owned) !! seen
    ensures var out := Sanitize(g, Ref(r), seen); out.1 == seen + Bag(owned) && (out.0 == t <==> Stable(t))
    decreases t, 0
  {
    hide Graph.Linked, Graph.Numbered;
    var entries := t.fields;
    if HasPublicId(g.nodes[r].fields) { NoIdBesidePublicId(g, r, entries, owned[1..]); }
    BagSplit(owned, 1);
    assert Bag(owned[..1]) == {r};
    forall key ensures Replacement(g, g.nodes[r].fields, key) == TreeReplacement(entries, key) {
      SameReplacement(g, r, entries, owned[1..], key);
    }
    hide ShowsFields, NoRepeats, SettledFields, HasPublicId, StableFields, Replacement, TreeReplacement, ApartKeys,
      BothIds;
    assert r !in seen;
    AgainFields(g, r, entries, entries, owned[1..], seen + {r});
    assert seen + {r} + Bag(owned[1..]) == seen + Bag(owned);
  }

  lemma LastShown(g: Graph, r: nat, entries: seq<Entry>, owned: seq<nat>) returns (k: nat)
    requires g.Valid() && r in g.Objects() && 0 < |entries| <= |g.nodes[r].fields| && ShowsFields(g, r, entries, owned)
    ensures var n := |entries| - 1;
            k <= |owned| && ShowsFields(g, r, entries[..n], owned[..k]) && g.nodes[r].fields[n].0 == entries[n].key
            && Shows(g, g.nodes[r].fields[n].1, entries[n].value, owned[k..])
  {
    hide Shows, Graph.Linked, Graph.Numbered;
    var n := |entries| - 1;
    k :| 0 <= k <= |owned| && ShowsFields(g, r, entries[..n], owned[..k])
         && Shows(g, g.nodes[r].fields[n].1, entries[n].value, owned[k..]);
  }

  /** The graph object finds the same replacements as the record `all` shows. */
  ghost predicate Agrees(g: Graph, r: nat, all: seq<Entry>)
    requires r in g.nodes && g.nodes[r].Object?
  {
    forall key :: Replacement(g, g.nodes[r].fields, key) == TreeReplacement(all, key)
  }

  lemma {:induction false} AgainFields(
      g: Graph, r: nat, entries: seq<Entry>, all: seq<Entry>, owned: seq<nat>, seen: set<nat>)
    requires g.Valid() && r in g.Objects() && |entries| <= |g.nodes[r].fields| && Agrees(g, r, all)
    requires ShowsFields(g, r, entries, owned) && SettledFields(entries, false)
    requires HasPublicId(g.nodes[r].fields) ==> forall i :: 0 <= i < |entries| ==> entries[i].key != "id"
    requires NoRepeats(owned) && Bag(owned) !! seen
    ensures var out := SanitizeFields(g, r, |entries|, seen);
            out.1 == seen + Bag(owned) && |out.0| <= |entries| && (out.0 == entries <==> StableFields(entries, all))
    decreases entries, 1
  {
    hide Graph.Linked, Graph.Numbered, Graph.Level, SanitizeField, HasPublicId, Agrees, StableEntry;
    if entries != [] {
      var n := |entries| - 1;
      var k := LastShown(g, r, entries, owned);
      BagSplit(owned, k);
      assert SettledFields(entries[..n], false) && SettledEntry(entries[n], false);
      AgainFields(g, r, entries[..n], all, owned[..k], seen);
      hide Shows, ShowsFields, SettledEntry, SettledFields, SanitizeFields, NoRepeats, Graph.Objects, StableFields;
      AgainField(g, r, n, entries[n], all, owned[k..], seen + Bag(owned[..k]));
      hide Bag;
      FieldsJoin(g, r, entries, all, seen, Bag(owned[..k]), Bag(owned[k..]));
    } else {
      NothingAdded(seen);
    }
  }

  lemma FieldsJoin(
      g: Graph, r: nat, entries: seq<Entry>, all: seq<Entry>, seen: set<nat>, a: set<nat>, b: set<nat>)
    requires g.Valid() && r in g.Objects() && 0 < |entries| <= |g.nodes[r].fields|
    requires var n := |entries| - 1;
             var before, last := SanitizeFields(g, r, n, seen), SanitizeField(g, r, n, seen + a);
             before.1 == seen + a && |before.0| <= n && (before.0 == entries[..n] <==> StableFields(entries[..n], all))
             && last.1 == (seen + a) + b && |last.0| <= 1 && (last.0 == [entries[n]] <==> StableEntry(entries[n], all))
    ensures var out := SanitizeFields(g, r, |entries|, seen);
            out.1 == seen + (a + b) && |out.0| <= |entries| && (out.0 == entries <==> StableFields(entries, all))
  {
    hide Graph.Linked, Graph.Numbered, Graph.Level, SanitizeField, StableEntry;
    var n := |entries| - 1;
    var before, last := SanitizeFields(g, r, n, seen).0, SanitizeField(g, r, n, seen + a).0;
    JoinEquals(before, last, entries);
    assert (seen + a) + b == seen + (a + b);
  }

  lemma JoinEquals(before: seq<Entry>, last: seq<Entry>, entries: seq<Entry>)
    requires entries != [] && |before| <= |entries| - 1 && |last| <= 1
    ensures before + last == entries <==> before == entries[..|entries| - 1] && last == [entries[|entries| - 1]]
  {
    var n := |entries| - 1;
    assert entries == entries[..n] + [entries[n]];
    if before + last == entries {
      assert |before| == n && |last| == 1;
      assert (before + last)[..n] == before && (before + last)[n] == last[0];
    }
  }

  lemma {:induction false} AgainField(
      g: Graph, r: nat, i: nat, e: Entry, all: seq<Entry>, owned: seq<nat>, seen: set<nat>)
    requires g.Valid() && r in g.Objects() && i < |g.nodes[r].fields| && g.nodes[r].fields[i].0 == e.key
    requires Shows(g, g.nodes[r].fields[i].1, e.value, owned) && Agrees(g, r, all)
    requires (e.key == "id" ==> !HasPublicId(g.nodes[r].fields)) && SettledEntry(e, false)
    requires NoRepeats(owned) && Bag(owned) !! seen
    ensures var out := SanitizeField(g, r, i, seen);
            out.1 == seen + Bag(owned) && |out.0| <= 1 && (out.0 == [e] <==> StableEntry(e, all))
    decreases e, 0
  {
    var fields := g.nodes[r].fields;
    var value := fields[i].1;
    FieldIsKnown(g, r, i);
    SettledFieldKept(g, fields, e, value, owned);
    assert Replacement(g, fields, e.key) == TreeReplacement(all, e.key);
    LeafIsStable(e.value);
    assert ShowsUuid(e) ==> e.value.text != "";
    if ShowsUuid(e) { assert owned == []; }
    hide Graph.Linked, Graph.Numbered, Graph.Level, Sanitize, Shows, Stable, Decide, HasPublicId, NoRepeats, Agrees,
      IsUuid, RelationKey, Replacement, TreeReplacement;
    if Decide(g.nodes, fields, e.key, value) == Descend {
      assert Settled(e.value, false);
      hide Settled;
      Again(g, value, e.value, owned, seen);
    } else {
      assert owned == [] && seen + Bag(owned) == seen;
    }
  }

  lemma LeafIsStable(t: Tree)
    ensures !t.List? && !t.Record? ==> Stable(t)
  {
  }

  // ---- results are settled ----

  ghost predicate NoLeaks(g: Graph, s: set<nat>) {
    forall r, i :: r in s && r in g.Objects() && 0 <= i < |g.nodes[r].fields| ==> !Leaks(g, r, i)
  }

  lemma {:induction false} ResultSettled(g: Graph, v: Value, seen: set<nat>, s: set<nat>, strict: bool)
    requires g.Valid() && g.Known(v) && (strict ==> NoLeaks(g, s)) && Sanitize(g, v, seen).1 <= s
    ensures Settled(Sanitize(g, v, seen).0, strict)
    decreases |g.Objects() - seen|, g.Level(v), 2, 0
  {
    if g.IsArray(v) {
      ResultSettledItems(g, g.nodes[v.r].items, g.Level(v), seen, s, strict);
    } else if g.IsPlainObject(v) && v.r !in seen {
      OneLess(g, seen, v.r);
      ResultSettledFields(g, v.r, |g.nodes[v.r].fields|, seen + {v.r}, s, strict);
    }
  }

  lemma {:induction false} ResultSettledItems(
      g: Graph, items: seq<Value>, level: nat, seen: set<nat>, s: set<nat>, strict: bool)
    requires g.Valid() && (strict ==> NoLeaks(g, s)) && SanitizeItemsSafe(g, items, level)
    requires SanitizeItems(g, items, level, seen).1 <= s
    ensures SettledItems(SanitizeItems(g, items, level, seen).0, strict)
    decreases |g.Objects() - seen|, level, 1, |items|
  {
    if items != [] {
      var n := |items| - 1;
      var before := SanitizeItems(g, items[..n], level, seen);
      FewerLeft(g, seen, before.1);
      hide NoLeaks;
      ResultSettledItems(g, items[..n], level, seen, s, strict);
      ResultSettled(g, items[n], before.1, s, strict);
      SettledOneMore(before.0, Sanitize(g, items[n], before.1).0, strict);
      hide SettledItems, Settled, Sanitize;
    }
  }

  lemma SettledOneMore(items: seq<Tree>, t: Tree, strict: bool)
    ensures SettledItems(items + [t], strict) <==> SettledItems(items, strict) && Settled(t, strict)
  {
    assert (items + [t])[..|items|] == items;
  }

  predicate SanitizeItemsSafe(g: Graph, items: seq<Value>, level: nat) {
    forall i :: 0 <= i < |items| ==> g.Known(items[i]) && g.Level(items[i]) < level
  }

  /** Only one of the two identifiers of an object gets into its result. */
  ghost predicate OneId(fields: Assoc<string, Value>, entries: seq<Entry>) {
    forall i :: 0 <= i < |entries| ==>
      (entries[i].key == "id" ==> !HasPublicId(fields))
      && (entries[i].key == "publicId" && entries[i].value.Text? ==> HasPublicId(fields))
  }

  lemma SettledConcat(fields: Assoc<string, Value>, a: seq<Entry>, b: seq<Entry>, strict: bool)
    requires |b| <= 1 && SettledFields(a, strict) && SettledFields(b, strict) && OneId(fields, a) && OneId(fields, b)
    ensures SettledFields(a + b, strict) && OneId(fields, a + b)
  {
    if b == [] {
      assert a + b == a;
    } else {
      assert (a + b)[..|a|] == a;
    }
    hide HasPublicId, SettledEntry;
  }

  /** The entries keep different keys of the first n fields. */
  ghost predicate KeysWithin(fields: Assoc<string, Value>, n: nat, entries: seq<Entry>)
    requires n <= |fields|
  {
    ApartKeys(entries)
    && forall i :: 0 <= i < |entries| ==> exists j :: 0 <= j < n && fields[j].0 == entries[i].key
  }

  lemma KeysDistinct(g: Graph, r: nat)
    requires g.Valid() && r in g.Objects()
    ensures Distinct(g.nodes[r].fields)
  {
  }

  lemma OneEntry(g: Graph, r: nat, i: nat, seen: set<nat>)
    requires g.Valid() && r in g.Objects() && i < |g.nodes[r].fields|
    ensures var entries := SanitizeField(g, r, i, seen).0;
            entries == [] || (|entries| == 1 && entries[0].key == g.nodes[r].fields[i].0)
  {
    hide Decide, Sanitize, Graph.Linked, Graph.Numbered;
  }

  lemma KeysConcat(fields: Assoc<string, Value>, n: nat, a: seq<Entry>, b: seq<Entry>)
    requires 0 < n <= |fields| && Distinct(fields) && KeysWithin(fields, n - 1, a)
    requires b == [] || (|b| == 1 && b[0].key == fields[n - 1].0)
    ensures KeysWithin(fields, n, a + b)
  {
    if b == [] {
      assert a + b == a;
    } else {
      assert (a + b)[|a|] == b[0];
    }
  }

  lemma {:induction false} ResultSettledFields(g: Graph, r: nat, n: nat, seen: set<nat>, s: set<nat>, strict: bool)
    requires g.Valid() && r in g.Objects() && n <= |g.nodes[r].fields| && (strict ==> NoLeaks(g, s)) && r in s
    requires SanitizeFields(g, r, n, seen).1 <= s
    ensures var entries := SanitizeFields(g, r, n, seen).0;
            SettledFields(entries, strict) && OneId(g.nodes[r].fields, entries) && !BothIds(entries)
            && KeysWithin(g.nodes[r].fields, n, entries)
    decreases |g.Objects() - seen|, g.bound + 1, 1, n
  {
    hide Graph.Linked, Graph.Numbered, Graph.Level, SanitizeField, Sanitize, NoLeaks, HasPublicId;
    if n > 0 {
      FieldsStep(g, r, n, seen);
      hide SanitizeFields, SettledFields, KeysWithin;
      var before := SanitizeFields(g, r, n - 1, seen);
      ResultSettledFields(g, r, n - 1, seen, s, strict);
      ResultSettledField(g, r, n - 1, before.1, s, strict);
      var last := SanitizeField(g, r, n - 1, before.1).0;
      SettledConcat(g.nodes[r].fields, before.0, last, strict);
      KeysDistinct(g, r);
      OneEntry(g, r, n - 1, before.1);
      KeysConcat(g.nodes[r].fields, n, before.0, last);
    }
  }

  lemma SettledOne(e: Entry, strict: bool)
    ensures SettledFields([e], strict) <==> SettledEntry(e, strict)
  {
    assert [e][..0] == [];
  }

  lemma {:induction false} ResultSettledField(g: Graph, r: nat, i: nat, seen: set<nat>, s: set<nat>, strict: bool)
    requires g.Valid() && r in g.Objects() && i < |g.nodes[r].fields| && (strict ==> NoLeaks(g, s)) && r in s
    requires SanitizeField(g, r, i, seen).1 <= s
    ensures var entries := SanitizeField(g, r, i, seen).0;
            |entries| <= 1 && SettledFields(entries, strict) && OneId(g.nodes[r].fields, entries)
    decreases |g.Objects() - seen|, g.bound + 1, 0, 0
  {
    var fields := g.nodes[r].fields;
    var key, value := fields[i].0, fields[i].1;
    var entries := SanitizeField(g, r, i, seen).0;
    FieldIsKnown(g, r, i);
    assert strict ==> !Leaks(g, r, i);
    DecideMeans(g, fields, key, value);
    IdDecision(g, fields, value);
    if key == "publicId" {
      assert (key, value) in fields;
      Found(fields, key, value);
    }
    if Decide(g.nodes, fields, key, value) == Descend {
      ResultSettled(g, value, seen, s, strict);
      TextOnlyFromText(g, value, seen);
    }
    if entries != [] {
      SettledOne(entries[0], strict);
      assert entries == [entries[0]] && entries[0].key == key;
    }
    hide Decide, NoLeaks, Sanitize, Graph.Linked, Graph.Numbered, IsUuid, IsPublicId, Replacement, RelationKey,
      SettledFields;
  }

  lemma IdDecision(g: Graph, fields: Assoc<string, Value>, value: Value)
    ensures HasPublicId(fields) ==> Decide(g.nodes, fields, "id", value) == Drop
    ensures RelationKey("id") == None
  {
  }

  // ---- when a second walk changes nothing ----

  lemma {:induction false} StrictIsStable(t: Tree)
    requires Settled(t, true)
    ensures Stable(t)
    decreases t, 1
  {
    match t {
      case List(items) => StrictItemsStable(items);
      case Record(fields) => StrictFieldsStable(fields, fields);
      case Text(_) =>
      case Atomic(_) =>
      case Missing =>
      case Raw(_) =>
    }
  }

  lemma {:induction false} StrictItemsStable(items: seq<Tree>)
    requires SettledItems(items, true)
    ensures StableItems(items)
    decreases items, 0
  {
    if items != [] {
      StrictItemsStable(items[..|items| - 1]);
      StrictIsStable(items[|items| - 1]);
    }
  }

  lemma {:induction false} StrictFieldsStable(fields: seq<Entry>, all: seq<Entry>)
    requires SettledFields(fields, true)
    ensures StableFields(fields, all)
    decreases fields, 0
  {
    if fields != [] {
      var e := fields[|fields| - 1];
      StrictFieldsStable(fields[..|fields| - 1], all);
      assert SettledEntry(e, true);
      if e.key != "publicId" { StrictIsStable(e.value); }
      hide RelationKey, IsUuid, TreeReplacement;
    }
  }

  /** In any graph that shows a result as a tree, a second walk gives the same tree exactly when every UUID that the
      result shows under a mapped key is the external identifier of the record beside it. */
  lemma SanitizingAgainExactlyWhen(g: Graph, v: Value, again: Graph, w: Value, owned: seq<nat>)
    requires g.Valid() && g.Known(v)
    requires again.Valid() && again.Known(w) && Shows(again, w, Sanitize(g, v, {}).0, owned) && NoRepeats(owned)
    ensures Sanitize(again, w, {}).0 == Sanitize(g, v, {}).0 <==> Stable(Sanitize(g, v, {}).0)
  {
    ResultSettled(g, v, {}, Sanitize(g, v, {}).1, false);
    Again(again, w, Sanitize(g, v, {}).0, owned, {});
  }

  /** So it changes nothing when no reachable UUID is replaced by a UUID. */
  lemma SanitizingAgain(g: Graph, v: Value, again: Graph, w: Value, owned: seq<nat>)
    requires g.Valid() && g.Known(v) && NoLeaks(g, Reachable(g, v))
    requires again.Valid() && again.Known(w) && Shows(again, w, Sanitize(g, v, {}).0, owned) && NoRepeats(owned)
    ensures Sanitize(again, w, {}).0 == Sanitize(g, v, {}).0
  {
    VisitedIsReachable(g, v);
    ResultSettled(g, v, {}, Sanitize(g, v, {}).1, true);
    StrictIsStable(Sanitize(g, v, {}).0);
    SanitizingAgainExactlyWhen(g, v, again, w, owned);
  }
}
