/** What a sanitized record shows of each field of its object, told from the field and the objects beside it. */
module SanitizerFields {
  import opened Wrappers
  import opened JsText
  import opened Assoc
  import opened Sanitizer
  import opened SanitizerIds

  /** The thirteen ids that stand for an object under another key, and that key. */
  predicate Related(key: string, name: string) {
    (key == "routeId" && name == "route") || (key == "driverId" && name == "driver")
    || (key == "passengerId" && name == "passenger") || (key == "bookingId" && name == "booking")
    || (key == "payoutId" && name == "payout") || (key == "paymentId" && name == "payment")
    || (key == "vehicleId" && name == "vehicle") || (key == "documentId" && name == "document")
    || (key == "stopId" && name == "stop") || (key == "pickupStopId" && name == "pickupStop")
    || (key == "userId" && name == "user") || (key == "fromUserId" && name == "fromUser")
    || (key == "toUserId" && name == "toUser")
  }

  ghost predicate IsRelated(key: string) { exists name :: Related(key, name) }

  /** The ids of users, who go by their alias first. */
  predicate OfUser(key: string) { key in {"userId", "passengerId", "fromUserId", "toUserId"} }

  ghost predicate HasName(other: Assoc<string, Value>, key: string) {
    exists s :: (key, Str(s)) in other && NotBlank(s)
  }

  /** The object goes by `id`: by its alias or public id if one is not blank, users by the alias first and others by the
      public id first, and otherwise by its own id unless that is a UUID or empty. */
  ghost predicate GoesBy(other: Assoc<string, Value>, user: bool, id: string) {
    if user && HasName(other, "alias") then ("alias", Str(id)) in other
    else if HasName(other, "publicId") then ("publicId", Str(id)) in other
    else if HasName(other, "alias") then ("alias", Str(id)) in other
    else ("id", Str(id)) in other && !IsUuid(id) && id != ""
  }

  /** The object that belongs to the id under `key` stands beside it and goes by `id`. */
  ghost predicate NamedBeside(nodes: map<nat, Node>, fields: Assoc<string, Value>, key: string, id: string) {
    exists name, x :: Related(key, name) && (name, Ref(x)) in fields && x in nodes && nodes[x].Object?
                      && GoesBy(nodes[x].fields, OfUser(key), id)
  }

  /** The value itself; a reference stays a reference. */
  predicate Same(v: Value, t: Tree) {
    match v
    case Str(s) => t == Text(s)
    case Atom(a) => t == Atomic(a)
    case Undefined => t == Missing
    case Ref(r) => t == Raw(r)
  }

  /** The sanitized value, for some set of objects visited before. */
  ghost predicate Walked(g: Graph, v: Value, seen: set<nat>, t: Option<Tree>)
    requires g.Valid()
  {
    g.Known(v) && exists s: set<nat> :: seen <= s && t == Some(Sanitize(g, v, s).0)
  }

  /** What the record shows of field i: a tree, or nothing. */
  ghost predicate FieldMeans(g: Graph, r: nat, i: nat, seen: set<nat>, t: Option<Tree>)
    requires g.Valid() && r in g.Objects() && i < |g.nodes[r].fields|
  {
    var fields := g.nodes[r].fields;
    var key, value := fields[i].0, fields[i].1;
    if key == "id" then
      if (exists s :: ("publicId", Str(s)) in fields) || (value.Str? && IsUuid(value.text)) then t == None
      else Walked(g, value, seen, t)
    else if key == "publicId" then t.Some? && Same(value, t.value)
    else if IsRelated(key) && value.Str? && IsUuid(value.text) then
      (forall id :: NamedBeside(g.nodes, fields, key, id) ==> t == Some(Text(id)))
      && ((forall id :: !NamedBeside(g.nodes, fields, key, id)) ==> t == None)
    else if IsRelated(key) && value.Str? && IsPublicId(value.text) then t == Some(Text(value.text))
    else Walked(g, value, seen, t)
  }

  /** Of this key the record has one entry, with this tree, or none. */
  ghost predicate Shows(entries: seq<Entry>, key: string, t: Option<Tree>) {
    if t.None? then forall e :: e in entries ==> e.key != key
    else Entry(key, t.value) in entries && forall e :: e in entries && e.key == key ==> e.value == t.value
  }

  ghost predicate ShowsField(g: Graph, r: nat, i: nat, seen: set<nat>, entries: seq<Entry>)
    requires g.Valid() && r in g.Objects() && i < |g.nodes[r].fields|
  {
    exists t :: FieldMeans(g, r, i, seen, t) && Shows(entries, g.nodes[r].fields[i].0, t)
  }

  // ---- the relation table and the lookups ----

  lemma RelatedIs(key: string, name: string)
    ensures RelationKey(key) == Some(name) <==> Related(key, name)
  {
  }

  lemma FieldIs(fields: Assoc<string, Value>, key: string, v: Value)
    requires Distinct(fields)
    ensures (key, v) in fields ==> Field(fields, key) == v
    ensures v != Undefined && Field(fields, key) == v ==> (key, v) in fields
  {
    if (key, v) in fields { Found(fields, key, v); }
  }

  lemma NameIs(other: Assoc<string, Value>, key: string)
    requires Distinct(other)
    ensures HasName(other, key) <==> Usable(Field(other, key))
  {
    if s :| (key, Str(s)) in other && NotBlank(s) { FieldIs(other, key, Str(s)); }
    FieldIs(other, key, Field(other, key));
  }

  lemma GoesByIs(other: Assoc<string, Value>, user: bool, id: string)
    requires Distinct(other)
    ensures ExternalId(other, user) == Some(id) && id != "" <==> GoesBy(other, user, id)
  {
    NameIs(other, "alias");
    NameIs(other, "publicId");
    FieldIs(other, "alias", Str(id));
    FieldIs(other, "publicId", Str(id));
    FieldIs(other, "id", Str(id));
    hide Field, HasName, Distinct, IsUuid;
  }

  // ---- one field ----

  lemma BesideIs(g: Graph, r: nat, i: nat, id: string)
    requires g.Valid() && r in g.Objects() && i < |g.nodes[r].fields|
    requires RelationKey(g.nodes[r].fields[i].0).Some?
    ensures var fields := g.nodes[r].fields;
            var key := fields[i].0;
            var relation := Field(fields, RelationKey(key).value);
            NamedBeside(g.nodes, fields, key, id)
            <==> g.IsPlainObject(relation) && ExternalId(g.nodes[relation.r].fields, UserReference(key)) == Some(id)
                 && id != ""
  {
    hide Graph.Numbered, GoesBy, ExternalId, Field;
    var fields := g.nodes[r].fields;
    var key := fields[i].0;
    var name := RelationKey(key).value;
    RelatedIs(key, name);
    assert Distinct(fields);
    FieldIs(fields, name, Field(fields, name));
    forall x | (name, Ref(x)) in fields ensures Field(fields, name) == Ref(x) { FieldIs(fields, name, Ref(x)); }
    if g.IsPlainObject(Field(fields, name)) {
      RelationLive(g, r, key, name);
      GoesByIs(g.nodes[Field(fields, name).r].fields, UserReference(key), id);
    }
    forall other | Related(key, other) ensures other == name { RelatedIs(key, other); }
    hide RelationKey, Related, Graph.Linked;
  }

  /** What stands under the name of a relation is sanitized too, so it is a live object. */
  lemma RelationLive(g: Graph, r: nat, key: string, name: string)
    requires g.Valid() && r in g.Objects() && Related(key, name)
    requires g.IsPlainObject(Field(g.nodes[r].fields, name))
    ensures var x := Field(g.nodes[r].fields, name).r; x in g.live && Distinct(g.nodes[x].fields)
  {
    var fields := g.nodes[r].fields;
    FieldIs(fields, name, Field(fields, name));
    var j :| 0 <= j < |fields| && fields[j] == (name, Field(fields, name));
    assert Decide(g.nodes, fields, name, Field(fields, name)) == Descend by { NamesAreNoIds(key, name); }
    FieldIsKnown(g, r, j);
  }

  /** Keys end in d and names do not. */
  lemma KeysEndInD(key: string)
    ensures RelationKey(key).Some? || key == "id" || key == "publicId" ==> key != "" && key[|key| - 1] == 'd'
  {
  }

  lemma NamesDoNot(key: string, name: string)
    requires Related(key, name)
    ensures name != "" && name[|name| - 1] != 'd'
  {
  }

  lemma NamesAreNoIds(key: string, name: string)
    requires Related(key, name)
    ensures name != "id" && name != "publicId" && RelationKey(name) == None
  {
    hide Related, RelationKey;
    NamesDoNot(key, name);
    KeysEndInD(name);
  }

  lemma RelationDecided(g: Graph, r: nat, i: nat)
    requires g.Valid() && r in g.Objects() && i < |g.nodes[r].fields|
    requires var f := g.nodes[r].fields[i]; RelationKey(f.0).Some? && HoldsUuid(f.1)
    ensures var fields := g.nodes[r].fields;
            var action := Decide(g.nodes, fields, fields[i].0, fields[i].1);
            (action == Drop && forall id :: !NamedBeside(g.nodes, fields, fields[i].0, id))
            || (action.Replace? && forall id :: NamedBeside(g.nodes, fields, fields[i].0, id) <==> action.id == id)
  {
    hide Graph.Linked, Graph.Numbered, NamedBeside, ExternalId, IsUuid, IsPublicId, Field;
    forall id: string
      ensures NamedBeside(g.nodes, g.nodes[r].fields, g.nodes[r].fields[i].0, id)
              <==> (var relation := Field(g.nodes[r].fields, RelationKey(g.nodes[r].fields[i].0).value);
                    g.IsPlainObject(relation) && id != ""
                    && ExternalId(g.nodes[relation.r].fields, UserReference(g.nodes[r].fields[i].0)) == Some(id))
    {
      BesideIs(g, r, i, id);
    }
    MappedKeys(g.nodes[r].fields[i].0);
    hide RelationKey, EndsWithId, AllowedUuidKey, UserReference;
  }

  function OneEntry(key: string, t: Option<Tree>): seq<Entry> {
    if t.None? then [] else [Entry(key, t.value)]
  }

  lemma PublicIdShown(g: Graph, r: nat)
    requires g.Valid() && r in g.Objects()
    ensures var fields := g.nodes[r].fields; HasPublicId(fields) <==> exists s :: ("publicId", Str(s)) in fields
  {
    var fields := g.nodes[r].fields;
    assert Distinct(fields);
    FieldIs(fields, "publicId", Field(fields, "publicId"));
    if s :| ("publicId", Str(s)) in fields { FieldIs(fields, "publicId", Str(s)); }
  }

  lemma IsRelatedIs(key: string)
    ensures IsRelated(key) <==> RelationKey(key).Some?
    ensures IsRelated(key) ==> key != "id" && key != "publicId"
  {
    if RelationKey(key).Some? {
      RelatedIs(key, RelationKey(key).value);
      MappedKeys(key);
    }
    forall name | Related(key, name) ensures RelationKey(key) == Some(name) { RelatedIs(key, name); }
    hide Related, RelationKey;
  }

  /** The same as FieldMeans, of the decision instead of the tree. */
  ghost predicate ActionMeans(g: Graph, r: nat, i: nat, action: Action)
    requires g.Valid() && r in g.Objects() && i < |g.nodes[r].fields|
  {
    var fields := g.nodes[r].fields;
    var key, value := fields[i].0, fields[i].1;
    if key == "id" then
      action == if (exists s :: ("publicId", Str(s)) in fields) || (value.Str? && IsUuid(value.text)) then Drop
                else Descend
    else if key == "publicId" then action == Copy
    else if IsRelated(key) && value.Str? && IsUuid(value.text) then
      (forall id :: NamedBeside(g.nodes, fields, key, id) ==> action == Replace(id))
      && ((forall id :: !NamedBeside(g.nodes, fields, key, id)) ==> action == Drop)
      && (action == Drop || action.Replace?)
    else if IsRelated(key) && value.Str? && IsPublicId(value.text) then action == Copy
    else action == Descend
  }

  lemma DecisionMeans(g: Graph, r: nat, i: nat)
    requires g.Valid() && r in g.Objects() && i < |g.nodes[r].fields|
    ensures var fields := g.nodes[r].fields; ActionMeans(g, r, i, Decide(g.nodes, fields, fields[i].0, fields[i].1))
  {
    hide Graph.Linked, Graph.Numbered, RelationKey, IsRelated, IsUuid, IsPublicId, NamedBeside, HasPublicId, Field,
      ExternalId;
    var fields := g.nodes[r].fields;
    var key, value := fields[i].0, fields[i].1;
    PublicIdShown(g, r);
    IsRelatedIs(key);
    if IsRelated(key) && HoldsUuid(value) {
      RelationDecided(g, r, i);
      hide RelationAction;
      var action := Decide(g.nodes, fields, key, value);
      if action.Replace? { assert NamedBeside(g.nodes, fields, key, action.id); }
    }
  }

  /** What one field adds to the record. */
  lemma OneFieldMeans(g: Graph, r: nat, i: nat, first: set<nat>, seen: set<nat>) returns (t: Option<Tree>)
    requires g.Valid() && r in g.Objects() && i < |g.nodes[r].fields| && first <= seen
    ensures FieldMeans(g, r, i, first, t)
    ensures SanitizeField(g, r, i, seen).0 == OneEntry(g.nodes[r].fields[i].0, t)
  {
    hide Graph.Linked, Graph.Numbered, Graph.Level, Decide, IsRelated, IsUuid, IsPublicId, NamedBeside, Sanitize;
    FieldIsKnown(g, r, i);
    DecisionMeans(g, r, i);
    var out := SanitizeField(g, r, i, seen);
    t := if out.0 == [] then None else Some(out.0[0].value);
    var value := g.nodes[r].fields[i].1;
    var fields := g.nodes[r].fields;
    if Decide(g.nodes, fields, fields[i].0, value) == Descend {
      assert t == Some(Sanitize(g, value, seen).0);
      assert Walked(g, value, first, t);
    }
  }

  // ---- the record ----

  lemma ShowsLonger(entries: seq<Entry>, more: seq<Entry>, key: string, t: Option<Tree>)
    requires Shows(entries, key, t) && forall e :: e in more ==> e.key != key
    ensures Shows(entries + more, key, t)
  {
  }

  lemma ShowsLast(entries: seq<Entry>, key: string, t: Option<Tree>)
    requires forall e :: e in entries ==> e.key != key
    ensures Shows(entries + OneEntry(key, t), key, t)
  {
    if t.Some? { assert (entries + OneEntry(key, t))[|entries|] == Entry(key, t.value); }
  }

  ghost predicate FirstShown(g: Graph, r: nat, n: nat, seen: set<nat>, entries: seq<Entry>)
    requires g.Valid() && r in g.Objects() && n <= |g.nodes[r].fields|
  {
    (forall i :: 0 <= i < n ==> ShowsField(g, r, i, seen, entries))
    && forall e :: e in entries ==> exists i :: 0 <= i < n && g.nodes[r].fields[i].0 == e.key
  }

  lemma DistinctFields(g: Graph, r: nat)
    requires g.Valid() && r in g.Objects()
    ensures Distinct(g.nodes[r].fields)
  {
  }

  lemma OneMoreShown(g: Graph, r: nat, n: nat, seen: set<nat>, entries: seq<Entry>, t: Option<Tree>)
    requires g.Valid() && r in g.Objects() && 0 < n <= |g.nodes[r].fields|
    requires FirstShown(g, r, n - 1, seen, entries) && FieldMeans(g, r, n - 1, seen, t)
    ensures FirstShown(g, r, n, seen, entries + OneEntry(g.nodes[r].fields[n - 1].0, t))
  {
    hide Graph.Linked, Graph.Numbered, FieldMeans, Shows;
    DistinctFields(g, r);
    var fields := g.nodes[r].fields;
    var key := fields[n - 1].0;
    forall i | 0 <= i < n ensures ShowsField(g, r, i, seen, entries + OneEntry(key, t)) {
      if i == n - 1 {
        ShowsLast(entries, key, t);
      } else {
        assert ShowsField(g, r, i, seen, entries);
        var u :| FieldMeans(g, r, i, seen, u) && Shows(entries, fields[i].0, u);
        ShowsLonger(entries, OneEntry(key, t), fields[i].0, u);
      }
    }
  }

  lemma {:induction false} FirstFieldsShown(g: Graph, r: nat, n: nat, seen: set<nat>)
    requires g.Valid() && r in g.Objects() && n <= |g.nodes[r].fields|
    ensures FirstShown(g, r, n, seen, SanitizeFields(g, r, n, seen).0)
    decreases n
  {
    hide Graph.Linked, Graph.Numbered, Sanitize, SanitizeField;
    if n > 0 {
      hide FirstShown, FieldMeans;
      FirstFieldsShown(g, r, n - 1, seen);
      FieldsStep(g, r, n, seen);
      var before := SanitizeFields(g, r, n - 1, seen);
      var t := OneFieldMeans(g, r, n - 1, seen, before.1);
      OneMoreShown(g, r, n, seen, before.0, t);
    }
  }

  /** The record of an object shows each of its fields as FieldMeans says, and no others. */
  lemma EveryFieldShown(g: Graph, r: nat, seen: set<nat>)
    requires g.Valid() && r in g.Objects() && r !in seen
    ensures var out := Sanitize(g, Ref(r), seen).0;
            out.Record?
            && (forall i :: 0 <= i < |g.nodes[r].fields| ==> ShowsField(g, r, i, seen + {r}, out.fields))
            && forall e :: e in out.fields ==> exists v :: (e.key, v) in g.nodes[r].fields
  {
    var n := |g.nodes[r].fields|;
    FirstFieldsShown(g, r, n, seen + {r});
    assert g.IsPlainObject(Ref(r)) && g.Known(Ref(r));
    assert Sanitize(g, Ref(r), seen).0 == Record(SanitizeFields(g, r, n, seen + {r}).0);
    hide Graph.Linked, Graph.Numbered, SanitizeFields, ShowsField;
    var out := Sanitize(g, Ref(r), seen).0;
    forall e | e in out.fields ensures exists v :: (e.key, v) in g.nodes[r].fields {
      var i :| 0 <= i < n && g.nodes[r].fields[i].0 == e.key;
      assert (e.key, g.nodes[r].fields[i].1) in g.nodes[r].fields;
    }
  }

  /** Under an id that holds a UUID the record shows what the object beside it goes by. */
  lemma RelationShown(g: Graph, r: nat, seen: set<nat>, key: string, name: string, uuid: string, x: nat, id: string)
    requires g.Valid() && r in g.Objects() && r !in seen && Related(key, name) && IsUuid(uuid)
    requires (key, Str(uuid)) in g.nodes[r].fields && (name, Ref(x)) in g.nodes[r].fields
    requires x in g.nodes && g.nodes[x].Object? && GoesBy(g.nodes[x].fields, OfUser(key), id)
    ensures var out := Sanitize(g, Ref(r), seen).0; out.Record? && Shows(out.fields, key, Some(Text(id)))
  {
    EveryFieldShown(g, r, seen);
    IsRelatedIs(key);
    var fields := g.nodes[r].fields;
    var i :| 0 <= i < |fields| && fields[i] == (key, Str(uuid));
    assert NamedBeside(g.nodes, fields, key, id);
    hide Graph.Linked, Graph.Numbered, Sanitize, Shows, GoesBy, Related, IsUuid, NamedBeside, RelationKey;
    assert ShowsField(g, r, i, seen + {r}, Sanitize(g, Ref(r), seen).0.fields);
  }

  /** A rating shows who gave it and who got it by their aliases, each under its own id. */
  lemma RatingShown(g: Graph, r: nat, from: string, to: string, a: nat, b: nat)
    requires g.Valid() && r in g.Objects() && IsUuid(from) && IsUuid(to)
    requires {("fromUserId", Str(from)), ("toUserId", Str(to)), ("fromUser", Ref(a)), ("toUser", Ref(b))}
             <= set f | f in g.nodes[r].fields
    requires a in g.nodes && g.nodes[a].Object? && ("alias", Str("ana")) in g.nodes[a].fields
    requires b in g.nodes && g.nodes[b].Object? && ("alias", Str("beto")) in g.nodes[b].fields
    ensures var out := Sanitize(g, Ref(r), {}).0;
            out.Record? && Shows(out.fields, "fromUserId", Some(Text("ana")))
            && Shows(out.fields, "toUserId", Some(Text("beto")))
  {
    assert NotBlank("ana") && NotBlank("beto") by { assert !IsSpace("ana"[0]) && !IsSpace("beto"[0]); }
    var fields := g.nodes[r].fields;
    var f := {("fromUserId", Str(from)), ("toUserId", Str(to)), ("fromUser", Ref(a)), ("toUser", Ref(b))};
    assert ("fromUserId", Str(from)) in f && ("toUserId", Str(to)) in f;
    assert ("fromUser", Ref(a)) in f && ("toUser", Ref(b)) in f;
    hide NotBlank, Sanitize, Shows, Graph.Linked, Graph.Numbered, IsUuid;
    RelationShown(g, r, {}, "fromUserId", "fromUser", from, a, "ana");
    RelationShown(g, r, {}, "toUserId", "toUser", to, b, "beto");
  }

  // ---- arrays and leaves ----

  /** An array keeps its length, and each item is sanitized in its place; other values than arrays and plain objects are
      kept, and an object that was visited before becomes undefined. */
  lemma ValueShown(g: Graph, v: Value, seen: set<nat>)
    requires g.Valid() && g.Known(v)
    ensures var out := Sanitize(g, v, seen).0;
            if g.IsArray(v) then
              out.List? && |out.items| == |g.nodes[v.r].items|
              && forall i :: 0 <= i < |out.items| ==> Walked(g, g.nodes[v.r].items[i], seen, Some(out.items[i]))
            else if g.IsPlainObject(v) then if v.r in seen then out == Missing else out.Record?
            else Same(v, out)
  {
    hide Graph.Numbered, Walked;
    if g.IsArray(v) {
      forall i | 0 <= i < |g.nodes[v.r].items|
        ensures g.Known(g.nodes[v.r].items[i]) && g.Level(g.nodes[v.r].items[i]) < g.Level(v)
      {
        ItemIsBelow(g, v.r, i);
      }
      ItemsShown(g, g.nodes[v.r].items, g.Level(v), seen);
    }
  }

  lemma {:induction false} ItemsShown(g: Graph, items: seq<Value>, level: nat, seen: set<nat>)
    requires g.Valid()
    requires forall i :: 0 <= i < |items| ==> g.Known(items[i]) && g.Level(items[i]) < level
    ensures var out := SanitizeItems(g, items, level, seen).0;
            |out| == |items| && forall i :: 0 <= i < |out| ==> Walked(g, items[i], seen, Some(out[i]))
    decreases |items|
  {
    if items != [] {
      var n := |items| - 1;
      ItemsShown(g, items[..n], level, seen);
      var before := SanitizeItems(g, items[..n], level, seen);
      assert Walked(g, items[n], seen, Some(Sanitize(g, items[n], before.1).0));
      hide Graph.Linked, Graph.Numbered, Sanitize, Walked;
    }
  }
}
