/** What the sanitizer promises of identifiers. */
module SanitizerIds {
  import opened Wrappers
  import opened Assoc
  import opened JsText
  import opened Sanitizer
  import opened SanitizerWalk

  // ---- no internal identifier is left ----

  /** A key whose value is an identifier: the object's own or that of a related object. */
  predicate IdKey(key: string) { key == "id" || RelationKey(key).Some? }

  predicate ShowsUuid(e: Entry) { IdKey(e.key) && e.value.Text? && IsUuid(e.value.text) }

  /** A tree in which no identifier key holds a UUID, and nothing was passed through unsanitized. */
  predicate Safe(t: Tree)
    decreases t
  {
    match t
    case List(items) => SafeItems(items)
    case Record(fields) => SafeFields(fields)
    case Text(_) => true
    case Atomic(_) => true
    case Missing => true
    case Raw(_) => false
  }

  predicate SafeItems(items: seq<Tree>)
    decreases items
  {
    items == [] || (SafeItems(items[..|items| - 1]) && Safe(items[|items| - 1]))
  }

  predicate SafeFields(fields: seq<Entry>)
    decreases fields
  {
    fields == [] ||
    (SafeFields(fields[..|fields| - 1]) && Safe(fields[|fields| - 1].value) && !ShowsUuid(fields[|fields| - 1]))
  }

  /** The external identifier that replaces a UUID in field `key` of an object, if there is one. */
  function Replacement(g: Graph, fields: Assoc<string, Value>, key: string): Option<string> {
    match RelationKey(key)
    case None => None
    case Some(relationKey) =>
      var relation := Field(fields, relationKey);
      if g.IsPlainObject(relation) then ExternalId(g.nodes[relation.r].fields, UserReference(key)) else None
  }

  /** Field `i` of object `r` is a UUID that would be replaced by another UUID. */
  predicate Leaks(g: Graph, r: nat, i: nat)
    requires r in g.nodes && g.nodes[r].Object? && i < |g.nodes[r].fields|
  {
    var fields := g.nodes[r].fields;
    RelationKey(fields[i].0).Some? && HoldsUuid(fields[i].1)
    && match Replacement(g, fields, fields[i].0) case Some(id) => IsUuid(id) case None => false
  }

  /** Field `i` of object `r` neither passes an object through as a public id nor puts one UUID in place of another. */
  predicate ProperField(g: Graph, r: nat, i: nat)
    requires r in g.nodes && g.nodes[r].Object? && i < |g.nodes[r].fields|
  {
    var fields := g.nodes[r].fields;
    (fields[i].0 == "publicId" ==> !fields[i].1.Ref?) && !Leaks(g, r, i)
  }

  predicate ProperUpTo(g: Graph, r: nat, n: nat)
    requires r in g.nodes && g.nodes[r].Object? && n <= |g.nodes[r].fields|
  {
    forall i :: 0 <= i < n ==> ProperField(g, r, i)
  }

  predicate Proper(g: Graph, r: nat)
    requires r in g.nodes && g.nodes[r].Object?
  {
    ProperUpTo(g, r, |g.nodes[r].fields|)
  }

  lemma ProperOneMore(g: Graph, r: nat, n: nat)
    requires r in g.nodes && g.nodes[r].Object? && 0 < n <= |g.nodes[r].fields|
    ensures ProperUpTo(g, r, n) <==> ProperUpTo(g, r, n - 1) && ProperField(g, r, n - 1)
  {
    hide ProperField;
  }

  // ---- the two shapes of ids ----

  predicate AllIn(s: string, alphabet: string) { forall i :: 0 <= i < |s| ==> s[i] in alphabet }

  /** A UUID is five groups of 8, 4, 4, 4 and 12 hexadecimal digits with dashes between. */
  lemma UuidIs(s: string)
    ensures IsUuid(s) <==>
            exists a, b, c, d, e :: s == a + "-" + b + "-" + c + "-" + d + "-" + e
                                    && |a| == 8 && |b| == |c| == |d| == 4 && |e| == 12
                                    && AllIn(a + b + c + d + e, HEX_DIGITS)
  {
    hide AllIn, IsUuid;
    if IsUuid(s) { var a, b, c, d, e := UuidGroups(s); }
    if a, b, c, d, e :| s == a + "-" + b + "-" + c + "-" + d + "-" + e
                        && |a| == 8 && |b| == |c| == |d| == 4 && |e| == 12
                        && AllIn(a + b + c + d + e, HEX_DIGITS) {
      GroupsAreUuid(a, b, c, d, e);
    }
  }

  lemma UuidGroups(s: string) returns (a: string, b: string, c: string, d: string, e: string)
    requires IsUuid(s)
    ensures s == a + "-" + b + "-" + c + "-" + d + "-" + e && |a| == 8 && |b| == |c| == |d| == 4 && |e| == 12
    ensures AllIn(a + b + c + d + e, HEX_DIGITS)
  {
    HexDigits();
    hide IsHex;
    a, b, c, d, e := s[..8], s[9..13], s[14..18], s[19..23], s[24..];
  }

  const HEX_DIGITS := "0123456789abcdefABCDEF"

  lemma GroupsAreUuid(a: string, b: string, c: string, d: string, e: string)
    requires |a| == 8 && |b| == |c| == |d| == 4 && |e| == 12 && AllIn(a + b + c + d + e, HEX_DIGITS)
    ensures IsUuid(a + "-" + b + "-" + c + "-" + d + "-" + e)
  {
    HexDigits();
    hide IsHex;
    var s, all := a + "-" + b + "-" + c + "-" + d + "-" + e, a + b + c + d + e;
    forall i | 0 <= i < 36
      ensures if i == 8 || i == 13 || i == 18 || i == 23 then s[i] == '-' else IsHex(s[i])
    {
      if i < 8 { assert s[i] == all[i]; }
      else if 8 < i < 13 { assert s[i] == all[i - 1]; }
      else if 13 < i < 18 { assert s[i] == all[i - 2]; }
      else if 18 < i < 23 { assert s[i] == all[i - 3]; }
      else if 23 < i { assert s[i] == all[i - 4]; }
    }
  }

  /** A public id is three letters, an underscore, and eight letters or digits. */
  lemma PublicIdIs(s: string)
    ensures IsPublicId(s) <==>
            exists a, b :: s == a + "_" + b && |a| == 3 && |b| == 8
                           && (forall i :: 0 <= i < 3 ==> 'a' <= a[i] <= 'z' || 'A' <= a[i] <= 'Z')
                           && forall i :: 0 <= i < 8 ==> 'a' <= b[i] <= 'z' || 'A' <= b[i] <= 'Z' || '0' <= b[i] <= '9'
  {
    if IsPublicId(s) {
      var a, b := s[..3], s[4..];
      assert s == a + "_" + b;
    }
    if a, b :| s == a + "_" + b && |a| == 3 && |b| == 8
               && (forall i :: 0 <= i < 3 ==> 'a' <= a[i] <= 'z' || 'A' <= a[i] <= 'Z')
               && forall i :: 0 <= i < 8 ==> 'a' <= b[i] <= 'z' || 'A' <= b[i] <= 'Z' || '0' <= b[i] <= '9' {
      assert s[..3] == a && s[4..] == b;
      forall i | 0 <= i < 3 ensures IsLetter(s[i]) { assert s[i] == a[i]; }
      forall i | 4 <= i < 12 ensures IsLetter(s[i]) || '0' <= s[i] <= '9' { assert s[i] == b[i - 4]; }
    }
  }

  lemma HexDigits()
    ensures forall c :: IsHex(c) <==> c in HEX_DIGITS
  {
  }

  /** Every key of the map ends in "Id" and none is exempt, so a UUID without replacement is always left out. */
  lemma MappedKeys(key: string)
    requires RelationKey(key).Some?
    ensures EndsWithId(key) && !AllowedUuidKey(key) && key != "id" && key != "publicId"
  {
  }

  lemma {:induction false} SafeConcat(a: seq<Entry>, b: seq<Entry>)
    requires |b| <= 1
    ensures SafeFields(a + b) <==> SafeFields(a) && SafeFields(b)
  {
    if b == [] {
      assert a + b == a;
    } else {
      assert (a + b)[..|a|] == a;
      assert b[..0] == [];
    }
  }

  lemma SafeOne(e: Entry)
    ensures SafeFields([e]) <==> Safe(e.value) && !ShowsUuid(e)
  {
    assert [e][..0] == [];
  }

  lemma SafeOneMore(items: seq<Tree>, t: Tree)
    ensures SafeItems(items + [t]) <==> SafeItems(items) && Safe(t)
  {
    assert (items + [t])[..|items|] == items;
  }

  ghost predicate AllProper(g: Graph, seen: set<nat>, now: set<nat>) {
    forall r :: r in now && r !in seen && r in g.Objects() ==> Proper(g, r)
  }

  lemma ProperInSteps(g: Graph, a: set<nat>, b: set<nat>, c: set<nat>)
    requires a <= b <= c
    ensures AllProper(g, a, c) <==> AllProper(g, a, b) && AllProper(g, b, c)
  {
    hide Proper;
  }

  lemma {:induction false} SafeExactly(g: Graph, v: Value, seen: set<nat>)
    requires g.Valid() && g.Known(v)
    ensures var out := Sanitize(g, v, seen); Safe(out.0) <==> AllProper(g, seen, out.1)
    decreases |g.Objects() - seen|, g.Level(v), 2, 0
  {
    if g.IsArray(v) {
      SafeExactlyItems(g, g.nodes[v.r].items, g.Level(v), seen);
    } else if g.IsPlainObject(v) && v.r !in seen {
      OneLess(g, seen, v.r);
      var n := |g.nodes[v.r].fields|;
      SafeExactlyFields(g, v.r, n, seen + {v.r});
      var out := SanitizeFields(g, v.r, n, seen + {v.r});
      hide Proper;
      assert AllProper(g, seen, out.1) <==> Proper(g, v.r) && AllProper(g, seen + {v.r}, out.1);
      assert Proper(g, v.r) <==> ProperUpTo(g, v.r, n) by { ProperIs(g, v.r); }
    }
  }

  lemma ProperIs(g: Graph, r: nat)
    requires r in g.nodes && g.nodes[r].Object?
    ensures Proper(g, r) <==> ProperUpTo(g, r, |g.nodes[r].fields|)
  {
  }

  lemma {:induction false} SafeExactlyItems(g: Graph, items: seq<Value>, level: nat, seen: set<nat>)
    requires g.Valid()
    requires forall i :: 0 <= i < |items| ==> g.Known(items[i]) && g.Level(items[i]) < level
    ensures var out := SanitizeItems(g, items, level, seen); SafeItems(out.0) <==> AllProper(g, seen, out.1)
    decreases |g.Objects() - seen|, level, 1, |items|
  {
    if items != [] {
      var n := |items| - 1;
      var before := SanitizeItems(g, items[..n], level, seen);
      SafeExactlyItems(g, items[..n], level, seen);
      FewerLeft(g, seen, before.1);
      SafeExactly(g, items[n], before.1);
      SafeOneMore(before.0, Sanitize(g, items[n], before.1).0);
      hide Proper, SafeItems, Safe;
    }
  }

  lemma {:induction false} SafeExactlyFields(g: Graph, r: nat, n: nat, seen: set<nat>)
    requires g.Valid() && r in g.Objects() && n <= |g.nodes[r].fields|
    ensures var out := SanitizeFields(g, r, n, seen);
            SafeFields(out.0) <==> AllProper(g, seen, out.1) && ProperUpTo(g, r, n)
    decreases |g.Objects() - seen|, g.bound + 1, 1, n
  {
    hide Graph.Linked, Graph.Numbered, Graph.Level, ProperField, Proper, SanitizeField, Sanitize;
    if n > 0 {
      FewerLeft(g, seen, SanitizeFields(g, r, n - 1, seen).1);
      hide SanitizeFields, SafeFields, AllProper, ProperUpTo;
      var before := SanitizeFields(g, r, n - 1, seen);
      SafeExactlyFields(g, r, n - 1, seen);
      SafeExactlyField(g, r, n - 1, before.1);
      SafeJoin(g, r, n, seen);
    }
  }

  lemma SafeJoin(g: Graph, r: nat, n: nat, seen: set<nat>)
    requires g.Valid() && r in g.Objects() && 0 < n <= |g.nodes[r].fields|
    requires var before := SanitizeFields(g, r, n - 1, seen);
             var last := SanitizeField(g, r, n - 1, before.1);
             (SafeFields(before.0) <==> AllProper(g, seen, before.1) && ProperUpTo(g, r, n - 1))
             && |last.0| <= 1 && (SafeFields(last.0) <==> AllProper(g, before.1, last.1) && ProperField(g, r, n - 1))
    ensures var out := SanitizeFields(g, r, n, seen);
            SafeFields(out.0) <==> AllProper(g, seen, out.1) && ProperUpTo(g, r, n)
  {
    FieldsStep(g, r, n, seen);
    ProperOneMore(g, r, n);
    hide Graph.Linked, Graph.Numbered, SanitizeFields, SanitizeField, SafeFields, AllProper, ProperUpTo, ProperField;
    var before := SanitizeFields(g, r, n - 1, seen);
    var last := SanitizeField(g, r, n - 1, before.1);
    ProperInSteps(g, seen, before.1, last.1);
    SafeConcat(before.0, last.0);
  }

  lemma {:induction false} SafeExactlyField(g: Graph, r: nat, i: nat, seen: set<nat>)
    requires g.Valid() && r in g.Objects() && i < |g.nodes[r].fields|
    ensures var out := SanitizeField(g, r, i, seen);
            |out.0| <= 1 && (SafeFields(out.0) <==> AllProper(g, seen, out.1) && ProperField(g, r, i))
    decreases |g.Objects() - seen|, g.bound + 1, 0, 0
  {
    var fields := g.nodes[r].fields;
    var key, value := fields[i].0, fields[i].1;
    var out := SanitizeField(g, r, i, seen);
    FieldIsKnown(g, r, i);
    DecideMeans(g, fields, key, value);
    if out.0 != [] { SafeOne(out.0[0]); }
    if Decide(g.nodes, fields, key, value) == Descend {
      SafeExactly(g, value, seen);
      TextOnlyFromText(g, value, seen);
    }
    hide Decide, Proper, SafeFields, Sanitize, Graph.Linked, Graph.Numbered, IsUuid, IsPublicId, Replacement,
      RelationKey;
  }

  lemma TextOnlyFromText(g: Graph, v: Value, seen: set<nat>)
    requires g.Valid() && g.Known(v)
    ensures var t := Sanitize(g, v, seen).0; (t.Text? ==> v == Str(t.text)) && !t.Raw?
  {
  }

  /** The decisions, in terms of the properties above. */
  lemma DecideMeans(g: Graph, fields: Assoc<string, Value>, key: string, value: Value)
    ensures match Decide(g.nodes, fields, key, value)
            case Drop => key != "publicId"
                         && (RelationKey(key).Some? && HoldsUuid(value) ==>
                               Replacement(g, fields, key) in {None, Some("")})
            case Copy => key == "publicId" || (RelationKey(key).Some? && value.Str? && !IsUuid(value.text))
            case Replace(id) => key != "id" && key != "publicId" && RelationKey(key).Some? && HoldsUuid(value)
                                && Replacement(g, fields, key) == Some(id)
            case Descend => key != "publicId" && (IdKey(key) ==> !HoldsUuid(value))
  {
    if RelationKey(key).Some? { MappedKeys(key); }
    hide RelationKey, ExternalId, EndsWithId, AllowedUuidKey, HasPublicId, UserReference;
  }

  /** A sanitized response shows no UUID as an identifier and passes no object through, exactly when no object that can
      be reached by the sanitizer's rules holds an object as its public id, or a UUID whose related object has a UUID
      for its external identifier. */
  lemma ResponseIsSafeExactlyWhen(g: Graph, v: Value)
    requires g.Valid() && g.Known(v)
    ensures Safe(Sanitize(g, v, {}).0) <==> forall r :: r in Reachable(g, v) ==> Proper(g, r)
  {
    VisitedIsReachable(g, v);
    SafeExactly(g, v, {});
    hide Sanitize, Safe, Proper, Closed, Holds;
  }

  /** Aliases and public ids are strings of other shapes than UUIDs, when they are given at all. */
  ghost predicate CleanNames(g: Graph) {
    forall r :: r in g.Objects() ==>
      var alias, publicId := Field(g.nodes[r].fields, "alias"), Field(g.nodes[r].fields, "publicId");
      !HoldsUuid(alias) && !HoldsUuid(publicId) && !publicId.Ref?
  }

  lemma CleanNamesAreEnough(g: Graph, v: Value)
    requires g.Valid() && g.Known(v) && CleanNames(g)
    ensures Safe(Sanitize(g, v, {}).0)
  {
    var now := Sanitize(g, v, {}).1;
    forall r | r in now && r in g.Objects() ensures Proper(g, r) {
      forall i | 0 <= i < |g.nodes[r].fields| ensures ProperField(g, r, i) {
        CleanField(g, r, i);
      }
    }
    SafeExactly(g, v, {});
    hide Sanitize, Safe, Proper;
  }

  /** The related object is in a field that is followed. */
  lemma RelationIsLive(g: Graph, r: nat, key: string)
    requires g.Valid() && r in g.Objects() && RelationKey(key).Some?
    ensures var relation := Field(g.nodes[r].fields, RelationKey(key).value);
            g.IsPlainObject(relation) ==> relation.r in g.Objects()
  {
    var fields := g.nodes[r].fields;
    var relation := Field(fields, RelationKey(key).value);
    if g.IsPlainObject(relation) {
      var i :| 0 <= i < |fields| && fields[i] == (RelationKey(key).value, relation);
      RelationsAreFollowed(g.nodes, fields, key, relation);
      FieldIsKnown(g, r, i);
    }
    hide RelationKey, Graph.Linked, Graph.Numbered, Decide;
  }

  lemma RelationsAreFollowed(nodes: map<nat, Node>, fields: Assoc<string, Value>, key: string, value: Value)
    requires RelationKey(key).Some?
    ensures Decide(nodes, fields, RelationKey(key).value, value) == Descend
  {
    var relationKey := RelationKey(key).value;
    assert relationKey[0] in "rdpbvsuft" && relationKey[|relationKey| - 1] != 'd';
    assert "id"[1] == 'd' && "publicId"[7] == 'd';
    if RelationKey(relationKey).Some? { MappedKeys(relationKey); }
    hide RelationAction, IsPublicId, HasPublicId;
  }

  lemma CleanField(g: Graph, r: nat, i: nat)
    requires g.Valid() && CleanNames(g) && r in g.Objects() && i < |g.nodes[r].fields|
    ensures ProperField(g, r, i)
  {
    var fields := g.nodes[r].fields;
    var key, value := fields[i].0, fields[i].1;
    if key == "publicId" {
      assert (key, value) in fields;
      Found(fields, key, value);
    }
    if RelationKey(key).Some? {
      var relation := Field(fields, RelationKey(key).value);
      if g.IsPlainObject(relation) {
        RelationIsLive(g, r, key);
        ExternalIdSource(g.nodes[relation.r].fields, UserReference(key));
      }
    }
    hide RelationKey, IsUuid, UserReference, Graph.Linked, Graph.Numbered, ExternalId;
  }

  lemma ExternalIdSource(relation: Assoc<string, Value>, preferAlias: bool)
    ensures var id := ExternalId(relation, preferAlias);
            id.Some? ==>
              !IsUuid(id.value)
              || Field(relation, "alias") == Str(id.value) || Field(relation, "publicId") == Str(id.value)
  {
    hide IsUuid, NotBlank, Field;
  }

  /** A UUID for an alias is shown in place of the UUID it replaces. */
  lemma UuidAliasIsShown(g: Graph, uuid: string, alias: string)
    requires IsUuid(uuid) && IsUuid(alias) && g.live == {0, 1} && g.depth == map[]
    requires g.nodes == map[0 := Object([("userId", Str(uuid)), ("user", Ref(1))]),
                            1 := Object([("alias", Str(alias))])]
    ensures g.Valid() && !Safe(Sanitize(g, Ref(0), {}).0)
  {
    assert g.Linked() && g.Numbered();
    SafeExactly(g, Ref(0), {});
    assert 0 in Sanitize(g, Ref(0), {}).1;
    AliasLeaks(g, uuid, alias);
    hide Sanitize, Safe, Leaks;
    assert !ProperField(g, 0, 0);
    assert !Proper(g, 0);
  }

  lemma AliasLeaks(g: Graph, uuid: string, alias: string)
    requires IsUuid(uuid) && IsUuid(alias)
    requires g.nodes == map[0 := Object([("userId", Str(uuid)), ("user", Ref(1))]),
                            1 := Object([("alias", Str(alias))])]
    ensures Leaks(g, 0, 0)
  {
    var fields, related := g.nodes[0].fields, g.nodes[1].fields;
    assert ("user", Ref(1)) == fields[1] && ("alias", Str(alias)) == related[0];
    Found(fields, "user", Ref(1));
    Found(related, "alias", Str(alias));
    assert NotBlank(alias) by { assert IsHex(alias[0]); }
    hide IsUuid, NotBlank;
  }

  /** An object in place of a public id is passed through with whatever it holds, here its own UUID. */
  lemma ObjectAsPublicIdIsShown(g: Graph, uuid: string)
    requires IsUuid(uuid) && g.live == {0} && g.depth == map[]
    requires g.nodes == map[0 := Object([("publicId", Ref(1))]), 1 := Object([("id", Str(uuid))])]
    ensures g.Valid() && Sanitize(g, Ref(0), {}).0 == Record([Entry("publicId", Raw(1))])
    ensures !Safe(Sanitize(g, Ref(0), {}).0)
  {
    var fields := g.nodes[0].fields;
    assert Decide(g.nodes, fields, "publicId", Ref(1)) == Copy;
    assert g.Linked() && g.Numbered();
    assert SanitizeField(g, 0, 0, {0}) == ([Entry("publicId", Raw(1))], {0});
    FieldsStep(g, 0, 1, {0});
    assert SanitizeFields(g, 0, 0, {0}) == ([], {0});
    SafeOne(Entry("publicId", Raw(1)));
    hide Graph.Linked, Graph.Numbered, Decide, IsUuid;
  }
}
