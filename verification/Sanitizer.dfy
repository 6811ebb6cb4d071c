/** response-sanitizer.util.ts: the walk over an object graph that replaces or removes internal identifiers. */
module Sanitizer {
  import opened Wrappers
  import opened JsText
  import opened Assoc
  import Sums

  // ---- the graph ----

  /** A JavaScript value. Atoms are all values that are neither strings, undefined, arrays nor plain objects:
      numbers, booleans, null, dates, buffers. */
  datatype Value = Str(text: string) | Atom(id: int) | Undefined | Ref(r: nat)

  /** A plain object with its own fields in entry order, or an array. */
  datatype Node = Object(fields: Assoc<string, Value>) | Array(items: seq<Value>)

  predicate ArrayAt(nodes: map<nat, Node>, v: Value) { v.Ref? && v.r in nodes && nodes[v.r].Array? }

  /** isPlainObject. */
  predicate PlainObjectAt(nodes: map<nat, Node>, v: Value) { v.Ref? && v.r in nodes && nodes[v.r].Object? }

  /** `live` holds the nodes that a walk may enter, and with each of them all that the sanitizer follows from it; the
      rest of the graph may look like anything. `depth` numbers the live arrays so that an array held directly by
      another has the smaller number. Such numbers exist exactly when every followed cycle passes through a plain
      object (see SanitizerWalk.WalkableExactlyWhen). */
  datatype Graph = Graph(nodes: map<nat, Node>, live: set<nat>, depth: map<nat, nat>, bound: nat)
  {
    /** A walk may start at `v`. */
    predicate Known(v: Value) { v.Ref? ==> v.r in live }

    predicate IsArray(v: Value) { ArrayAt(nodes, v) }

    predicate IsPlainObject(v: Value) { PlainObjectAt(nodes, v) }

    /** Live nodes exist, their keys are distinct, and what is followed from them is live. */
    ghost predicate Linked() {
      live <= nodes.Keys &&
      forall r :: r in live ==>
        match nodes[r]
        case Object(fields) =>
          Distinct(fields) && forall i :: 0 <= i < |fields| ==>
            Decide(nodes, fields, fields[i].0, fields[i].1) == Descend ==> Known(fields[i].1)
        case Array(items) => forall i :: 0 <= i < |items| ==> Known(items[i])
    }

    ghost predicate Numbered() {
      forall r :: r in live && r in nodes && nodes[r].Array? ==>
        r in depth && depth[r] < bound &&
        forall i :: 0 <= i < |nodes[r].items| ==> Level(nodes[r].items[i]) <= depth[r]
    }

    ghost predicate Valid() { Linked() && Numbered() }

    function Level(v: Value): nat {
      if IsArray(v) && v.r in live && v.r in depth then depth[v.r] + 1 else 0
    }

    ghost function Objects(): set<nat> { set r | r in live && r in nodes && nodes[r].Object? }
  }

  // ---- identifiers ----

  predicate IsHex(c: char) { '0' <= c <= '9' || 'a' <= c <= 'f' || 'A' <= c <= 'F' }
  predicate IsLetter(c: char) { 'a' <= c <= 'z' || 'A' <= c <= 'Z' }

  /** UUID_REGEX of public-id.util.ts. */
  predicate IsUuid(s: string) {
    |s| == 36 && forall i :: 0 <= i < 36 ==>
      if i == 8 || i == 13 || i == 18 || i == 23 then s[i] == '-' else IsHex(s[i])
  }

  /** PUBLIC_ID_REGEX of public-id.util.ts. */
  predicate IsPublicId(s: string) {
    |s| == 12 && (forall i :: 0 <= i < 3 ==> IsLetter(s[i])) && s[3] == '_'
    && forall i :: 4 <= i < 12 ==> IsLetter(s[i]) || '0' <= s[i] <= '9'
  }

  predicate HoldsUuid(v: Value) { v.Str? && IsUuid(v.text) }

  /** RELATION_KEY_MAP. */
  function RelationKey(key: string): Option<string> {
    if key == "routeId" then Some("route") else
    if key == "driverId" then Some("driver") else
    if key == "passengerId" then Some("passenger") else
    if key == "bookingId" then Some("booking") else
    if key == "payoutId" then Some("payout") else
    if key == "paymentId" then Some("payment") else
    if key == "vehicleId" then Some("vehicle") else
    if key == "documentId" then Some("document") else
    if key == "stopId" then Some("stop") else
    if key == "pickupStopId" then Some("pickupStop") else
    if key == "userId" then Some("user") else
    if key == "fromUserId" then Some("fromUser") else
    if key == "toUserId" then Some("toUser") else None
  }

  predicate UserReference(key: string) {
    key == "userId" || key == "passengerId" || key == "fromUserId" || key == "toUserId"
  }

  predicate AllowedUuidKey(key: string) {
    key == "paypalOrderId" || key == "paypalCaptureId" || key == "paypalBatchId"
  }

  predicate EndsWithId(key: string) { |key| >= 2 && key[|key| - 2..] == "Id" }

  function Field(fields: Assoc<string, Value>, key: string): Value {
    match Lookup(fields, key) case Some(v) => v case None => Undefined
  }

  predicate Usable(v: Value) { v.Str? && NotBlank(v.text) }

  /** getExternalIdFromRelation, with None for undefined. */
  function ExternalId(relation: Assoc<string, Value>, preferAlias: bool): (id: Option<string>) {
    var alias, publicId, own := Field(relation, "alias"), Field(relation, "publicId"), Field(relation, "id");
    if preferAlias && Usable(alias) then Some(alias.text)
    else if Usable(publicId) then Some(publicId.text)
    else if !preferAlias && Usable(alias) then Some(alias.text)
    else if own.Str? && !IsUuid(own.text) then Some(own.text)
    else None
  }

  // ---- what becomes of one field ----

  datatype Action = Drop | Copy | Replace(id: string) | Descend

  function HasPublicId(fields: Assoc<string, Value>): bool { Field(fields, "publicId").Str? }

  function RelationAction(
      nodes: map<nat, Node>, fields: Assoc<string, Value>, key: string, relationKey: string, text: string): Action
  {
    var relation := Field(fields, relationKey);
    var external :=
      if PlainObjectAt(nodes, relation) then ExternalId(nodes[relation.r].fields, UserReference(key)) else None;
    if external.Some? && external.value != "" then Replace(external.value)
    else if EndsWithId(key) && !AllowedUuidKey(key) then Drop
    else if IsPublicId(text) then Copy
    else Descend
  }

  function Decide(nodes: map<nat, Node>, fields: Assoc<string, Value>, key: string, value: Value): Action {
    if key == "id" then
      if HasPublicId(fields) || HoldsUuid(value) then Drop else Descend
    else if key == "publicId" then Copy
    else match RelationKey(key)
      case None => Descend
      case Some(relationKey) =>
        if HoldsUuid(value) then RelationAction(nodes, fields, key, relationKey, value.text)
        else if value.Str? && IsPublicId(value.text) then Copy
        else Descend
  }

  // ---- the result ----

  /** A sanitized value is a fresh tree, except that a publicId field keeps its own value, whatever it is: `Raw` is a
      reference into the input graph. */
  datatype Tree = Text(text: string) | Atomic(id: int) | Missing | List(items: seq<Tree>)
    | Record(fields: seq<Entry>) | Raw(r: nat)

  datatype Entry = Entry(key: string, value: Tree)

  function AsIs(v: Value): Tree {
    match v
    case Str(s) => Text(s)
    case Atom(a) => Atomic(a)
    case Undefined => Missing
    case Ref(r) => Raw(r)
  }

  lemma FewerLeft(g: Graph, seen: set<nat>, more: set<nat>)
    requires seen <= more
    ensures |g.Objects() - more| <= |g.Objects() - seen|
  {
    Sums.SubsetSize(g.Objects() - more, g.Objects() - seen);
  }

  lemma OneLess(g: Graph, seen: set<nat>, r: nat)
    requires r in g.Objects() && r !in seen
    ensures |g.Objects() - (seen + {r})| < |g.Objects() - seen|
  {
    assert g.Objects() - (seen + {r}) == (g.Objects() - seen) - {r};
  }

  lemma FieldIsKnown(g: Graph, r: nat, i: nat)
    requires g.Valid() && r in g.Objects() && i < |g.nodes[r].fields|
    ensures var fields := g.nodes[r].fields;
            (Decide(g.nodes, fields, fields[i].0, fields[i].1) == Descend ==> g.Known(fields[i].1))
            && g.Level(fields[i].1) <= g.bound
  {
  }

  lemma ItemIsBelow(g: Graph, r: nat, i: nat)
    requires g.Valid() && r in g.live && r in g.nodes && g.nodes[r].Array? && i < |g.nodes[r].items|
    ensures g.Known(g.nodes[r].items[i]) && r in g.depth && g.Level(g.nodes[r].items[i]) <= g.depth[r]
  {
  }

  type Walk = (Tree, set<nat>)

  /** sanitizeResponseData: the result and the objects seen when it returns. */
  function Sanitize(g: Graph, v: Value, seen: set<nat>): (out: Walk)
    requires g.Valid() && g.Known(v)
    ensures seen <= out.1
    decreases |g.Objects() - seen|, g.Level(v), 2, 0
  {
    if g.IsArray(v) then
      var out := SanitizeItems(g, g.nodes[v.r].items, g.Level(v), seen);
      (List(out.0), out.1)
    else if !g.IsPlainObject(v) then (AsIs(v), seen)
    else if v.r in seen then (Missing, seen)
    else
      OneLess(g, seen, v.r);
      var out := SanitizeFields(g, v.r, |g.nodes[v.r].fields|, seen + {v.r});
      (Record(out.0), out.1)
  }

  function SanitizeItems(g: Graph, items: seq<Value>, level: nat, seen: set<nat>): (out: (seq<Tree>, set<nat>))
    requires g.Valid()
    requires forall i :: 0 <= i < |items| ==> g.Known(items[i]) && g.Level(items[i]) < level
    ensures seen <= out.1
    decreases |g.Objects() - seen|, level, 1, |items|
  {
    if items == [] then ([], seen) else
    var n := |items| - 1;
    var before := SanitizeItems(g, items[..n], level, seen);
    FewerLeft(g, seen, before.1);
    var last := Sanitize(g, items[n], before.1);
    (before.0 + [last.0], last.1)
  }

  /** The first `n` fields of an object. */
  function SanitizeFields(g: Graph, r: nat, n: nat, seen: set<nat>): (out: (seq<Entry>, set<nat>))
    requires g.Valid() && r in g.Objects() && n <= |g.nodes[r].fields|
    ensures seen <= out.1
    decreases |g.Objects() - seen|, g.bound + 1, 1, n
  {
    if n == 0 then ([], seen) else
    var before := SanitizeFields(g, r, n - 1, seen);
    FewerLeft(g, seen, before.1);
    var last := SanitizeField(g, r, n - 1, before.1);
    (before.0 + last.0, last.1)
  }

  /** What one field adds to the result: one entry or none. */
  function SanitizeField(g: Graph, r: nat, i: nat, seen: set<nat>): (out: (seq<Entry>, set<nat>))
    requires g.Valid() && r in g.Objects() && i < |g.nodes[r].fields|
    ensures seen <= out.1
    decreases |g.Objects() - seen|, g.bound + 1, 0, 0
  {
    var fields := g.nodes[r].fields;
    var key, value := fields[i].0, fields[i].1;
    match Decide(g.nodes, fields, key, value)
    case Drop => ([], seen)
    case Copy => ([Entry(key, AsIs(value))], seen)
    case Replace(id) => ([Entry(key, Text(id))], seen)
    case Descend =>
      var last := Sanitize(g, value, seen);
      ([Entry(key, last.0)], last.1)
  }

  lemma FieldsStep(g: Graph, r: nat, n: nat, seen: set<nat>)
    requires g.Valid() && r in g.Objects() && 0 < n <= |g.nodes[r].fields|
    ensures var before := SanitizeFields(g, r, n - 1, seen);
            var last := SanitizeField(g, r, n - 1, before.1);
            SanitizeFields(g, r, n, seen) == (before.0 + last.0, last.1) && seen <= before.1 <= last.1
            && |g.Objects() - before.1| <= |g.Objects() - seen|
  {
    FewerLeft(g, seen, SanitizeFields(g, r, n - 1, seen).1);
    hide Graph.Linked, Graph.Numbered, Graph.Level, SanitizeField, Sanitize;
  }

  // ---- the walk with its mutable set of visited objects ----

  class Seen {
    var objects: set<nat>

    constructor ()
      ensures objects == {}
    {
      objects := {};
    }
  }

  /** What a handler says of a field: nothing, leave it out, or its value. */
  datatype Resolution = Null | Skip | Resolved(value: Tree)

  method HandleIdField(g: Graph, key: string, value: Value, hasPublicId: bool, seen: Seen) returns (res: Resolution)
    requires g.Valid() && (key == "id" && !hasPublicId && !HoldsUuid(value) ==> g.Known(value))
    modifies seen
    ensures key != "id" ==> res == Null && seen.objects == old(seen.objects)
    ensures key == "id" && (hasPublicId || HoldsUuid(value)) ==> res == Skip && seen.objects == old(seen.objects)
    ensures key == "id" && !hasPublicId && !HoldsUuid(value) ==>
              res.Resolved? && (res.value, seen.objects) == Sanitize(g, value, old(seen.objects))
    decreases |g.Objects() - seen.objects|, g.Level(value), 3, 0
  {
    if key != "id" { return Null; }
    if hasPublicId { return Skip; }
    if HoldsUuid(value) { return Skip; }
    var out := SanitizeResponseData(g, value, seen);
    res := Resolved(out);
  }

  method HandlePublicIdField(key: string, value: Value) returns (res: Resolution)
    ensures res == if key == "publicId" then Resolved(AsIs(value)) else Null
  {
    if key != "publicId" { return Null; }
    res := Resolved(AsIs(value));
  }

  function AsResolution(action: Action, value: Value): Resolution {
    match action
    case Drop => Skip
    case Copy => Resolved(AsIs(value))
    case Replace(id) => Resolved(Text(id))
    case Descend => Null
  }

  method HandleRelationField(
      g: Graph, key: string, value: Value, fields: Assoc<string, Value>) returns (res: Resolution)
    requires key != "id" && key != "publicId"
    ensures res == AsResolution(Decide(g.nodes, fields, key, value), value)
  {
    var relationKey := RelationKey(key);
    if relationKey.None? { return Null; }
    if HoldsUuid(value) {
      var relation := Field(fields, relationKey.value);
      if g.IsPlainObject(relation) {
        var external := ExternalId(g.nodes[relation.r].fields, UserReference(key));
        if external.Some? && external.value != "" { return Resolved(Text(external.value)); }
      }
      if EndsWithId(key) && !AllowedUuidKey(key) { return Skip; }
    }
    if value.Str? && IsPublicId(value.text) { return Resolved(AsIs(value)); }
    res := Null;
  }

  method ResolveField(g: Graph, key: string, value: Value, fields: Assoc<string, Value>, hasPublicId: bool, seen: Seen)
    returns (res: Resolution)
    requires g.Valid() && hasPublicId == HasPublicId(fields)
    requires Decide(g.nodes, fields, key, value) == Descend ==> g.Known(value)
    modifies seen
    ensures var action := Decide(g.nodes, fields, key, value);
            if action == Descend && key == "id" then
              res.Resolved? && (res.value, seen.objects) == Sanitize(g, value, old(seen.objects))
            else res == AsResolution(action, value) && seen.objects == old(seen.objects)
    decreases |g.Objects() - seen.objects|, g.Level(value), 4, 0
  {
    res := HandleIdField(g, key, value, hasPublicId, seen);
    if res != Null { return; }
    res := HandlePublicIdField(key, value);
    if res != Null { return; }
    res := HandleRelationField(g, key, value, fields);
  }

  method SanitizePlainObject(g: Graph, r: nat, seen: Seen) returns (sanitized: seq<Entry>)
    requires g.Valid() && r in g.Objects()
    modifies seen
    ensures (sanitized, seen.objects) == SanitizeFields(g, r, |g.nodes[r].fields|, old(seen.objects))
    decreases |g.Objects() - seen.objects|, g.bound + 1, 1, 0
  {
    hide Decide, HasPublicId, Graph.Linked, Graph.Numbered, Graph.Level;
    var fields := g.nodes[r].fields;
    var hasPublicId := HasPublicId(fields);
    sanitized := [];
    for i := 0 to |fields|
      invariant (sanitized, seen.objects) == SanitizeFields(g, r, i, old(seen.objects))
    {
      var key, value := fields[i].0, fields[i].1;
      FewerLeft(g, old(seen.objects), seen.objects);
      FieldIsKnown(g, r, i);
      assert sanitized + [] == sanitized;
      var resolved := ResolveField(g, key, value, fields, hasPublicId, seen);
      if resolved == Null {
        var out := SanitizeResponseData(g, value, seen);
        sanitized := sanitized + [Entry(key, out)];
        continue;
      }
      if resolved.Resolved? {
        sanitized := sanitized + [Entry(key, resolved.value)];
      }
    }
  }

  method SanitizeResponseData(g: Graph, input: Value, seen: Seen) returns (out: Tree)
    requires g.Valid() && g.Known(input)
    modifies seen
    ensures (out, seen.objects) == Sanitize(g, input, old(seen.objects))
    decreases |g.Objects() - seen.objects|, g.Level(input), 2, 0
  {
    if g.IsArray(input) {
      var items := g.nodes[input.r].items;
      var mapped: seq<Tree> := [];
      for i := 0 to |items|
        invariant (mapped, seen.objects) == SanitizeItems(g, items[..i], g.Level(input), old(seen.objects))
      {
        assert items[..i + 1][..i] == items[..i];
        FewerLeft(g, old(seen.objects), seen.objects);
        var item := SanitizeResponseData(g, items[i], seen);
        mapped := mapped + [item];
      }
      assert items[..|items|] == items;
      return List(mapped);
    }
    if !g.IsPlainObject(input) { return AsIs(input); }
    if input.r in seen.objects { return Missing; }
    OneLess(g, seen.objects, input.r);
    seen.objects := seen.objects + {input.r};
    var fields := SanitizePlainObject(g, input.r, seen);
    out := Record(fields);
  }

  /** sanitizeResponseData(input), as the response interceptor calls it. */
  method SanitizeResponse(g: Graph, input: Value) returns (out: Tree)
    requires g.Valid() && g.Known(input)
    ensures out == Sanitize(g, input, {}).0
  {
    var seen := new Seen();
    out := SanitizeResponseData(g, input, seen);
  }
}
