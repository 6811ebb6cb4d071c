/** A response that a second walk changes: the user whose alias is a UUID is already shown elsewhere in it, so the alias
    stands in place of the user's id beside nothing that explains it. */
module SanitizerSharing {
  import opened JsText
  import opened Assoc
  import opened Sums
  import opened Sanitizer
  import opened SanitizerWalk
  import opened SanitizerCuts
  import opened SanitizerAgain

  function Nodes(uuid: string, alias: string): map<nat, Node> {
    map[0 := Object([("host", Ref(1)), ("userId", Str(uuid)), ("user", Ref(1))]), 1 := Object([("alias", Str(alias))])]
  }

  function User(alias: string): Tree { Record([Entry("alias", Text(alias))]) }

  function Response(alias: string): Tree {
    Record([Entry("host", User(alias)), Entry("userId", Text(alias)), Entry("user", Missing)])
  }

  ghost predicate Decided(g: Graph, uuid: string, alias: string)
    requires g.nodes == Nodes(uuid, alias)
  {
    var fields := g.nodes[0].fields;
    Decide(g.nodes, fields, "host", Ref(1)) == Descend && Decide(g.nodes, fields, "user", Ref(1)) == Descend
    && Decide(g.nodes, fields, "userId", Str(uuid)) == Replace(alias)
    && Decide(g.nodes, g.nodes[1].fields, "alias", Str(alias)) == Descend
  }

  lemma Decisions(g: Graph, uuid: string, alias: string)
    requires IsUuid(uuid) && IsUuid(alias) && g.nodes == Nodes(uuid, alias)
    ensures Decided(g, uuid, alias)
  {
    var fields, related := g.nodes[0].fields, g.nodes[1].fields;
    assert ("user", Ref(1)) == fields[2] && ("alias", Str(alias)) == related[0];
    Found(fields, "user", Ref(1));
    Found(related, "alias", Str(alias));
    assert NotBlank(alias) by { assert IsHex(alias[0]); }
    hide IsUuid, NotBlank;
  }

  ghost predicate Ready(g: Graph, uuid: string, alias: string) {
    g.Valid() && g.live == {0, 1} && g.nodes == Nodes(uuid, alias) && Decided(g, uuid, alias)
  }

  lemma UserShown(g: Graph, uuid: string, alias: string)
    requires Ready(g, uuid, alias)
    ensures Sanitize(g, Ref(1), {0}) == (User(alias), {0, 1})
  {
    hide Graph.Linked, Graph.Numbered, Decide;
    assert {0} + {1} == {0, 1};
    assert SanitizeFields(g, 1, 0, {0, 1}) == ([], {0, 1});
    assert SanitizeField(g, 1, 0, {0, 1}) == ([Entry("alias", Text(alias))], {0, 1});
    FieldsStep(g, 1, 1, {0, 1});
    assert [] + [Entry("alias", Text(alias))] == [Entry("alias", Text(alias))];
    assert SanitizeFields(g, 1, 1, {0, 1}) == ([Entry("alias", Text(alias))], {0, 1});
  }

  lemma FieldsShown(g: Graph, uuid: string, alias: string)
    requires Ready(g, uuid, alias)
    ensures SanitizeField(g, 0, 0, {0}) == ([Entry("host", User(alias))], {0, 1})
    ensures SanitizeField(g, 0, 1, {0, 1}) == ([Entry("userId", Text(alias))], {0, 1})
    ensures SanitizeField(g, 0, 2, {0, 1}) == ([Entry("user", Missing)], {0, 1})
  {
    UserShown(g, uuid, alias);
    hide Graph.Linked, Graph.Numbered, Decide;
  }

  lemma AllFieldsShown(g: Graph, uuid: string, alias: string)
    requires Ready(g, uuid, alias)
    ensures SanitizeFields(g, 0, 3, {0}) == (Response(alias).fields, {0, 1})
  {
    FieldsShown(g, uuid, alias);
    assert SanitizeFields(g, 0, 0, {0}) == ([], {0});
    FieldsStep(g, 0, 1, {0});
    FieldsStep(g, 0, 2, {0});
    FieldsStep(g, 0, 3, {0});
    hide Graph.Linked, Graph.Numbered, Decided, Graph.Objects, SanitizeField, SanitizeFields, Sanitize;
    var host, user, none := Entry("host", User(alias)), Entry("userId", Text(alias)), Entry("user", Missing);
    hide User;
    assert SanitizeFields(g, 0, 1, {0}) == ([host], {0, 1}) by { assert [] + [host] == [host]; }
    assert SanitizeFields(g, 0, 2, {0}) == ([host, user], {0, 1}) by { assert [host] + [user] == [host, user]; }
    assert [host, user] + [none] == Response(alias).fields;
  }

  lemma ResponseShown(g: Graph, uuid: string, alias: string)
    requires Ready(g, uuid, alias)
    ensures Sanitize(g, Ref(0), {}).0 == Response(alias)
  {
    AllFieldsShown(g, uuid, alias);
    assert {} + {0} == {0};
    hide Graph.Linked, Graph.Numbered, Decided, SanitizeFields;
  }

  lemma ResponseUnstable(alias: string)
    requires IsUuid(alias)
    ensures !Stable(Response(alias))
  {
    var all := Response(alias).fields;
    assert all[2] == Entry("user", Missing) && all[1] == Entry("userId", Text(alias));
    TreeFieldAt(all, 2);
    assert !StableEntry(all[1], all);
    hide IsUuid, StableEntry, TreeField;
    assert all[..3] == all && all[..2][1] == all[1];
    assert !StableFields(all[..2], all);
  }

  /** Sanitizing this response again changes it. */
  lemma SecondWalkChanges(g: Graph, uuid: string, alias: string)
    requires IsUuid(uuid) && IsUuid(alias) && g.live == {0, 1} && g.depth == map[] && g.nodes == Nodes(uuid, alias)
    ensures g.Valid() && Sanitize(g, Ref(0), {}).0 == Response(alias) && !Stable(Response(alias))
  {
    assert g.Linked() && g.Numbered();
    Decisions(g, uuid, alias);
    ResponseShown(g, uuid, alias);
    ResponseUnstable(alias);
    hide Graph.Linked, Graph.Numbered, Decided, IsUuid, Sanitize, Stable;
  }

  // ---- the second occurrence of the user ----

  lemma FieldWeights(g: Graph, uuid: string, alias: string, f: Weight)
    requires Ready(g, uuid, alias)
    ensures Weigh(g, Ref(0), f) == f(Ref(0))
    ensures WeighObject(g, 0, f) == 2 * f(Ref(1)) && WeighObject(g, 1, f) == f(Str(alias))
  {
    hide Graph.Linked, Graph.Numbered, Decide;
    var fields := g.nodes[0].fields;
    assert fields[0] == ("host", Ref(1)) && fields[1] == ("userId", Str(uuid)) && fields[2] == ("user", Ref(1));
    assert WeighField(g, 0, 0, f) == f(Ref(1)) && WeighField(g, 0, 1, f) == 0 && WeighField(g, 0, 2, f) == f(Ref(1));
    assert g.nodes[1].fields[0] == ("alias", Str(alias)) && WeighField(g, 1, 0, f) == f(Str(alias));
    hide WeighField, Weigh;
    assert WeighFields(g, 0, 1, f) == f(Ref(1)) && WeighFields(g, 0, 2, f) == f(Ref(1));
    assert WeighFields(g, 1, 0, f) == 0;
  }

  lemma BothReached(g: Graph, uuid: string, alias: string)
    requires Ready(g, uuid, alias)
    ensures Reachable(g, Ref(0)) == {0, 1}
  {
    AllFieldsShown(g, uuid, alias);
    assert {} + {0} == {0};
    hide Graph.Linked, Graph.Numbered, Decided, SanitizeFields, Reachable;
    VisitedIsReachable(g, Ref(0));
  }

  lemma AllWeights(g: Graph, uuid: string, alias: string, f: Weight)
    requires Ready(g, uuid, alias)
    ensures Altogether(g, Ref(0), f) == f(Ref(0)) + 2 * f(Ref(1)) + f(Str(alias))
  {
    hide Graph.Linked, Graph.Numbered, Decided, Weigh, WeighObject, Reachable;
    BothReached(g, uuid, alias);
    FieldWeights(g, uuid, alias, f);
    var weights := ObjectWeights(g, f);
    SumTakeOut(weights, {0, 1}, 0);
    SumTakeOut(weights, {1}, 1);
    assert {0, 1} - {0} == {1} && {1} - {1} == {};
  }

  lemma ResponseLacksOne(alias: string)
    ensures Missings(Response(alias)) == 1
  {
    var all, user := Response(alias).fields, User(alias).fields;
    assert user[..0] == [];
    assert MissingFields(user) == MissingFields(user[..0]) + Missings(Text(alias)) == 0;
    assert all[..2][..1] == all[..1] && all[..1][..0] == [];
    assert MissingFields(all[..1]) == MissingFields(all[..1][..0]) + Missings(User(alias)) == 0;
    assert MissingFields(all[..2]) == MissingFields(all[..1]) + Missings(Text(alias)) == 0;
    assert MissingFields(all) == MissingFields(all[..2]) + Missings(Missing) == 1;
  }

  lemma UserHeldTwice(g: Graph, uuid: string, alias: string)
    requires Ready(g, uuid, alias)
    ensures TimesHeld(g, Ref(0), 1) == 2 && Altogether(g, Ref(0), AnUndefined()) == 0
  {
    hide Graph.Linked, Graph.Numbered, Decided, Altogether;
    AllWeights(g, uuid, alias, AnUndefined());
    AllWeights(g, uuid, alias, TheObject(g, 1));
  }

  /** The user is held twice, and its second occurrence becomes the one undefined place of the response. */
  lemma SecondOccurrenceIsLost(g: Graph, uuid: string, alias: string)
    requires IsUuid(uuid) && IsUuid(alias) && g.live == {0, 1} && g.depth == map[] && g.nodes == Nodes(uuid, alias)
    ensures g.Valid() && TimesHeld(g, Ref(0), 1) == 2
    ensures Missings(Sanitize(g, Ref(0), {}).0) == 1 && Altogether(g, Ref(0), AnUndefined()) == 0
  {
    hide IsUuid, Sanitize, Altogether;
    SecondWalkChanges(g, uuid, alias);
    Decisions(g, uuid, alias);
    hide Graph.Linked, Graph.Numbered, Decided, Stable, TimesHeld;
    UserHeldTwice(g, uuid, alias);
    ResponseLacksOne(alias);
  }
}
