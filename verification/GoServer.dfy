/** Wiring a whole generated Go service: one resource an entity, parents before children. Models what
    `render_handlers` emits for `newServer` (src/autoswe/llm/offline/templates_go.py). */
module GoServer {
  import opened GoStore
  import opened GoService
  import opened Relations
  import opened CreationOrder

  /** How the renderer spells a parent's key, and what a field's type accepts. */
  datatype Spelling = Spelling(key: string -> string, accepts: Field -> (Value -> bool))

  function FieldSpecs(sp: Spelling, fields: seq<Field>): seq<FieldSpec> {
    seq(|fields|, i requires 0 <= i < |fields| => FieldSpec(fields[i].name, sp.accepts(fields[i]), fields[i].required))
  }

  function KeySpecs(sp: Spelling, parents: seq<string>): seq<FieldSpec> {
    seq(|parents|, i requires 0 <= i < |parents| => FieldSpec(sp.key(parents[i]), AcceptsInteger, true))
  }

  function SpecsOf(sp: Spelling, e: Entity): seq<FieldSpec> {
    FieldSpecs(sp, e.fields) + KeySpecs(sp, e.belongsTo)
  }

  /** Where an entity of this name stands; the length if nowhere. */
  function Place(order: seq<Entity>, name: string): (i: nat)
    ensures i <= |order|
    ensures name in NamesOf(order) <==> i < |order|
    ensures i < |order| ==> order[i].name == name
  {
    if order == [] then 0
    else if order[0].name == name then assert order[0] in order; 0
    else
      assert order == [order[0]] + order[1..];
      1 + Place(order[1..], name)
  }

  /** Each parent's key, with the store made for that parent. */
  function RefsOf(sp: Spelling, order: seq<Entity>, e: Entity): seq<GoService.Reference> {
    seq(|e.belongsTo|, i requires 0 <= i < |e.belongsTo| =>
      GoService.Reference(sp.key(e.belongsTo[i]), Place(order, e.belongsTo[i])))
  }

  /** Each parent's key leads to the store made for that very parent, in the parents' order. */
  lemma KeysLeadToTheirParents(sp: Spelling, order: seq<Entity>, e: Entity)
    requires forall p :: p in e.belongsTo ==> p in NamesOf(order)
    ensures var refs := RefsOf(sp, order, e);
      && |refs| == |e.belongsTo|
      && forall k :: 0 <= k < |refs| ==>
          refs[k].key == sp.key(e.belongsTo[k]) && refs[k].parent < |order|
          && order[refs[k].parent].name == e.belongsTo[k]
  {
    forall k | 0 <= k < |e.belongsTo|
      ensures Place(order, e.belongsTo[k]) < |order|
    {
      assert e.belongsTo[k] in e.belongsTo;
    }
  }

  /** A resource validates the entity's own fields as they are declared, and an integer for every parent. */
  lemma ResourceFields(sp: Spelling, e: Entity)
    ensures var specs := SpecsOf(sp, e);
      && |specs| == |e.fields| + |e.belongsTo|
      && (forall i :: 0 <= i < |e.fields| ==>
            && specs[i].name == e.fields[i].name && specs[i].required == e.fields[i].required
            && specs[i].accepts == sp.accepts(e.fields[i]))
      && forall k :: 0 <= k < |e.belongsTo| ==>
          var spec := specs[|e.fields| + k];
          spec.name == sp.key(e.belongsTo[k]) && spec.required && forall n :: spec.accepts(Integer(n)) <==>
            -0x20_0000_0000_0000 < n < 0x20_0000_0000_0000
  {
  }

  /** Every parent has its resource before the child's is made. */
  ghost predicate Wireable(order: seq<Entity>) {
    forall i, p :: 0 <= i < |order| && p in order[i].belongsTo ==> p in NamesOf(order[..i])
  }

  lemma {:induction false} PlaceInPrefix(order: seq<Entity>, i: nat, name: string)
    requires i <= |order| && name in NamesOf(order[..i])
    ensures Place(order, name) < i
  {
    assert i > 0;
    if order[0].name != name {
      assert order[..i] == [order[0]] + order[1..][..i - 1];
      PlaceInPrefix(order[1..], i - 1, name);
    }
  }

  /** What `newResource` relies on holds for each entity when its turn comes. */
  lemma EntityIsLinkable(sp: Spelling, order: seq<Entity>, i: nat)
    requires Wireable(order) && i < |order|
    ensures Linkable(SpecsOf(sp, order[i]), RefsOf(sp, order, order[i]), i)
  {
    var e := order[i];
    var specs, refs := SpecsOf(sp, e), RefsOf(sp, order, e);
    forall r | r in refs
      ensures r.parent < i && RequiresInteger(specs, r.key)
    {
      var k :| 0 <= k < |refs| && refs[k] == r;
      assert e.belongsTo[k] in e.belongsTo;
      PlaceInPrefix(order, i, e.belongsTo[k]);
      assert specs[|e.fields| + k] == KeySpecs(sp, e.belongsTo)[k];
      assert specs[|e.fields| + k].name == r.key;
    }
  }

  /** Whatever was normalised, repeated names included, the server can be wired in creation order. */
  lemma EveryInputIsWireable(es: seq<Entity>)
    ensures Wireable(KnownOrder(Normalised(es)))
  {
    var r := Normalised(es);
    var order, nodes := KnownOrder(r), LastOfEachName(r);
    EveryInputHasCreationOrder(es);
    LastOfEachNameMembers(r);
    forall e, p | e in order && p in e.belongsTo
      ensures p in NamesOf(nodes)
    {
      assert e in multiset(order) && e in nodes && e in r;
      var i :| 0 <= i < |r| && r[i] == e;
      SurvivorsAreUsable(NamesOf(es), KeptAfter(NamesOf(es), es[..i]), es[i].name, es[i].belongsTo);
    }
    KnownParentsFirst(order, NamesOf(nodes));
  }

  function AllSpecs(sp: Spelling, order: seq<Entity>, n: nat): seq<seq<FieldSpec>>
    requires n <= |order|
  {
    seq(n, i requires 0 <= i < n => SpecsOf(sp, order[i]))
  }

  function AllRefs(sp: Spelling, order: seq<Entity>, n: nat): seq<seq<GoService.Reference>>
    requires n <= |order|
  {
    seq(n, i requires 0 <= i < n => RefsOf(sp, order, order[i]))
  }

  function Empty(n: nat): Contents {
    seq(n, i requires 0 <= i < n => map[])
  }

  lemma NextEntity(sp: Spelling, order: seq<Entity>, i: nat)
    requires i < |order|
    ensures AllSpecs(sp, order, i + 1) == AllSpecs(sp, order, i) + [SpecsOf(sp, order[i])]
    ensures AllRefs(sp, order, i + 1) == AllRefs(sp, order, i) + [RefsOf(sp, order, order[i])]
    ensures Empty(i + 1) == Empty(i) + [map[]]
  {
  }

  /** The next entity's resource. */
  method AddEntity(server: Service, sp: Spelling, order: seq<Entity>, i: nat)
    requires Wireable(order) && i < |order| && server.Valid() && Holds(server.stores) == Empty(i)
    requires server.fields == AllSpecs(sp, order, i) && server.references == AllRefs(sp, order, i)
    modifies server, server.stores
    ensures server.Valid() && Holds(server.stores) == Empty(i + 1)
    ensures server.fields == AllSpecs(sp, order, i + 1) && server.references == AllRefs(sp, order, i + 1)
    ensures |server.stores| == i + 1 && server.stores[..i] == old(server.stores) && fresh(server.stores[i])
  {
    assert |server.stores| == |Holds(server.stores)| == i;
    EntityIsLinkable(sp, order, i);
    NextEntity(sp, order, i);
    server.NewResource(SpecsOf(sp, order[i]), RefsOf(sp, order, order[i]));
  }

  /** `newServer`: a resource for every entity, each wired to its parents' stores, and nothing stored. */
  method NewServer(sp: Spelling, order: seq<Entity>) returns (server: Service)
    requires Wireable(order)
    ensures fresh(server) && server.Valid()
    ensures server.fields == AllSpecs(sp, order, |order|) && server.references == AllRefs(sp, order, |order|)
    ensures Holds(server.stores) == Empty(|order|)
  {
    server := new Service();
    for i := 0 to |order|
      invariant fresh(server) && fresh(server.stores) && server.Valid()
      invariant server.fields == AllSpecs(sp, order, i) && server.references == AllRefs(sp, order, i)
      invariant Holds(server.stores) == Empty(i)
    {
      AddEntity(server, sp, order, i);
    }
  }

  /** From a specification to a server, for every specification. */
  method ServerFor(sp: Spelling, es: seq<Entity>) returns (server: Service)
    ensures var order := KnownOrder(Normalised(es));
      && fresh(server) && server.Valid() && Holds(server.stores) == Empty(|order|)
      && server.fields == AllSpecs(sp, order, |order|) && server.references == AllRefs(sp, order, |order|)
  {
    var normal := Normalise(es);
    EveryInputHasCreationOrder(es);
    CreationOrderIsTopological(normal);
    LastOfEachNameSameGraph(normal);
    NormalisedIsAcyclic(es);
    var ordering := InOrder(normal);
    EveryInputIsWireable(es);
    server := NewServer(sp, ordering.entities);
  }
}
