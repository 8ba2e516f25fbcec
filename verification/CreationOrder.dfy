/** Parents before children: the topological order used by every renderer.
    Models `creation_order` of src/autoswe/pipeline/relations.py and the part of
    `graphlib.TopologicalSorter` it uses. */
module CreationOrder {
  import opened Relations

  /** `by_name`: one entity a name, the last one, in the order of `position`. */
  function LastOfEachName(es: seq<Entity>): seq<Entity> {
    if es == [] then []
    else if exists e :: e in es[1..] && e.name == es[0].name then LastOfEachName(es[1..])
    else [es[0]] + LastOfEachName(es[1..])
  }

  predicate IsReady(names: set<string>, done: set<string>, e: Entity) {
    e.name !in done && forall p :: p in e.belongsTo && p in names ==> p in done
  }

  /** What `get_ready` returns, sorted by position. */
  function Ready(names: set<string>, done: set<string>, nodes: seq<Entity>): (r: seq<Entity>)
    ensures forall e :: e in r <==> e in nodes && IsReady(names, done, e)
  {
    if nodes == [] then []
    else if IsReady(names, done, nodes[0]) then [nodes[0]] + Ready(names, done, nodes[1..])
    else Ready(names, done, nodes[1..])
  }

  /** The remaining rounds: each yields every entity whose parents are all done. */
  function Rounds(nodes: seq<Entity>, done: set<string>): seq<Entity>
    decreases NamesOf(nodes) - done
  {
    var ready := Ready(NamesOf(nodes), done, nodes);
    if ready == [] then []
    else
      assert ready[0] in ready && ready[0].name in NamesOf(nodes) - done;
      ready + Rounds(nodes, done + NamesOf(ready))
  }

  datatype Ordering = Order(entities: seq<Entity>) | Cycle

  lemma NextRound(nodes: seq<Entity>, done: set<string>)
    ensures var ready := Ready(NamesOf(nodes), done, nodes); var after := done + NamesOf(ready);
      if ready == [] then Rounds(nodes, done) == []
      else Rounds(nodes, done) == ready + Rounds(nodes, after) && NamesOf(nodes) - after < NamesOf(nodes) - done
  {
    var ready := Ready(NamesOf(nodes), done, nodes);
    if ready != [] {
      assert ready[0] in ready && ready[0].name in NamesOf(nodes) - done;
    }
  }

  lemma Appended(a: seq<Entity>, b: seq<Entity>, c: seq<Entity>)
    ensures a + (b + c) == (a + b) + c
  {
  }

  method InOrder(entities: seq<Entity>) returns (r: Ordering)
    ensures var nodes := LastOfEachName(entities); var rounds := Rounds(nodes, {});
      r == if |rounds| == |nodes| then Order(rounds) else Cycle
  {
    var nodes := LastOfEachName(entities);
    var names := NamesOf(nodes);
    var done: set<string>, order: seq<Entity> := {}, [];
    var ready := Ready(names, done, nodes);
    while ready != []
      invariant ready == Ready(names, done, nodes)
      invariant Rounds(nodes, {}) == order + Rounds(nodes, done)
      decreases names - done
    {
      NextRound(nodes, done);
      Appended(order, ready, Rounds(nodes, done + NamesOf(ready)));
      order, done := order + ready, done + NamesOf(ready);
      ready := Ready(names, done, nodes);
    }
    NextRound(nodes, done);
    return if |order| == |nodes| then Order(order) else Cycle;
  }

  // ------------------------------------------------------------------ every round makes progress

  lemma EdgeLeadsOut(g: Graph, x: string, y: string)
    requires Acyclic(g) && Edge(g, x, y)
    ensures x != y && !Reach(g, y, x)
  {
    if x == y { ReachSelf(g, x); }
  }

  /** In an acyclic graph every non-empty set of names has one without a parent in the set. */
  lemma {:induction false} SomeNameIsMinimal(g: Graph, s: set<string>) returns (m: string)
    requires Acyclic(g) && s != {}
    ensures m in s && forall p :: p in s ==> !Edge(g, m, p)
    decreases s
  {
    var x :| x in s;
    if forall p :: p in s ==> !Edge(g, x, p) {
      m := x;
    } else {
      var p :| p in s && Edge(g, x, p);
      var above := set y | y in s && y != x && Reach(g, p, y);
      EdgeLeadsOut(g, x, p);
      ReachSelf(g, p);
      assert p in above && x !in above;
      assert above < s;
      m := SomeNameIsMinimal(g, above);
      forall q | q in s
        ensures !Edge(g, m, q)
      {
        if Edge(g, m, q) {
          ReachSelf(g, q);
          ReachStep(g, m, q, q);
          ReachTransitive(g, p, m, q);
          assert false;
        }
      }
    }
  }

  // ------------------------------------------------------------------ permutation

  function Pending(nodes: seq<Entity>, done: set<string>): seq<Entity> {
    if nodes == [] then []
    else if nodes[0].name in done then Pending(nodes[1..], done)
    else [nodes[0]] + Pending(nodes[1..], done)
  }

  lemma {:induction false} PendingMembers(nodes: seq<Entity>, done: set<string>)
    ensures forall e :: e in Pending(nodes, done) <==> e in nodes && e.name !in done
  {
    if nodes != [] { PendingMembers(nodes[1..], done); }
  }

  lemma {:induction false} DistinctTail(es: seq<Entity>)
    requires DistinctNames(es) && es != []
    ensures DistinctNames(es[1..]) && es[0].name !in NamesOf(es[1..])
  {
    assert forall j :: 0 <= j < |es[1..]| ==> es[1..][j] == es[j + 1];
  }

  /** A round moves its ready entities, and only them, from pending to done. */
  lemma {:induction false} RoundPartition(nodes: seq<Entity>, names: set<string>, done: set<string>, round: set<string>)
    requires DistinctNames(nodes)
    requires forall e :: e in nodes ==> (e.name in round <==> IsReady(names, done, e))
    ensures multiset(Ready(names, done, nodes)) + multiset(Pending(nodes, done + round))
      == multiset(Pending(nodes, done))
  {
    if nodes != [] {
      DistinctTail(nodes);
      var rest := nodes[1..];
      assert forall e :: e in rest ==> e in nodes;
      RoundPartition(rest, names, done, round);
      var e := nodes[0];
      assert e in nodes;
      if IsReady(names, done, e) {
        assert multiset(Ready(names, done, nodes)) == multiset{e} + multiset(Ready(names, done, rest));
        assert multiset(Pending(nodes, done)) == multiset{e} + multiset(Pending(rest, done));
      } else if e.name !in done {
        assert multiset(Pending(nodes, done)) == multiset{e} + multiset(Pending(rest, done));
        assert multiset(Pending(nodes, done + round)) == multiset{e} + multiset(Pending(rest, done + round));
      }
    }
  }

  lemma ReadyNames(nodes: seq<Entity>, done: set<string>)
    requires DistinctNames(nodes)
    ensures var names := NamesOf(nodes); var ready := Ready(names, done, nodes);
      forall e :: e in nodes ==> (e.name in NamesOf(ready) <==> IsReady(names, done, e))
  {
    var names := NamesOf(nodes);
    var ready := Ready(names, done, nodes);
    forall e | e in nodes && e.name in NamesOf(ready)
      ensures IsReady(names, done, e)
    {
      var f :| f in ready && f.name == e.name;
      var i :| 0 <= i < |nodes| && nodes[i] == e;
      var j :| 0 <= j < |nodes| && nodes[j] == f;
      assert i == j;
    }
  }

  lemma {:induction false} RoundsTakeFromPending(nodes: seq<Entity>, done: set<string>)
    requires DistinctNames(nodes)
    ensures multiset(Rounds(nodes, done)) <= multiset(Pending(nodes, done))
    ensures Acyclic(GraphOf(nodes)) ==> multiset(Rounds(nodes, done)) == multiset(Pending(nodes, done))
    decreases NamesOf(nodes) - done
  {
    var names := NamesOf(nodes);
    var ready := Ready(names, done, nodes);
    PendingMembers(nodes, done);
    if ready == [] {
      if Acyclic(GraphOf(nodes)) && Pending(nodes, done) != [] {
        NothingReadyMeansCycle(nodes, done);
      }
    } else {
      assert ready[0] in ready && ready[0].name in names - done;
      ReadyNames(nodes, done);
      RoundPartition(nodes, names, done, NamesOf(ready));
      RoundsTakeFromPending(nodes, done + NamesOf(ready));
    }
  }

  lemma NothingReadyMeansCycle(nodes: seq<Entity>, done: set<string>)
    requires DistinctNames(nodes) && Ready(NamesOf(nodes), done, nodes) == []
    requires Pending(nodes, done) != []
    ensures !Acyclic(GraphOf(nodes))
  {
    var names := NamesOf(nodes);
    var g := GraphOf(nodes);
    PendingMembers(nodes, done);
    var e0 := Pending(nodes, done)[0];
    assert e0 in Pending(nodes, done);
    assert e0.name in names - done;
    if Acyclic(g) {
      var m := SomeNameIsMinimal(g, names - done);
      var e :| e in nodes && e.name == m;
      var i :| 0 <= i < |nodes| && nodes[i] == e;
      GraphOfLooksUp(nodes, i);
      forall p | p in e.belongsTo && p in names
        ensures p in done
      {
        assert Edge(g, m, p);
      }
      assert false;
    }
  }

  // ------------------------------------------------------------------ parents first

  /** Every known parent is done beforehand or stands strictly earlier. */
  ghost predicate ParentsFirst(order: seq<Entity>, names: set<string>, done: set<string>) {
    forall i, p :: 0 <= i < |order| && p in order[i].belongsTo && p in names ==>
      p in done || p in NamesOf(order[..i])
  }

  lemma {:induction false} RoundsPutParentsFirst(nodes: seq<Entity>, done: set<string>)
    ensures ParentsFirst(Rounds(nodes, done), NamesOf(nodes), done)
    decreases NamesOf(nodes) - done
  {
    var names := NamesOf(nodes);
    var ready := Ready(names, done, nodes);
    if ready != [] {
      assert ready[0] in ready && ready[0].name in names - done;
      var after := done + NamesOf(ready);
      RoundsPutParentsFirst(nodes, after);
      var rest := Rounds(nodes, after);
      var order := ready + rest;
      forall i, p | 0 <= i < |order| && p in order[i].belongsTo && p in names
        ensures p in done || p in NamesOf(order[..i])
      {
        if i < |ready| {
          assert order[i] in ready;
        } else {
          assert order[i] == rest[i - |ready|];
          assert order[..i] == ready + rest[..i - |ready|];
          if p in NamesOf(ready) {
            var e :| e in ready && e.name == p;
            assert e in order[..i];
          } else if p !in done {
            var e :| e in rest[..i - |ready|] && e.name == p;
            assert e in order[..i];
          }
        }
      }
    }
  }

  lemma {:induction false} LaterReachesOnlyEarlier(order: seq<Entity>, i: nat, b: string, n: nat)
    requires DistinctNames(order) && ParentsFirst(order, NamesOf(order), {})
    requires i < |order| && ReachIn(GraphOf(order), order[i].name, b, n)
    ensures b in NamesOf(order) ==> b in NamesOf(order[..i + 1])
    ensures n > 0 && b in NamesOf(order) ==> b in NamesOf(order[..i])
    decreases n
  {
    if n == 0 {
      assert order[i] in order[..i + 1];
    } else {
      var g := GraphOf(order);
      var c :| Edge(g, order[i].name, c) && ReachIn(g, c, b, n - 1);
      GraphOfLooksUp(order, i);
      if c in NamesOf(order) {
        var e :| e in order[..i] && e.name == c;
        var j :| 0 <= j < i && order[j] == e;
        LaterReachesOnlyEarlier(order, j, b, n - 1);
        assert order[..j + 1] <= order[..i] <= order[..i + 1];
        if b in NamesOf(order) {
          var f :| f in order[..j + 1] && f.name == b;
          assert f in order[..i];
          assert f in order[..i + 1];
        }
      } else {
        GraphNames(order);
        assert n == 1;
      }
    }
  }

  lemma {:induction false} GraphNames(es: seq<Entity>)
    ensures GraphOf(es).Keys == NamesOf(es)
  {
    if es != [] {
      GraphNames(es[..|es| - 1]);
      assert es == es[..|es| - 1] + [es[|es| - 1]];
    }
  }

  lemma OrderedMeansAcyclic(order: seq<Entity>)
    requires DistinctNames(order) && ParentsFirst(order, NamesOf(order), {})
    ensures Acyclic(GraphOf(order))
  {
    var g := GraphOf(order);
    GraphNames(order);
    forall a, b | Edge(g, a, b)
      ensures !Reach(g, b, a)
    {
      if Reach(g, b, a) {
        var n: nat :| ReachIn(g, b, a, n);
        assert ReachIn(g, a, a, n + 1);
        var e :| e in order && e.name == a;
        var i :| 0 <= i < |order| && order[i] == e;
        LaterReachesOnlyEarlier(order, i, a, n + 1);
        assert false;
      }
    }
  }

  // ------------------------------------------------------------------ the theorem

  lemma {:induction false} LastOfEachNameMembers(es: seq<Entity>)
    ensures forall e :: e in LastOfEachName(es) ==> e in es
    ensures forall e :: e in es ==> e.name in NamesOf(LastOfEachName(es))
  {
    if es != [] {
      LastOfEachNameMembers(es[1..]);
      assert forall e :: e in es <==> e == es[0] || e in es[1..];
      assert forall e :: e in LastOfEachName(es[1..]) ==> e in LastOfEachName(es);
    }
  }

  lemma {:induction false} LastOfEachNameIsDistinct(es: seq<Entity>)
    ensures DistinctNames(LastOfEachName(es))
  {
    if es != [] {
      LastOfEachNameIsDistinct(es[1..]);
      LastOfEachNameMembers(es[1..]);
    }
  }

  lemma {:induction false} DistinctNamesAllKept(es: seq<Entity>)
    requires DistinctNames(es)
    ensures LastOfEachName(es) == es
  {
    if es != [] {
      DistinctTail(es);
      DistinctNamesAllKept(es[1..]);
    }
  }

  lemma SameEntitiesSameGraph(a: seq<Entity>, b: seq<Entity>)
    requires DistinctNames(a) && DistinctNames(b) && multiset(a) == multiset(b)
    ensures GraphOf(a) == GraphOf(b) && NamesOf(a) == NamesOf(b)
  {
    forall e ensures e in a <==> e in b {
      assert e in multiset(a) <==> e in multiset(b);
    }
    GraphNames(a);
    GraphNames(b);
    forall n | n in NamesOf(a)
      ensures GraphOf(a)[n] == GraphOf(b)[n]
    {
      var e :| e in a && e.name == n;
      var i :| 0 <= i < |a| && a[i] == e;
      var j :| 0 <= j < |b| && b[j] == e;
      GraphOfLooksUp(a, i);
      GraphOfLooksUp(b, j);
    }
  }

  lemma {:induction false} DistinctOccursOnce(es: seq<Entity>, e: Entity)
    requires DistinctNames(es)
    ensures multiset(es)[e] <= 1
  {
    if es != [] {
      DistinctTail(es);
      DistinctOccursOnce(es[1..], e);
      assert es == [es[0]] + es[1..];
      assert e == es[0] ==> e !in es[1..];
    }
  }

  lemma SubmultisetOfDistinct(a: seq<Entity>, b: seq<Entity>)
    requires DistinctNames(b) && multiset(a) <= multiset(b)
    ensures DistinctNames(a)
  {
    forall i, j | 0 <= i < j < |a|
      ensures a[i].name != a[j].name
    {
      assert a[i] in multiset(a) && a[j] in multiset(a);
      if a[i] == a[j] {
        assert a == a[..j] + a[j..];
        assert a[i] in a[..j] && a[j] in a[j..];
        DistinctOccursOnce(b, a[i]);
      }
    }
  }

  ghost function KnownOrder(es: seq<Entity>): seq<Entity> {
    Rounds(LastOfEachName(es), {})
  }

  /** `creation_order` fails exactly on cyclic relations. Otherwise it lists every entity once,
      each strictly after all of its known parents. */
  lemma CreationOrderIsTopological(es: seq<Entity>)
    ensures var nodes := LastOfEachName(es); var order := KnownOrder(es);
      && (|order| == |nodes| <==> Acyclic(GraphOf(nodes)))
      && (Acyclic(GraphOf(nodes)) ==> multiset(order) == multiset(nodes))
      && DistinctNames(order) && ParentsFirst(order, NamesOf(nodes), {})
  {
    var nodes, order := LastOfEachName(es), KnownOrder(es);
    LastOfEachNameIsDistinct(es);
    RoundsTakeFromPending(nodes, {});
    RoundsPutParentsFirst(nodes, {});
    NothingDone(nodes);
    SubmultisetOfDistinct(order, nodes);
    if |order| == |nodes| {
      assert |multiset(nodes) - multiset(order)| == 0;
      assert multiset(nodes) == multiset(order) + (multiset(nodes) - multiset(order));
      assert multiset(order) == multiset(nodes);
      SameEntitiesSameGraph(order, nodes);
      OrderedMeansAcyclic(order);
    }
    if Acyclic(GraphOf(nodes)) {
      assert |multiset(order)| == |order|;
      assert |multiset(nodes)| == |nodes|;
    }
  }

  lemma {:induction false} NothingDone(nodes: seq<Entity>)
    ensures Pending(nodes, {}) == nodes
  {
    if nodes != [] { NothingDone(nodes[1..]); }
  }

  lemma KnownParentsFirst(order: seq<Entity>, names: set<string>)
    requires ParentsFirst(order, names, {})
    requires forall e, p :: e in order && p in e.belongsTo ==> p in names
    ensures forall i, p :: 0 <= i < |order| && p in order[i].belongsTo ==> p in NamesOf(order[..i])
  {
    forall i, p | 0 <= i < |order| && p in order[i].belongsTo
      ensures p in NamesOf(order[..i])
    {
      assert order[i] in order && p in names;
    }
  }

  lemma ValidHasCreationOrder(r: seq<Entity>)
    requires DistinctNames(r) && ValidRelations(r)
    ensures var order := KnownOrder(r);
      && |order| == |r| && multiset(order) == multiset(r) && DistinctNames(order)
      && forall i, p :: 0 <= i < |order| && p in order[i].belongsTo ==> p in NamesOf(order[..i])
  {
    DistinctNamesAllKept(r);
    CreationOrderIsTopological(r);
    var order := KnownOrder(r);
    forall e, p | e in order && p in e.belongsTo
      ensures p in NamesOf(r)
    {
      assert e in multiset(order);
      assert UsableParents(NamesOf(r), e);
    }
    KnownParentsFirst(order, NamesOf(r));
  }

  /** What `normalise` returns always has a creation order, a permutation of the entities. */
  lemma NormalisedHasCreationOrder(es: seq<Entity>)
    requires DistinctNames(es)
    ensures var order := KnownOrder(Normalised(es));
      && |order| == |es| && multiset(order) == multiset(Normalised(es)) && DistinctNames(order)
      && forall i, p :: 0 <= i < |order| && p in order[i].belongsTo ==> p in NamesOf(order[..i])
  {
    NormaliseIsMaximalAcyclic(es);
    ValidHasCreationOrder(Normalised(es));
  }

  /** The graph read from the front: a later entity of the same name wins. */
  lemma {:induction false} GraphOfFront(es: seq<Entity>)
    requires es != []
    ensures GraphOf(es) ==
      if es[0].name in GraphOf(es[1..]) then GraphOf(es[1..])
      else GraphOf(es[1..])[es[0].name := es[0].belongsTo]
    decreases |es|
  {
    if |es| > 1 {
      var init := es[..|es| - 1];
      GraphOfFront(init);
      assert init[1..] == es[1..][..|es| - 2];
    } else {
      assert es[..0] == [] && es[1..] == [];
    }
  }

  lemma {:induction false} LastOfEachNameSameGraph(es: seq<Entity>)
    ensures GraphOf(LastOfEachName(es)) == GraphOf(es)
  {
    if es != [] {
      LastOfEachNameSameGraph(es[1..]);
      GraphOfFront(es);
      GraphNames(es[1..]);
      if es[0].name !in GraphOf(es[1..]) {
        var kept := [es[0]] + LastOfEachName(es[1..]);
        assert kept[1..] == LastOfEachName(es[1..]);
        GraphOfFront(kept);
      }
    }
  }

  /** Whatever is normalised, repeated names included, `creation_order` succeeds on it: it lists one
      entity for every name, its last, each strictly after all of its known parents. */
  lemma EveryInputHasCreationOrder(es: seq<Entity>)
    ensures var nodes := LastOfEachName(Normalised(es)); var order := KnownOrder(Normalised(es));
      && multiset(order) == multiset(nodes) && DistinctNames(order) && NamesOf(nodes) == NamesOf(es)
      && ParentsFirst(order, NamesOf(nodes), {})
  {
    var r := Normalised(es);
    NormalisedIsAcyclic(es);
    LastOfEachNameSameGraph(r);
    CreationOrderIsTopological(r);
    SameNames(es, r);
    GraphNames(r);
    GraphNames(LastOfEachName(r));
  }

  // ------------------------------------------------------------------ ties

  ghost predicate Precedes(order: seq<Entity>, e: Entity, f: Entity) {
    exists k, l :: 0 <= k < l < |order| && order[k] == e && order[l] == f
  }

  lemma PrecedesAcross(a: seq<Entity>, b: seq<Entity>, e: Entity, f: Entity)
    requires Precedes(a, e, f) || Precedes(b, e, f) || (e in a && f in b)
    ensures Precedes(a + b, e, f)
  {
    if Precedes(a, e, f) {
      var k, l :| 0 <= k < l < |a| && a[k] == e && a[l] == f;
      assert (a + b)[k] == e && (a + b)[l] == f;
    } else if Precedes(b, e, f) {
      var k, l :| 0 <= k < l < |b| && b[k] == e && b[l] == f;
      assert (a + b)[|a| + k] == e && (a + b)[|a| + l] == f;
    } else {
      var k :| 0 <= k < |a| && a[k] == e;
      var l :| 0 <= l < |b| && b[l] == f;
      assert (a + b)[k] == e && (a + b)[|a| + l] == f;
    }
  }

  lemma {:induction false} ReadyKeepsOrder(names: set<string>, done: set<string>, nodes: seq<Entity>, i: nat, j: nat)
    requires i < j < |nodes| && IsReady(names, done, nodes[i]) && IsReady(names, done, nodes[j])
    ensures Precedes(Ready(names, done, nodes), nodes[i], nodes[j])
    decreases |nodes|
  {
    var rest := Ready(names, done, nodes[1..]);
    assert nodes[j] == nodes[1..][j - 1];
    if i == 0 {
      PrecedesAcross([nodes[0]], rest, nodes[i], nodes[j]);
    } else {
      ReadyKeepsOrder(names, done, nodes[1..], i - 1, j - 1);
      if IsReady(names, done, nodes[0]) {
        PrecedesAcross([nodes[0]], rest, nodes[i], nodes[j]);
      }
    }
  }

  lemma StillToCome(nodes: seq<Entity>, done: set<string>, f: Entity)
    requires DistinctNames(nodes) && Acyclic(GraphOf(nodes))
    requires f in nodes && f.name !in done && !IsReady(NamesOf(nodes), done, f)
    ensures var ready := Ready(NamesOf(nodes), done, nodes);
      ready != [] && f.name !in NamesOf(ready) && f in Rounds(nodes, done + NamesOf(ready))
  {
    var ready := Ready(NamesOf(nodes), done, nodes);
    PendingMembers(nodes, done);
    assert f in Pending(nodes, done);
    if ready == [] { NothingReadyMeansCycle(nodes, done); }
    ReadyNames(nodes, done);
    var after := done + NamesOf(ready);
    PendingMembers(nodes, after);
    RoundsTakeFromPending(nodes, after);
    assert f in multiset(Pending(nodes, after));
  }

  /** Ties keep the specification's order: an entity is never overtaken by a later one that
      waits for at least the same parents. */
  lemma {:induction false} TiesKeepSpecificationOrder(nodes: seq<Entity>, done: set<string>, i: nat, j: nat)
    requires DistinctNames(nodes) && Acyclic(GraphOf(nodes)) && i < j < |nodes|
    requires nodes[i].name !in done && nodes[j].name !in done
    requires forall p :: p in nodes[i].belongsTo && p in NamesOf(nodes) ==> p in nodes[j].belongsTo
    ensures Precedes(Rounds(nodes, done), nodes[i], nodes[j])
    decreases NamesOf(nodes) - done
  {
    var names := NamesOf(nodes);
    var ready := Ready(names, done, nodes);
    var e, f := nodes[i], nodes[j];
    assert e in nodes && f in nodes;
    NextRound(nodes, done);
    var rest := Rounds(nodes, done + NamesOf(ready));
    if IsReady(names, done, f) {
      ReadyKeepsOrder(names, done, nodes, i, j);
    } else {
      StillToCome(nodes, done, f);
      if !IsReady(names, done, e) {
        StillToCome(nodes, done, e);
        TiesKeepSpecificationOrder(nodes, done + NamesOf(ready), i, j);
      }
    }
    PrecedesAcross(ready, rest, e, f);
  }
}
