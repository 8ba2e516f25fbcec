/** Many-to-one relations between entities: cycle breaking and creation order.
    Models src/autoswe/pipeline/relations.py. */
module Relations {

  datatype Field = Field(name: string, required: bool)

  datatype Entity = Entity(name: string, fields: seq<Field>, belongsTo: seq<string>)

  // ------------------------------------------------------------------ graphs

  /** `kept`: a name's parents, in the order they were accepted. */
  type Graph = map<string, seq<string>>

  ghost predicate Edge(g: Graph, child: string, parent: string) {
    child in g && parent in g[child]
  }

  ghost predicate ReachIn(g: Graph, a: string, b: string, steps: nat)
    decreases steps
  {
    if steps == 0 then a == b
    else exists c :: Edge(g, a, c) && ReachIn(g, c, b, steps - 1)
  }

  /** There is a path of parent links from `a` to `b` (possibly the empty one). */
  ghost predicate Reach(g: Graph, a: string, b: string) {
    exists n: nat :: ReachIn(g, a, b, n)
  }

  ghost predicate Acyclic(g: Graph) {
    forall a, b :: Edge(g, a, b) ==> !Reach(g, b, a)
  }

  ghost predicate SubGraph(g: Graph, h: Graph) {
    forall a, b :: Edge(g, a, b) ==> Edge(h, a, b)
  }

  lemma ReachSelf(g: Graph, a: string)
    ensures Reach(g, a, a)
  {
    assert ReachIn(g, a, a, 0);
  }

  lemma {:induction false} ReachInMonotone(g: Graph, h: Graph, a: string, b: string, n: nat)
    requires SubGraph(g, h) && ReachIn(g, a, b, n)
    ensures ReachIn(h, a, b, n)
    decreases n
  {
    if n > 0 {
      var c :| Edge(g, a, c) && ReachIn(g, c, b, n - 1);
      ReachInMonotone(g, h, c, b, n - 1);
    }
  }

  lemma ReachMonotone(g: Graph, h: Graph, a: string, b: string)
    requires SubGraph(g, h) && Reach(g, a, b)
    ensures Reach(h, a, b)
  {
    var n: nat :| ReachIn(g, a, b, n);
    ReachInMonotone(g, h, a, b, n);
  }

  lemma {:induction false} ReachInTransitive(g: Graph, a: string, b: string, c: string, m: nat, n: nat)
    requires ReachIn(g, a, b, m) && ReachIn(g, b, c, n)
    ensures ReachIn(g, a, c, m + n)
    decreases m
  {
    if m > 0 {
      var d :| Edge(g, a, d) && ReachIn(g, d, b, m - 1);
      ReachInTransitive(g, d, b, c, m - 1, n);
    }
  }

  lemma ReachTransitive(g: Graph, a: string, b: string, c: string)
    requires Reach(g, a, b) && Reach(g, b, c)
    ensures Reach(g, a, c)
  {
    var m: nat :| ReachIn(g, a, b, m);
    var n: nat :| ReachIn(g, b, c, n);
    ReachInTransitive(g, a, b, c, m, n);
  }

  lemma ReachStep(g: Graph, a: string, b: string, c: string)
    requires Edge(g, a, b) && Reach(g, b, c)
    ensures Reach(g, a, c)
  {
    var n: nat :| ReachIn(g, b, c, n);
    assert ReachIn(g, a, c, n + 1);
  }

  /** `h` has the edges of `g` and the one edge child -> parent. */
  ghost predicate Extends(g: Graph, child: string, parent: string, h: Graph) {
    forall a, b :: Edge(h, a, b) <==> Edge(g, a, b) || (a == child && b == parent)
  }

  lemma {:induction false} ReachThroughNewEdge(g: Graph, n: string, p: string, h: Graph, a: string, b: string, k: nat)
    requires Extends(g, n, p, h) && ReachIn(h, a, b, k)
    ensures Reach(g, a, b) || (Reach(g, a, n) && Reach(g, p, b))
    decreases k
  {
    if k == 0 {
      ReachSelf(g, a);
    } else {
      var c :| Edge(h, a, c) && ReachIn(h, c, b, k - 1);
      ReachThroughNewEdge(g, n, p, h, c, b, k - 1);
      if Edge(g, a, c) {
        if Reach(g, c, b) { ReachStep(g, a, c, b); } else { ReachStep(g, a, c, n); }
      } else {
        ReachSelf(g, n);
      }
    }
  }

  /** An edge whose parent does not already reach the child closes no cycle. */
  lemma NewEdgeKeepsAcyclic(g: Graph, n: string, p: string, h: Graph)
    requires Acyclic(g) && Extends(g, n, p, h) && !Reach(g, p, n)
    ensures Acyclic(h)
  {
    forall a, b | Edge(h, a, b)
      ensures !Reach(h, b, a)
    {
      if Reach(h, b, a) {
        var k: nat :| ReachIn(h, b, a, k);
        ReachThroughNewEdge(g, n, p, h, b, a, k);
        if Edge(g, a, b) && !Reach(g, b, a) {
          ReachStep(g, a, b, n);
          ReachTransitive(g, p, a, n);
        }
        assert false;
      }
    }
  }

  lemma SameEdgesSameReach(g: Graph, h: Graph, a: string, b: string)
    requires SubGraph(g, h) && SubGraph(h, g)
    ensures Reach(g, a, b) <==> Reach(h, a, b)
  {
    if Reach(g, a, b) { ReachMonotone(g, h, a, b); }
    if Reach(h, a, b) { ReachMonotone(h, g, a, b); }
  }

  lemma {:induction false} ClosedSetTraps(g: Graph, s: set<string>, a: string, b: string, n: nat)
    requires forall x, y :: x in s && Edge(g, x, y) ==> y in s
    requires a in s && ReachIn(g, a, b, n)
    ensures b in s
    decreases n
  {
    if n > 0 {
      var c :| Edge(g, a, c) && ReachIn(g, c, b, n - 1);
      ClosedSetTraps(g, s, c, b, n - 1);
    }
  }

  // ------------------------------------------------------------------ reaches

  function Parents(g: Graph, name: string): seq<string> {
    if name in g then g[name] else []
  }

  ghost function Names(g: Graph, start: string): set<string> {
    {start} + g.Keys + set x, y | x in g && y in g[x] :: y
  }

  /** The explicit-stack search decides reachability. */
  method Reaches(kept: Graph, start: string, goal: string) returns (found: bool)
    ensures found <==> Reach(kept, start, goal)
  {
    var stack, seen := [start], {};
    ghost var universe := Names(kept, start);
    ReachSelf(kept, start);
    while stack != []
      invariant seen <= universe && forall x :: x in stack ==> x in universe
      invariant forall x :: x in stack || x in seen ==> Reach(kept, start, x)
      invariant start in stack || start in seen
      invariant goal !in seen
      invariant forall x, y :: x in seen && Edge(kept, x, y) ==> y in seen || y in stack
      decreases universe - seen, |stack|
    {
      var name := stack[|stack| - 1];
      assert stack == stack[..|stack| - 1] + [name];
      assert forall x :: x in stack <==> x in stack[..|stack| - 1] || x == name;
      stack := stack[..|stack| - 1];
      if name == goal { return true; }
      if name !in seen {
        forall y | y in Parents(kept, name)
          ensures Reach(kept, start, y)
        {
          ReachSelf(kept, y);
          ReachStep(kept, name, y, y);
          ReachTransitive(kept, start, name, y);
        }
        assert name in universe - seen;
        seen := seen + {name};
        stack := stack + Parents(kept, name);
      }
    }
    if Reach(kept, start, goal) {
      var n: nat :| ReachIn(kept, start, goal, n);
      ClosedSetTraps(kept, seen, start, goal, n);
      assert false;
    }
    return false;
  }

  // ------------------------------------------------------------------ normalise

  ghost predicate DistinctNames(es: seq<Entity>) {
    forall i, j :: 0 <= i < j < |es| ==> es[i].name != es[j].name
  }

  function NamesOf(es: seq<Entity>): set<string> {
    set e | e in es :: e.name
  }

  /** `kept` while an entity is being read: its entry appears with its first accepted parent. */
  function With(kept: Graph, name: string, parents: seq<string>): Graph {
    if parents == [] then kept else kept[name := parents]
  }

  /** `kept` once an entity has been read (`setdefault`). */
  function Close(kept: Graph, name: string, parents: seq<string>): Graph {
    if parents == [] && name in kept then kept else kept[name := parents]
  }

  ghost predicate Accepts(known: set<string>, kept: Graph, name: string, parents: seq<string>, parent: string) {
    && parent in known && parent != name && parent !in parents
    && !Reach(With(kept, name, parents), parent, name)
  }

  /** The parents of `name` that survive, out of `wanted`, given the edges kept so far. */
  ghost function Survivors(known: set<string>, kept: Graph, name: string, wanted: seq<string>): seq<string> {
    if wanted == [] then []
    else
      var init := wanted[..|wanted| - 1];
      var parents := Survivors(known, kept, name, init);
      var parent := wanted[|wanted| - 1];
      if Accepts(known, kept, name, parents, parent) then parents + [parent] else parents
  }

  /** `kept` after a prefix of the specification. */
  ghost function KeptAfter(known: set<string>, es: seq<Entity>): Graph {
    if es == [] then map[]
    else
      var e := es[|es| - 1];
      var before := KeptAfter(known, es[..|es| - 1]);
      Close(before, e.name, Survivors(known, before, e.name, e.belongsTo))
  }

  ghost function NormalisedEntity(known: set<string>, es: seq<Entity>, i: nat): Entity
    requires i < |es|
  {
    es[i].(belongsTo := Survivors(known, KeptAfter(known, es[..i]), es[i].name, es[i].belongsTo))
  }

  ghost function Normalised(es: seq<Entity>): seq<Entity> {
    seq(|es|, i requires 0 <= i < |es| => NormalisedEntity(NamesOf(es), es, i))
  }

  /** Reads one entity's relations; `kept` is the graph before it, `graph` the one after. */
  method KeepParents(known: set<string>, before: Graph, entity: Entity)
    returns (parents: seq<string>, kept: Graph)
    ensures parents == Survivors(known, before, entity.name, entity.belongsTo)
    ensures kept == Close(before, entity.name, parents)
  {
    parents, kept := [], before;
    for j := 0 to |entity.belongsTo|
      invariant parents == Survivors(known, before, entity.name, entity.belongsTo[..j])
      invariant kept == With(before, entity.name, parents)
    {
      var parent := entity.belongsTo[j];
      assert entity.belongsTo[..j + 1][..j] == entity.belongsTo[..j];
      var usable := parent in known && parent != entity.name && parent !in parents;
      if usable {
        var closes := Reaches(kept, parent, entity.name);
        if !closes {
          parents := parents + [parent];
          kept := kept[entity.name := parents];
        }
      }
    }
    assert entity.belongsTo[..|entity.belongsTo|] == entity.belongsTo;
    if entity.name !in kept { kept := kept[entity.name := parents]; }
  }

  method Normalise(entities: seq<Entity>) returns (result: seq<Entity>)
    ensures result == Normalised(entities)
  {
    var known := NamesOf(entities);
    var kept: Graph := map[];
    result := [];
    for i := 0 to |entities|
      invariant kept == KeptAfter(known, entities[..i])
      invariant |result| == i
      invariant forall k :: 0 <= k < i ==> result[k] == NormalisedEntity(known, entities, k)
    {
      var entity := entities[i];
      assert entities[..i + 1][..i] == entities[..i];
      var parents, after := KeepParents(known, kept, entity);
      kept := after;
      if parents == entity.belongsTo {
        result := result + [entity];
      } else {
        result := result + [entity.(belongsTo := parents)];
      }
    }
    assert entities[..|entities|] == entities;
  }

  // ------------------------------------------------------------------ what normalise guarantees

  ghost predicate Distinct(s: seq<string>) {
    forall i, j :: 0 <= i < j < |s| ==> s[i] != s[j]
  }

  /** Every name with its parents; a repeated name keeps its last parents, as in a dict. */
  ghost function GraphOf(es: seq<Entity>): Graph {
    if es == [] then map[]
    else GraphOf(es[..|es| - 1])[es[|es| - 1].name := es[|es| - 1].belongsTo]
  }

  ghost predicate UsableParents(known: set<string>, e: Entity) {
    Distinct(e.belongsTo) && forall p :: p in e.belongsTo ==> p in known && p != e.name
  }

  ghost predicate ValidRelations(es: seq<Entity>) {
    && (forall e :: e in es ==> UsableParents(NamesOf(es), e))
    && Acyclic(GraphOf(es))
  }

  lemma {:induction false} SurvivorsKeepAcyclic(known: set<string>, kept: Graph, name: string, wanted: seq<string>)
    requires Acyclic(kept) && name !in kept
    ensures var ps := Survivors(known, kept, name, wanted);
      && Acyclic(With(kept, name, ps)) && Distinct(ps)
      && (forall p :: p in ps ==> p in wanted && p in known && p != name)
      && (forall p :: p in wanted && p !in ps && p in known && p != name ==> Reach(With(kept, name, ps), p, name))
  {
    if wanted != [] {
      var init, parent := wanted[..|wanted| - 1], wanted[|wanted| - 1];
      SurvivorsKeepAcyclic(known, kept, name, init);
      assert wanted == init + [parent];
      var ps, now := Survivors(known, kept, name, init), Survivors(known, kept, name, wanted);
      var g, h := With(kept, name, ps), With(kept, name, now);
      if Accepts(known, kept, name, ps, parent) {
        assert Extends(g, name, parent, h);
        NewEdgeKeepsAcyclic(g, name, parent, h);
        forall p | p in wanted && p !in now && p in known && p != name
          ensures Reach(h, p, name)
        {
          ReachMonotone(g, h, p, name);
        }
      }
    }
  }

  lemma SubGraphReach(g: Graph, h: Graph)
    requires SubGraph(g, h)
    ensures forall a, b :: Reach(g, a, b) ==> Reach(h, a, b)
  {
    forall a, b | Reach(g, a, b)
      ensures Reach(h, a, b)
    {
      ReachMonotone(g, h, a, b);
    }
  }

  lemma SameEdgesAcyclic(g: Graph, h: Graph)
    requires SubGraph(g, h) && SubGraph(h, g) && Acyclic(g)
    ensures Acyclic(h)
  {
    forall a, b | Edge(h, a, b)
      ensures !Reach(h, b, a)
    {
      SameEdgesSameReach(g, h, b, a);
    }
  }

  lemma {:induction false} KeptIsAcyclic(known: set<string>, es: seq<Entity>)
    requires DistinctNames(es)
    ensures Acyclic(KeptAfter(known, es)) && KeptAfter(known, es).Keys == NamesOf(es)
  {
    if es != [] {
      var init, e := es[..|es| - 1], es[|es| - 1];
      assert es == init + [e];
      KeptIsAcyclic(known, init);
      var before := KeptAfter(known, init);
      assert e.name !in before;
      SurvivorsKeepAcyclic(known, before, e.name, e.belongsTo);
      var g := With(before, e.name, Survivors(known, before, e.name, e.belongsTo));
      SameEdgesAcyclic(g, KeptAfter(known, es));
    }
  }

  /** An entity's entry, once written, stays; earlier graphs are contained in later ones. */
  lemma {:induction false} KeptGrows(known: set<string>, es: seq<Entity>, i: nat)
    requires DistinctNames(es) && i <= |es|
    ensures SubGraph(KeptAfter(known, es[..i]), KeptAfter(known, es))
    ensures i < |es| ==> es[i].name in KeptAfter(known, es)
    ensures i < |es| ==> (KeptAfter(known, es)[es[i].name] ==
      Survivors(known, KeptAfter(known, es[..i]), es[i].name, es[i].belongsTo))
    decreases |es|
  {
    assert es[..|es|] == es;
    if i < |es| {
      var init, e := es[..|es| - 1], es[|es| - 1];
      KeptGrows(known, init, i);
      KeptIsAcyclic(known, init);
      assert e.name !in NamesOf(init);
      assert es[..i] == init[..i];
      assert SubGraph(KeptAfter(known, init), KeptAfter(known, es));
    }
  }

  lemma {:induction false} KeptIsGraphOfResult(known: set<string>, es: seq<Entity>, n: nat)
    requires DistinctNames(es) && n <= |es| && known == NamesOf(es)
    ensures KeptAfter(known, es[..n]) == GraphOf(Normalised(es)[..n])
  {
    if n > 0 {
      KeptIsGraphOfResult(known, es, n - 1);
      assert es[..n][..n - 1] == es[..n - 1];
      assert Normalised(es)[..n][..n - 1] == Normalised(es)[..n - 1];
      KeptIsAcyclic(known, es[..n - 1]);
      assert es[n - 1].name !in NamesOf(es[..n - 1]);
    }
  }

  lemma KeptExactly(es: seq<Entity>, i: nat)
    requires DistinctNames(es) && i < |es|
    ensures var r := Normalised(es);
      && UsableParents(NamesOf(es), r[i])
      && (forall p :: p in r[i].belongsTo <==>
           p in es[i].belongsTo && p in NamesOf(es) && p != es[i].name && !Reach(GraphOf(r), p, es[i].name))
  {
    var known, r := NamesOf(es), Normalised(es);
    assert es[..|es|] == es && r[..|r|] == r;
    KeptIsGraphOfResult(known, es, |es|);
    KeptIsAcyclic(known, es);
    KeptIsAcyclic(known, es[..i]);
    KeptGrows(known, es, i);
    var g, before := GraphOf(r), KeptAfter(known, es[..i]);
    SurvivorsKeepAcyclic(known, before, es[i].name, es[i].belongsTo);
    var mine := With(before, es[i].name, r[i].belongsTo);
    assert SubGraph(mine, g);
    SubGraphReach(mine, g);
    forall p | p in r[i].belongsTo
      ensures !Reach(g, p, es[i].name)
    {
      assert Edge(g, es[i].name, p);
    }
  }

  /** A relation is kept exactly when it is usable and closes no cycle in the result, and the
      result is a valid specification with the same entities in the same order. */
  lemma NormaliseIsMaximalAcyclic(es: seq<Entity>)
    requires DistinctNames(es)
    ensures var r := Normalised(es);
      && |r| == |es|
      && (forall i :: 0 <= i < |es| ==> r[i] == es[i].(belongsTo := r[i].belongsTo))
      && DistinctNames(r) && ValidRelations(r)
    ensures var r := Normalised(es);
      forall i, p :: 0 <= i < |es| ==>
         (p in r[i].belongsTo <==>
           p in es[i].belongsTo && p in NamesOf(es) && p != es[i].name && !Reach(GraphOf(r), p, es[i].name))
  {
    var r := Normalised(es);
    forall i | 0 <= i < |es|
      ensures UsableParents(NamesOf(es), r[i])
      ensures forall p :: p in r[i].belongsTo <==>
           p in es[i].belongsTo && p in NamesOf(es) && p != es[i].name && !Reach(GraphOf(r), p, es[i].name)
    {
      KeptExactly(es, i);
    }
    SameNames(es, r);
    assert es[..|es|] == es && r[..|r|] == r;
    KeptIsGraphOfResult(NamesOf(es), es, |es|);
    KeptIsAcyclic(NamesOf(es), es);
  }

  lemma SameNames(es: seq<Entity>, r: seq<Entity>)
    requires |es| == |r| && forall i :: 0 <= i < |es| ==> es[i].name == r[i].name
    ensures NamesOf(es) == NamesOf(r)
  {
    forall n | n in NamesOf(es)
      ensures n in NamesOf(r)
    {
      var i :| 0 <= i < |es| && es[i].name == n;
      assert r[i] in r;
    }
    forall n | n in NamesOf(r)
      ensures n in NamesOf(es)
    {
      var i :| 0 <= i < |r| && r[i].name == n;
      assert es[i] in es;
    }
  }

  lemma {:induction false} GraphOfLooksUp(es: seq<Entity>, i: nat)
    requires DistinctNames(es) && i < |es|
    ensures es[i].name in GraphOf(es) && GraphOf(es)[es[i].name] == es[i].belongsTo
  {
    if i < |es| - 1 {
      GraphOfLooksUp(es[..|es| - 1], i);
    }
  }

  // ------------------------------------------------------------------ what is left alone

  lemma {:induction false} SurvivorsAgain(known: set<string>, kept: Graph, name: string, wanted: seq<string>)
    ensures var ps := Survivors(known, kept, name, wanted); Survivors(known, kept, name, ps) == ps
  {
    if wanted != [] {
      SurvivorsAgain(known, kept, name, wanted[..|wanted| - 1]);
      var before, ps := Survivors(known, kept, name, wanted[..|wanted| - 1]), Survivors(known, kept, name, wanted);
      if ps != before { assert ps[..|ps| - 1] == before; }
    }
  }

  lemma {:induction false} KeptAgain(known: set<string>, es: seq<Entity>, n: nat)
    requires n <= |es| && known == NamesOf(es)
    ensures KeptAfter(known, Normalised(es)[..n]) == KeptAfter(known, es[..n])
  {
    if n > 0 {
      var r := Normalised(es);
      KeptAgain(known, es, n - 1);
      assert es[..n][..n - 1] == es[..n - 1];
      assert r[..n][..n - 1] == r[..n - 1] && r[..n][n - 1] == NormalisedEntity(known, es, n - 1);
      SurvivorsAgain(known, KeptAfter(known, es[..n - 1]), es[n - 1].name, es[n - 1].belongsTo);
    }
  }

  /** Normalising twice changes nothing, whatever the names. */
  lemma NormaliseIdempotent(es: seq<Entity>)
    ensures Normalised(Normalised(es)) == Normalised(es)
  {
    var known, r := NamesOf(es), Normalised(es);
    SameNames(es, r);
    forall i | 0 <= i < |es|
      ensures NormalisedEntity(known, r, i) == r[i]
    {
      KeptAgain(known, es, i);
      SurvivorsAgain(known, KeptAfter(known, es[..i]), es[i].name, es[i].belongsTo);
    }
  }

  /** The relations declared by a prefix; a repeated name keeps its last parents, if any. */
  ghost function Declared(es: seq<Entity>): Graph {
    if es == [] then map[]
    else Close(Declared(es[..|es| - 1]), es[|es| - 1].name, es[|es| - 1].belongsTo)
  }

  /** Entity by entity: its parents are usable, and with them the relations declared so far form no cycle. */
  ghost predicate ValidUpTo(known: set<string>, es: seq<Entity>) {
    es == [] ||
    (ValidUpTo(known, es[..|es| - 1]) && UsableParents(known, es[|es| - 1]) && Acyclic(Declared(es)))
  }

  ghost predicate ValidInOrder(es: seq<Entity>) {
    ValidUpTo(NamesOf(es), es)
  }

  /** Only edges that do not start in `b` matter for reaching `b`. */
  lemma {:induction false} ReachWithoutOwnEdges(g: Graph, h: Graph, a: string, b: string, n: nat)
    requires ReachIn(g, a, b, n) && forall x, y :: x != b && Edge(g, x, y) ==> Edge(h, x, y)
    ensures Reach(h, a, b)
    decreases n
  {
    if a == b {
      ReachSelf(h, a);
    } else {
      var c :| Edge(g, a, c) && ReachIn(g, c, b, n - 1);
      ReachWithoutOwnEdges(g, h, c, b, n - 1);
      ReachStep(h, a, c, b);
    }
  }

  lemma {:induction false} ValidSurvivesWhole(known: set<string>, kept: Graph, e: Entity, n: nat)
    requires n <= |e.belongsTo| && UsableParents(known, e) && Acyclic(Close(kept, e.name, e.belongsTo))
    ensures Survivors(known, kept, e.name, e.belongsTo[..n]) == e.belongsTo[..n]
  {
    if n > 0 {
      ValidSurvivesWhole(known, kept, e, n - 1);
      var init, parent := e.belongsTo[..n - 1], e.belongsTo[n - 1];
      assert e.belongsTo[..n][..n - 1] == init && e.belongsTo[..n] == init + [parent];
      var now, all := With(kept, e.name, init), Close(kept, e.name, e.belongsTo);
      assert Edge(all, e.name, parent) && parent !in init;
      if Reach(now, parent, e.name) {
        var k: nat :| ReachIn(now, parent, e.name, k);
        ReachWithoutOwnEdges(now, all, parent, e.name, k);
        assert false;
      }
    }
  }

  lemma ValidStaysWhole(known: set<string>, kept: Graph, e: Entity)
    requires UsableParents(known, e) && Acyclic(Close(kept, e.name, e.belongsTo))
    ensures Survivors(known, kept, e.name, e.belongsTo) == e.belongsTo
  {
    ValidSurvivesWhole(known, kept, e, |e.belongsTo|);
    assert e.belongsTo[..|e.belongsTo|] == e.belongsTo;
  }

  lemma {:induction false} ValidPrefix(known: set<string>, es: seq<Entity>, n: nat)
    requires ValidUpTo(known, es) && n <= |es|
    ensures ValidUpTo(known, es[..n])
    decreases |es|
  {
    if n < |es| {
      assert es[..n] == es[..|es| - 1][..n];
      ValidPrefix(known, es[..|es| - 1], n);
    } else {
      assert es[..n] == es;
    }
  }

  lemma {:induction false} ValidIsKept(known: set<string>, es: seq<Entity>)
    requires ValidUpTo(known, es)
    ensures KeptAfter(known, es) == Declared(es)
  {
    if es != [] {
      ValidIsKept(known, es[..|es| - 1]);
      ValidStaysWhole(known, Declared(es[..|es| - 1]), es[|es| - 1]);
    }
  }

  lemma ValidIsUnchanged(es: seq<Entity>, i: nat)
    requires ValidInOrder(es) && i < |es|
    ensures NormalisedEntity(NamesOf(es), es, i) == es[i]
  {
    var known, next := NamesOf(es), es[..i + 1];
    assert next[..|next| - 1] == es[..i] && next[|next| - 1] == es[i];
    ValidPrefix(known, es, i + 1);
    ValidIsKept(known, es[..i]);
    ValidStaysWhole(known, Declared(es[..i]), es[i]);
  }

  lemma {:induction false} SurvivorsAreUsable(known: set<string>, kept: Graph, name: string, wanted: seq<string>)
    ensures var ps := Survivors(known, kept, name, wanted);
      Distinct(ps) && forall p :: p in ps ==> p in known && p != name
  {
    if wanted != [] { SurvivorsAreUsable(known, kept, name, wanted[..|wanted| - 1]); }
  }

  lemma {:induction false} UnchangedIsValid(known: set<string>, es: seq<Entity>, n: nat)
    requires Normalised(es) == es && known == NamesOf(es) && n <= |es|
    ensures KeptAfter(known, es[..n]) == Declared(es[..n]) && ValidUpTo(known, es[..n])
  {
    if n > 0 {
      var e, before := es[n - 1], KeptAfter(known, es[..n - 1]);
      UnchangedIsValid(known, es, n - 1);
      assert es[..n][..n - 1] == es[..n - 1] && es[..n][n - 1] == e;
      assert Normalised(es)[n - 1] == NormalisedEntity(known, es, n - 1);
      SurvivorsAreUsable(known, before, e.name, e.belongsTo);
      KeptAnyway(known, es[..n]);
    }
  }

  /** Entities whose relations are already valid, and only those, are returned unchanged. */
  lemma NormaliseFixesExactlyValid(es: seq<Entity>)
    ensures Normalised(es) == es <==> ValidInOrder(es)
  {
    if ValidInOrder(es) {
      forall i | 0 <= i < |es| ensures Normalised(es)[i] == es[i] { ValidIsUnchanged(es, i); }
    }
    if Normalised(es) == es {
      UnchangedIsValid(NamesOf(es), es, |es|);
      assert es[..|es|] == es;
    }
  }

  lemma DistinctPrefix(es: seq<Entity>, n: nat)
    requires DistinctNames(es) && n <= |es|
    ensures DistinctNames(es[..n])
  {
  }

  lemma {:induction false} DistinctDeclared(es: seq<Entity>)
    requires DistinctNames(es)
    ensures Declared(es) == GraphOf(es) && Declared(es).Keys == NamesOf(es)
  {
    if es != [] {
      var init, e := es[..|es| - 1], es[|es| - 1];
      DistinctPrefix(es, |es| - 1);
      DistinctDeclared(init);
      assert es == init + [e] && e.name !in NamesOf(init);
    }
  }

  lemma {:induction false} DistinctNamesValid(known: set<string>, es: seq<Entity>)
    requires DistinctNames(es)
    ensures ValidUpTo(known, es) <==> (forall e :: e in es ==> UsableParents(known, e)) && Acyclic(GraphOf(es))
  {
    DistinctDeclared(es);
    if es != [] {
      var init, e := es[..|es| - 1], es[|es| - 1];
      DistinctPrefix(es, |es| - 1);
      DistinctDeclared(init);
      DistinctNamesValid(known, init);
      assert es == init + [e] && e.name !in NamesOf(init);
      if Acyclic(GraphOf(es)) { SubGraphAcyclic(GraphOf(init), GraphOf(es)); }
    }
  }

  /** With distinct names this is validity of the whole specification, in whatever order. */
  lemma DistinctNamesOrderless(es: seq<Entity>)
    requires DistinctNames(es)
    ensures ValidInOrder(es) <==> ValidRelations(es)
  {
    DistinctNamesValid(NamesOf(es), es);
  }

  // ------------------------------------------------------------------ repeated names

  lemma SubGraphAcyclic(g: Graph, h: Graph)
    requires SubGraph(g, h) && Acyclic(h)
    ensures Acyclic(g)
  {
    forall a, b | Edge(g, a, b)
      ensures !Reach(g, b, a)
    {
      if Reach(g, b, a) { ReachMonotone(g, h, b, a); }
    }
  }

  lemma {:induction false} SurvivorsAnyway(known: set<string>, kept: Graph, name: string, wanted: seq<string>)
    requires Acyclic(kept)
    ensures Acyclic(With(kept, name, Survivors(known, kept, name, wanted)))
  {
    if wanted != [] {
      var init, parent := wanted[..|wanted| - 1], wanted[|wanted| - 1];
      SurvivorsAnyway(known, kept, name, init);
      var parents := Survivors(known, kept, name, init);
      if Accepts(known, kept, name, parents, parent) {
        var g := With(kept, name, parents);
        var both := g[name := Parents(g, name) + [parent]];
        NewEdgeKeepsAcyclic(g, name, parent, both);
        SubGraphAcyclic(With(kept, name, parents + [parent]), both);
      }
    }
  }

  lemma {:induction false} KeptAnyway(known: set<string>, es: seq<Entity>)
    ensures Acyclic(KeptAfter(known, es))
  {
    if es != [] {
      var e := es[|es| - 1];
      var before := KeptAfter(known, es[..|es| - 1]);
      KeptAnyway(known, es[..|es| - 1]);
      SurvivorsAnyway(known, before, e.name, e.belongsTo);
      SameEdgesAcyclic(With(before, e.name, Survivors(known, before, e.name, e.belongsTo)), KeptAfter(known, es));
    }
  }

  /** A repeated name may have lost relations, never gained one that was not kept. */
  lemma {:induction false} ResultWithinKept(known: set<string>, es: seq<Entity>, n: nat)
    requires n <= |es| && known == NamesOf(es)
    ensures SubGraph(GraphOf(Normalised(es)[..n]), KeptAfter(known, es[..n]))
  {
    if n > 0 {
      ResultWithinKept(known, es, n - 1);
      assert es[..n][..n - 1] == es[..n - 1];
      var r := Normalised(es);
      assert r[..n][..n - 1] == r[..n - 1] && r[..n][n - 1] == NormalisedEntity(known, es, n - 1);
      forall a, b | Edge(GraphOf(r[..n]), a, b)
        ensures Edge(KeptAfter(known, es[..n]), a, b)
      {
        if a != es[n - 1].name { assert Edge(GraphOf(r[..n - 1]), a, b); }
      }
    }
  }

  /** Whatever the analyst returns, repeated names included, the result has no cycle. */
  lemma NormalisedIsAcyclic(es: seq<Entity>)
    ensures Acyclic(GraphOf(Normalised(es)))
  {
    var known, r := NamesOf(es), Normalised(es);
    assert es[..|es|] == es && r[..|r|] == r;
    ResultWithinKept(known, es, |es|);
    KeptAnyway(known, es);
    SubGraphAcyclic(GraphOf(r), KeptAfter(known, es));
  }
}
