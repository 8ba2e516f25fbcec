/** The in-memory store of the generated Go service, with cascading deletes.
    Models the `Store` emitted by `render_store` in src/autoswe/llm/offline/templates_go.py. */
module GoStore {

  /** A decoded JSON value: an integral number, null, or anything else. */
  datatype Value = Integer(n: int) | Null | Other(text: string)

  type Item = map<string, Value>

  predicate RefersTo(item: Item, key: string, id: nat) {
    key in item && item[key] == Integer(id)
  }

  // ------------------------------------------------------------------ what the stores hold

  /** One stored item: the number of its store and its id. */
  type Node = (nat, nat)

  type Contents = seq<map<nat, Item>>

  /** A store's items refer to another's through `key`. */
  datatype Wire = Wire(key: string, child: nat)

  /** For each store, the stores a deletion cascades to. */
  type Wiring = seq<seq<Wire>>

  ghost function Live(c: Contents): set<Node> {
    set s: nat, i: nat | s < |c| && i in c[s] :: (s, i)
  }

  /** Item `x` names item `y` as its parent, through a key that `y`'s store cascades on. */
  ghost predicate Refers(w: Wiring, c: Contents, x: Node, y: Node) {
    && x in Live(c) && y.0 < |w|
    && exists d :: d in w[y.0] && d.child == x.0 && RefersTo(c[x.0][x.1], d.key, y.1)
  }

  /** `x` refers to `root` through a chain of `n` references. */
  ghost predicate DependsIn(w: Wiring, c: Contents, x: Node, root: Node, n: nat)
    decreases n
  {
    if n == 0 then x == root
    else exists y :: Refers(w, c, x, y) && DependsIn(w, c, y, root, n - 1)
  }

  /** `root`, and everything that refers to it directly or not. */
  ghost predicate Depends(w: Wiring, c: Contents, x: Node, root: Node) {
    exists n: nat :: DependsIn(w, c, x, root, n)
  }

  /** `b` is `a` with some items taken out and the others untouched. */
  ghost predicate Within(b: Contents, a: Contents) {
    && |b| == |a|
    && forall x :: x in Live(b) ==> x in Live(a) && b[x.0][x.1] == a[x.0][x.1]
  }

  /** Whatever refers to something taken out was taken out too. */
  ghost predicate NoneLeftBehind(w: Wiring, a: Contents, b: Contents) {
    forall x, y :: Refers(w, a, x, y) && y in Live(a) && y !in Live(b) ==> x !in Live(b)
  }

  ghost predicate Shrunk(w: Wiring, a: Contents, b: Contents) {
    Within(b, a) && NoneLeftBehind(w, a, b)
  }

  lemma ShrunkTwice(w: Wiring, a: Contents, b: Contents, c: Contents)
    requires Shrunk(w, a, b) && Shrunk(w, b, c)
    ensures Shrunk(w, a, c)
  {
    forall x, y | Refers(w, a, x, y) && y in Live(a) && y !in Live(c)
      ensures x !in Live(c)
    {
      if y in Live(b) && x in Live(b) {
        assert Refers(w, b, x, y);
      }
    }
  }

  lemma {:induction false} DependsInLarger(w: Wiring, b: Contents, a: Contents, x: Node, root: Node, n: nat)
    requires Within(b, a) && DependsIn(w, b, x, root, n)
    ensures DependsIn(w, a, x, root, n)
    decreases n
  {
    if n > 0 {
      var y :| Refers(w, b, x, y) && DependsIn(w, b, y, root, n - 1);
      assert Refers(w, a, x, y);
      DependsInLarger(w, b, a, y, root, n - 1);
    }
  }

  lemma {:induction false} DependsInOneFurther(w: Wiring, c: Contents, x: Node, y: Node, root: Node, n: nat)
    requires DependsIn(w, c, x, y, n) && Refers(w, c, y, root)
    ensures DependsIn(w, c, x, root, n + 1)
    decreases n
  {
    if n == 0 {
      assert DependsIn(w, c, root, root, 0);
    } else {
      var z :| Refers(w, c, x, z) && DependsIn(w, c, z, y, n - 1);
      DependsInOneFurther(w, c, z, y, root, n - 1);
    }
  }

  lemma DependsFurther(w: Wiring, b: Contents, a: Contents, x: Node, y: Node, root: Node)
    requires Within(b, a) && Depends(w, b, x, y) && Refers(w, a, y, root)
    ensures Depends(w, a, x, root)
  {
    var n: nat :| DependsIn(w, b, x, y, n);
    DependsInLarger(w, b, a, x, y, n);
    DependsInOneFurther(w, a, x, y, root, n);
  }

  lemma {:induction false} DependantsGone(w: Wiring, a: Contents, b: Contents, x: Node, root: Node, n: nat)
    requires Shrunk(w, a, b) && root in Live(a) && root !in Live(b) && DependsIn(w, a, x, root, n)
    ensures x in Live(a) && x !in Live(b)
    decreases n
  {
    if n > 0 {
      var y :| Refers(w, a, x, y) && DependsIn(w, a, y, root, n - 1);
      DependantsGone(w, a, b, y, root, n - 1);
    }
  }

  /** What is left once everything that depends on `root` has been taken out. */
  ghost predicate Cascaded(w: Wiring, a: Contents, b: Contents, root: Node) {
    && Within(b, a)
    && forall x :: x in Live(a) ==> (x in Live(b) <==> !Depends(w, a, x, root))
  }

  lemma ShrunkToDependants(w: Wiring, a: Contents, b: Contents, root: Node)
    requires Shrunk(w, a, b) && root in Live(a) && root !in Live(b)
    requires forall x :: x in Live(a) && x !in Live(b) ==> Depends(w, a, x, root)
    ensures Cascaded(w, a, b, root)
  {
    forall x | x in Live(a) && Depends(w, a, x, root)
      ensures x !in Live(b)
    {
      var n: nat :| DependsIn(w, a, x, root, n);
      DependantsGone(w, a, b, x, root, n);
    }
  }

  // ------------------------------------------------------------------ the two loops

  ghost predicate WithoutItem(a: Contents, b: Contents, me: nat, id: nat) {
    me < |a| && id in a[me] && b == a[me := a[me] - {id}]
  }

  lemma TakeOut(a: Contents, b: Contents, me: nat, id: nat)
    requires WithoutItem(a, b, me, id)
    ensures Within(b, a) && Live(b) == Live(a) - {(me, id)} && Live(b) < Live(a)
  {
    var root: Node := (me, id);
    assert root in Live(a);
  }

  ghost predicate Named(c: Contents, me: nat, key: string, id: nat) {
    me < |c| && exists i :: i in c[me] && RefersTo(c[me][i], key, id)
  }

  /** What `deleteWhere` does to the stores. */
  ghost predicate Swept(w: Wiring, a: Contents, b: Contents, me: nat, key: string, id: nat) {
    && Shrunk(w, a, b)
    && !Named(b, me, key, id)
    && forall x :: x in Live(a) && x !in Live(b) ==> DependsOnNamed(w, a, x, me, key, id)
  }

  ghost predicate DependsOnNamed(w: Wiring, a: Contents, x: Node, me: nat, key: string, id: nat) {
    me < |a| && exists i :: i in a[me] && RefersTo(a[me][i], key, id) && Depends(w, a, x, (me, i))
  }

  /** Delete's loop: `k` of the item's dependents are done. */
  ghost predicate InCascade(w: Wiring, a: Contents, b: Contents, now: Contents, me: nat, id: nat, k: nat) {
    && me < |w| && k <= |w[me]|
    && WithoutItem(a, b, me, id) && Shrunk(w, b, now)
    && (forall x :: x in Live(b) && x !in Live(now) ==> Depends(w, a, x, (me, id)))
    && (forall j :: 0 <= j < k ==> !Named(now, w[me][j].child, w[me][j].key, id))
  }

  lemma StaysUnnamed(b: Contents, a: Contents, me: nat, key: string, id: nat)
    requires Within(b, a) && !Named(a, me, key, id)
    ensures !Named(b, me, key, id)
  {
    if me < |b| {
      forall i | i in b[me]
        ensures !RefersTo(b[me][i], key, id)
      {
        var x: Node := (me, i);
        assert x in Live(b);
      }
    }
  }

  lemma NamedDependsOnRoot(w: Wiring, a: Contents, now: Contents, x: Node, me: nat, id: nat, d: Wire)
    requires me < |w| && d in w[me] && Within(now, a)
    requires DependsOnNamed(w, now, x, d.child, d.key, id)
    ensures Depends(w, a, x, (me, id))
  {
    var i :| i in now[d.child] && RefersTo(now[d.child][i], d.key, id) && Depends(w, now, x, (d.child, i));
    var y: Node := (d.child, i);
    assert y in Live(now);
    assert Refers(w, a, y, (me, id));
    DependsFurther(w, now, a, x, y, (me, id));
  }

  lemma SweepOne(w: Wiring, a: Contents, b: Contents, before: Contents, now: Contents, me: nat, id: nat, k: nat)
    requires InCascade(w, a, b, before, me, id, k) && k < |w[me]|
    requires Swept(w, before, now, w[me][k].child, w[me][k].key, id)
    ensures InCascade(w, a, b, now, me, id, k + 1)
  {
    var d := w[me][k];
    ShrunkTwice(w, b, before, now);
    TakeOut(a, b, me, id);
    forall x | x in Live(b) && x !in Live(now)
      ensures Depends(w, a, x, (me, id))
    {
      if x in Live(before) {
        NamedDependsOnRoot(w, a, before, x, me, id, d);
      }
    }
    forall j | 0 <= j < k
      ensures !Named(now, w[me][j].child, w[me][j].key, id)
    {
      StaysUnnamed(now, before, w[me][j].child, w[me][j].key, id);
    }
  }

  lemma CascadeDone(w: Wiring, a: Contents, b: Contents, now: Contents, me: nat, id: nat)
    requires me < |w| && InCascade(w, a, b, now, me, id, |w[me]|)
    ensures Shrunk(w, a, now) && Cascaded(w, a, now, (me, id))
  {
    var root: Node := (me, id);
    TakeOut(a, b, me, id);
    forall x: Node | x in Live(now)
      ensures !Refers(w, a, x, root)
    {
      forall d | d in w[me] && d.child == x.0
        ensures !RefersTo(a[x.0][x.1], d.key, id)
      {
        var j :| 0 <= j < |w[me]| && w[me][j] == d;
        assert !Named(now, d.child, d.key, id);
      }
    }
    forall x: Node, y: Node | Refers(w, a, x, y) && y in Live(a) && y !in Live(now)
      ensures x !in Live(now)
    {
      if x in Live(now) {
        assert a[x.0][x.1] == now[x.0][x.1];
        assert y != root;
        assert Refers(w, b, x, y);
      }
    }
    assert DependsIn(w, a, root, root, 0);
    ShrunkToDependants(w, a, now, root);
  }

  /** deleteWhere's loop: the items still to delete are `doomed`. */
  ghost predicate InSweep(w: Wiring, a: Contents, now: Contents, me: nat, key: string, id: nat, doomed: set<nat>) {
    && me < |a| && Shrunk(w, a, now)
    && (forall i :: i in a[me] && RefersTo(a[me][i], key, id) && i !in doomed ==> i !in now[me])
    && (forall i :: i in doomed ==> i in a[me] && RefersTo(a[me][i], key, id))
    && (forall x :: x in Live(a) && x !in Live(now) ==> DependsOnNamed(w, a, x, me, key, id))
  }

  lemma SweepStep(w: Wiring, a: Contents, before: Contents, now: Contents, me: nat, key: string, id: nat,
                  doomed: set<nat>, i: nat)
    requires InSweep(w, a, before, me, key, id, doomed) && i in doomed
    requires if i in before[me] then Cascaded(w, before, now, (me, i)) else now == before
    requires Shrunk(w, before, now)
    ensures InSweep(w, a, now, me, key, id, doomed - {i})
  {
    ShrunkTwice(w, a, before, now);
    var target: Node := (me, i);
    assert target in Live(a);
    assert DependsIn(w, before, target, target, 0);
    assert target in Live(before) <==> i in before[me];
    assert target !in Live(now);
    forall x: Node | x in Live(a) && x !in Live(now)
      ensures DependsOnNamed(w, a, x, me, key, id)
    {
      if x in Live(before) {
        var n: nat :| DependsIn(w, before, x, target, n);
        DependsInLarger(w, before, a, x, target, n);
      }
    }
    forall j | j in a[me] && RefersTo(a[me][j], key, id) && j !in doomed - {i}
      ensures j !in now[me]
    {
      var y: Node := (me, j);
      assert y in Live(now) ==> y in Live(before);
    }
  }

  lemma SweepDone(w: Wiring, a: Contents, now: Contents, me: nat, key: string, id: nat)
    requires InSweep(w, a, now, me, key, id, {})
    ensures Swept(w, a, now, me, key, id)
  {
    forall i | i in now[me]
      ensures !RefersTo(now[me][i], key, id)
    {
      var y: Node := (me, i);
      assert y in Live(now);
    }
  }

  // ------------------------------------------------------------------ the class

  datatype Dependent = Dependent(key: string, store: Store)

  ghost function Holds(world: seq<Store>): (c: Contents)
    reads world
    ensures |c| == |world|
  {
    seq(|world|, i requires 0 <= i < |world| reads world => world[i].items)
  }

  /** `world` numbers every store once, and `w` is how they are wired. */
  ghost predicate Wired(world: seq<Store>, w: Wiring)
    reads world
  {
    && |w| == |world|
    && (forall i, j :: 0 <= i < j < |world| ==> world[i] != world[j])
    && (forall i :: 0 <= i < |w| ==> Cascades(world, world[i].dependents, w[i]))
  }

  ghost predicate Cascades(world: seq<Store>, dependents: seq<Dependent>, wires: seq<Wire>) {
    && |wires| == |dependents|
    && forall k :: 0 <= k < |wires| ==>
        wires[k].child < |world| && dependents[k] == Dependent(wires[k].key, world[wires[k].child])
  }

  /** Go's map iteration order is arbitrary. */
  method AnyOf(ids: set<nat>) returns (id: nat)
    requires ids != {}
    ensures id in ids
  {
    id :| id in ids;
  }

  class Store {
    var items: map<nat, Item>
    var next: nat
    var dependents: seq<Dependent>

    /** NewStore */
    constructor ()
      ensures items == map[] && next == 1 && dependents == []
    {
      items, next, dependents := map[], 1, [];
    }

    method CascadeTo(key: string, child: Store)
      modifies this`dependents
      ensures dependents == old(dependents) + [Dependent(key, child)]
    {
      dependents := dependents + [Dependent(key, child)];
    }

    /** The data may overwrite the item's own entries, as in the Go loop. */
    method Create(data: Item, createdAt: string) returns (id: nat)
      modifies this`items, this`next
      ensures id == old(next) && next == old(next) + 1
      ensures items == old(items)[id := map["id" := Integer(id), "created_at" := Other(createdAt)] + data]
    {
      id := next;
      var item := map["id" := Integer(id), "created_at" := Other(createdAt)] + data;
      items := items[id := item];
      next := next + 1;
    }

    method Update(id: nat, data: Item) returns (ok: bool)
      modifies this`items
      ensures ok <==> id in old(items)
      ensures items == if ok then old(items)[id := old(items)[id] + data] else old(items)
    {
      if id !in items { return false; }
      items := items[id := items[id] + data];
      return true;
    }

    /** Removes the item and everything that refers to it, directly or not, and nothing else. */
    method Delete(id: nat, ghost me: nat, ghost world: seq<Store>, ghost w: Wiring) returns (ok: bool)
      requires Wired(world, w) && me < |world| && world[me] == this
      modifies world
      ensures Wired(world, w) && forall s :: s in world ==> s.next == old(s.next)
      ensures ok <==> id in old(items)
      ensures if ok then Cascaded(w, old(Holds(world)), Holds(world), (me, id)) else Holds(world) == old(Holds(world))
      ensures Shrunk(w, old(Holds(world)), Holds(world))
      decreases Live(Holds(world)), 0
    {
      ghost var a := Holds(world);
      ok := id in items;
      if !ok { return; }
      items := items - {id};
      ghost var b := Holds(world);
      TakeOut(a, b, me, id);
      var k := 0;
      while k < |dependents|
        invariant 0 <= k <= |dependents|
        invariant Wired(world, w) && forall s :: s in world ==> s.next == old(s.next)
        invariant InCascade(w, a, b, Holds(world), me, id, k)
      {
        var child := dependents[k];
        ghost var before := Holds(world);
        assert Live(before) <= Live(b) < Live(a);
        child.store.DeleteWhere(child.key, id, w[me][k].child, world, w);
        SweepOne(w, a, b, before, Holds(world), me, id, k);
        k := k + 1;
      }
      CascadeDone(w, a, b, Holds(world), me, id);
    }

    /** Deletes every item whose key refers to `id`, and what depends on those. */
    method DeleteWhere(key: string, id: nat, ghost me: nat, ghost world: seq<Store>, ghost w: Wiring)
      requires Wired(world, w) && me < |world| && world[me] == this
      modifies world
      ensures Wired(world, w) && forall s :: s in world ==> s.next == old(s.next)
      ensures Swept(w, old(Holds(world)), Holds(world), me, key, id)
      decreases Live(Holds(world)), 1
    {
      ghost var a := Holds(world);
      var doomed := set i | i in items && RefersTo(items[i], key, id);
      while doomed != {}
        invariant Wired(world, w) && forall s :: s in world ==> s.next == old(s.next)
        invariant InSweep(w, a, Holds(world), me, key, id, doomed)
        decreases doomed
      {
        var i := AnyOf(doomed);
        ghost var before := Holds(world);
        var _ := Delete(i, me, world, w);
        SweepStep(w, a, before, Holds(world), me, key, id, doomed, i);
        doomed := doomed - {i};
      }
      SweepDone(w, a, Holds(world), me, key, id);
    }
  }
}
