/** The handlers of the generated Go service over their stores: create, update and delete, one at a
    time. Models what `render_handlers`, `render_models` and `render_validation` emit
    (src/autoswe/llm/offline/templates_go.py). */
module GoService {
  import opened GoStore
  import opened Options

  /** A many-to-one link: `key` holds the id of an item in store number `parent`. */
  datatype Reference = Reference(key: string, parent: nat)

  const MAX_EXACT := 0x20_0000_0000_0000

  datatype FieldSpec = FieldSpec(name: string, accepts: Value -> bool, required: bool)

  predicate AcceptsInteger(v: Value) {
    v.Integer? && -MAX_EXACT < v.n < MAX_EXACT
  }

  // ------------------------------------------------------------------ validation

  predicate Problem(field: FieldSpec, body: Item, patch: bool) {
    if field.name !in body then field.required && !patch
    else !(body[field.name] == Null && !field.required) && !field.accepts(body[field.name])
  }

  ghost predicate Acceptable(fields: seq<FieldSpec>, body: Item, patch: bool) {
    && (forall key :: key in body ==> exists i :: 0 <= i < |fields| && fields[i].name == key)
    && (forall i :: 0 <= i < |fields| ==> !Problem(fields[i], body, patch))
  }

  /** In words: nothing undeclared; a required field is there, unless the body is a patch; what is there has the
      field's type, or is null for a field that is not required. */
  lemma AcceptableMeans(fields: seq<FieldSpec>, body: Item, patch: bool)
    ensures Acceptable(fields, body, patch) <==>
      && (forall key :: key in body ==> exists f :: f in fields && f.name == key)
      && (forall f :: f in fields && f.required && f.name !in body ==> patch)
      && (forall f :: f in fields && f.name in body ==>
            f.accepts(body[f.name]) || (body[f.name] == Null && !f.required))
  {
    forall f ensures f in fields <==> exists i :: 0 <= i < |fields| && fields[i] == f {}
    if Acceptable(fields, body, patch) {
      forall key | key in body ensures exists f :: f in fields && f.name == key {
        var i :| 0 <= i < |fields| && fields[i].name == key;
        assert fields[i] in fields;
      }
    } else if forall key :: key in body ==> exists f :: f in fields && f.name == key {
      forall key | key in body ensures exists i :: 0 <= i < |fields| && fields[i].name == key {
        var f :| f in fields && f.name == key;
        var i :| 0 <= i < |fields| && fields[i] == f;
      }
      var i :| 0 <= i < |fields| && Problem(fields[i], body, patch);
      assert fields[i] in fields;
    }
  }

  /** Integers that a double holds exactly, and nothing else. */
  lemma IntegersAccepted(v: Value)
    ensures AcceptsInteger(v) <==> v.Integer? && -9007199254740991 <= v.n <= 9007199254740991
  {
  }

  ghost predicate RequiresInteger(specs: seq<FieldSpec>, key: string) {
    exists i :: 0 <= i < |specs| && specs[i].name == key && specs[i].required && specs[i].accepts == AcceptsInteger
  }

  /** References to stores before number `n`, through required integer fields. */
  ghost predicate Linkable(specs: seq<FieldSpec>, refs: seq<Reference>, n: nat) {
    forall r :: r in refs ==> r.parent < n && RequiresInteger(specs, r.key)
  }

  /** Every reference's key is declared as a required integer field. */
  ghost predicate KeysChecked(fields: seq<seq<FieldSpec>>, refs: seq<seq<Reference>>) {
    && |fields| == |refs|
    && forall s, r :: 0 <= s < |refs| && r in refs[s] ==> RequiresInteger(fields[s], r.key)
  }

  /** The copied data is the body itself whenever there is no problem. */
  method Validate(fields: seq<FieldSpec>, body: Item, patch: bool) returns (ok: bool, data: Item)
    ensures ok <==> Acceptable(fields, body, patch)
    ensures ok ==> data == body
  {
    var known := set i | 0 <= i < |fields| :: fields[i].name;
    ok := body.Keys <= known;
    data := map[];
    for i := 0 to |fields|
      invariant ok <==> body.Keys <= known && forall j :: 0 <= j < i ==> !Problem(fields[j], body, patch)
      invariant ok ==> forall k :: k in data ==> k in body && data[k] == body[k]
      invariant ok ==> forall j :: 0 <= j < i && fields[j].name in body ==> fields[j].name in data
    {
      var field := fields[i];
      if Problem(field, body, patch) {
        ok := false;
      } else if field.name in body {
        data := data[field.name := body[field.name]];
      }
    }
    if ok {
      assert forall k :: k in body ==> k in known;
      assert data == body;
    }
  }

  // ------------------------------------------------------------------ integrity

  /** Every reference of every item names an existing item. */
  ghost predicate Sound(refs: seq<seq<Reference>>, c: Contents) {
    && |refs| == |c|
    && forall s: nat, i: nat, r :: s < |c| && i in c[s] && r in refs[s] ==> Names(c, c[s][i], r)
  }

  ghost predicate Names(c: Contents, item: Item, r: Reference) {
    && r.key in item && item[r.key].Integer? && item[r.key].n >= 0
    && r.parent < |c| && (item[r.key].n as nat) in c[r.parent]
  }

  /** Each store cascades to exactly the stores that refer to it, which come later. */
  ghost predicate Matches(w: Wiring, refs: seq<seq<Reference>>) {
    && |w| == |refs|
    && (forall p: nat, d :: p < |w| && d in w[p] ==>
          p < d.child < |refs| && Reference(d.key, p) in refs[d.child])
    && (forall s: nat, r :: s < |refs| && r in refs[s] ==>
          r.parent < s && Wire(r.key, s) in w[r.parent])
  }

  /** What a cascade leaves is sound again. */
  lemma CascadeKeepsSound(w: Wiring, refs: seq<seq<Reference>>, a: Contents, b: Contents)
    requires Matches(w, refs) && Sound(refs, a) && Shrunk(w, a, b)
    ensures Sound(refs, b)
  {
    forall s: nat, i: nat, r | s < |b| && i in b[s] && r in refs[s]
      ensures Names(b, b[s][i], r)
    {
      var x: Node := (s, i);
      assert x in Live(b);
      assert Names(a, a[s][i], r);
      var y: Node := (r.parent, a[s][i][r.key].n as nat);
      assert y in Live(a);
      assert Wire(r.key, s) in w[r.parent];
      assert Refers(w, a, x, y);
      assert y in Live(b);
    }
  }

  function Put(c: Contents, s: nat, id: nat, item: Item): Contents
    requires s < |c|
  {
    var items: map<nat, Item> := c[s][id := item];
    c[s := items]
  }

  /** Storing an item whose references exist keeps every store sound. */
  lemma StoringKeepsSound(refs: seq<seq<Reference>>, a: Contents, s: nat, id: nat, item: Item)
    requires Sound(refs, a) && s < |a|
    requires forall r :: r in refs[s] ==> Names(a, item, r)
    ensures Sound(refs, Put(a, s, id, item))
  {
    var b := Put(a, s, id, item);
    forall t: nat, i: nat, r | t < |b| && i in b[t] && r in refs[t]
      ensures Names(b, b[t][i], r)
    {
      if t == s && i == id {
        assert Names(a, item, r);
      } else {
        assert b[t][i] == a[t][i];
        assert Names(a, a[t][i], r);
      }
    }
  }

  /** So does merging data whose references exist into an item. */
  lemma MergingKeepsSound(refs: seq<seq<Reference>>, a: Contents, me: nat, id: nat, data: Item)
    requires Sound(refs, a) && me < |a| && id in a[me]
    requires forall r :: r in refs[me] && r.key in data ==> Names(a, data, r)
    ensures Sound(refs, Put(a, me, id, a[me][id] + data))
  {
    forall r | r in refs[me]
      ensures Names(a, a[me][id] + data, r)
    {
      assert Names(a, a[me][id], r);
      if r.key in data { assert Names(a, data, r); }
    }
    StoringKeepsSound(refs, a, me, id, a[me][id] + data);
  }

  lemma AppendEmptyStore(w: Wiring, refs: seq<seq<Reference>>, c: Contents)
    requires Matches(w, refs) && Sound(refs, c)
    ensures Matches(w + [[]], refs + [[]]) && Sound(refs + [[]], c + [map[]])
  {
    var refs': seq<seq<Reference>> := refs + [[]];
    var c': Contents := c + [map[]];
    forall s: nat, i: nat, q: Reference | s < |c'| && i in c'[s] && q in refs'[s]
      ensures Names(c', c'[s][i], q)
    {
      assert Names(c, c[s][i], q);
    }
  }

  /** Declaring a reference of a still empty, newest store. */
  lemma DeclareReference(w: Wiring, refs: seq<seq<Reference>>, c: Contents, r: Reference, me: nat,
                         w': Wiring, refs': seq<seq<Reference>>)
    requires Matches(w, refs) && Sound(refs, c) && |refs| == me + 1 && c[me] == map[]
    requires r.parent < me
    requires refs' == refs[me := refs[me] + [r]]
    requires w' == w[r.parent := w[r.parent] + [Wire(r.key, me)]]
    ensures Matches(w', refs') && Sound(refs', c)
  {
    forall p: nat, d: Wire | p < |w'| && d in w'[p]
      ensures p < d.child < |refs'| && Reference(d.key, p) in refs'[d.child]
    {
      if d in w[p] {
        assert Reference(d.key, p) in refs[d.child];
      }
    }
    forall s: nat, q: Reference | s < |refs'| && q in refs'[s]
      ensures q.parent < s && Wire(q.key, s) in w'[q.parent]
    {
      if q in refs[s] {
        assert Wire(q.key, s) in w[q.parent];
      }
    }
    forall s: nat, i: nat, q: Reference | s < |c| && i in c[s] && q in refs'[s]
      ensures Names(c, c[s][i], q)
    {
      assert q in refs[s];
    }
  }

  lemma KeysStayChecked(fields: seq<seq<FieldSpec>>, refs: seq<seq<Reference>>, me: nat, r: Reference)
    requires KeysChecked(fields, refs) && me < |refs| && RequiresInteger(fields[me], r.key)
    ensures KeysChecked(fields, refs[me := refs[me] + [r]])
  {
    var refs' := refs[me := refs[me] + [r]];
    forall s: nat, q: Reference | s < |refs'| && q in refs'[s]
      ensures RequiresInteger(fields[s], q.key)
    {
      assert q in refs[s] || (s == me && q == r);
    }
  }

  lemma CascadesOneMore(world: seq<Store>, dependents: seq<Dependent>, wires: seq<Wire>, key: string, child: nat)
    requires Cascades(world, dependents, wires) && child < |world|
    ensures Cascades(world, dependents + [Dependent(key, world[child])], wires + [Wire(key, child)])
  {
  }

  lemma PrefixDeclared(refs: seq<seq<Reference>>, all: seq<Reference>, me: nat, k: nat)
    requires me < |refs| && k < |all| && refs[me] == all[..k]
    ensures refs[me := refs[me] + [all[k]]] == refs[me := all[..k + 1]]
  {
    assert all[..k + 1] == all[..k] + [all[k]];
  }

  lemma LinkableAt(specs: seq<FieldSpec>, refs: seq<Reference>, n: nat, k: nat)
    requires Linkable(specs, refs, n) && k < |refs|
    ensures refs[k].parent < n && RequiresInteger(specs, refs[k].key)
  {
    assert refs[k] in refs;
  }

  /** An item that depends on another depends on it through existing parents only: deleting a
      childless item removes just that item. */
  lemma LeafDeletesAlone(w: Wiring, a: Contents, b: Contents, root: Node)
    requires Cascaded(w, a, b, root) && root in Live(a)
    requires forall x :: x in Live(a) ==> !Refers(w, a, x, root)
    ensures Live(b) == Live(a) - {root}
  {
    assert DependsIn(w, a, root, root, 0);
    forall x | x in Live(a) && x != root
      ensures !Depends(w, a, x, root)
    {
      if Depends(w, a, x, root) {
        var n: nat :| DependsIn(w, a, x, root, n);
        LastStep(w, a, x, root, n);
      }
    }
  }

  lemma {:induction false} LastStep(w: Wiring, c: Contents, x: Node, root: Node, n: nat)
    requires DependsIn(w, c, x, root, n) && x != root
    ensures exists y :: y in Live(c) && Refers(w, c, y, root)
    decreases n
  {
    var y :| Refers(w, c, x, y) && DependsIn(w, c, y, root, n - 1);
    if y != root { LastStep(w, c, y, root, n - 1); }
  }

  // ------------------------------------------------------------------ the service

  datatype Outcome = Done(id: nat) | Unprocessable | NotFound

  class Service {
    var stores: seq<Store>
    var fields: seq<seq<FieldSpec>>
    var references: seq<seq<Reference>>
    ghost var wiring: Wiring

    ghost predicate Valid()
      reads this, stores
    {
      && |fields| == |references| == |stores|
      && Wired(stores, wiring)
      && Matches(wiring, references)
      && Sound(references, Holds(stores))
      && IdsBelowNext(stores)
      && KeysChecked(fields, references)
    }

    /** Every id in use was handed out before, so the next one is new. */
    static ghost predicate IdsBelowNext(stores: seq<Store>)
      reads stores
    {
      forall s :: 0 <= s < |stores| ==>
        1 <= stores[s].next && forall i :: i in stores[s].items ==> 1 <= i < stores[s].next
    }

    constructor ()
      ensures Valid() && stores == []
    {
      stores, fields, references, wiring := [], [], [], [];
    }

    // ---------------------------------------------------------------- newResource

    /** Adds one entity's store; its references must lead to stores that already exist. */
    method NewResource(specs: seq<FieldSpec>, refs: seq<Reference>)
      requires Valid()
      requires Linkable(specs, refs, |stores|)
      modifies this, stores
      ensures Valid()
      ensures |stores| == old(|stores|) + 1 && stores[..old(|stores|)] == old(stores) && fresh(stores[old(|stores|)])
      ensures references == old(references) + [refs] && fields == old(fields) + [specs]
      ensures Holds(stores) == old(Holds(stores)) + [map[]]
      ensures forall s :: s in old(stores) ==> s.next == old(s.next)
    {
      AddStore(specs);
      assert stores[|stores| - 1].items == Holds(stores)[|stores| - 1];
      AddReferences(refs);
    }

    method AddReferences(refs: seq<Reference>)
      requires Valid() && |stores| > 0 && stores[|stores| - 1].items == map[] && references[|stores| - 1] == []
      requires Linkable(fields[|stores| - 1], refs, |stores| - 1)
      modifies this`references, this`wiring, stores`dependents
      ensures Valid() && references == old(references)[|stores| - 1 := refs]
    {
      var me, k := |stores| - 1, 0;
      while k < |refs|
        invariant 0 <= k <= |refs| && Valid()
        invariant references == old(references)[me := refs[..k]]
      {
        AddNext(refs, k);
        k := k + 1;
      }
      assert refs[..k] == refs;
    }

    method AddNext(refs: seq<Reference>, k: nat)
      requires Valid() && |stores| > 0 && stores[|stores| - 1].items == map[] && k < |refs|
      requires Linkable(fields[|stores| - 1], refs, |stores| - 1) && references[|stores| - 1] == refs[..k]
      modifies this`references, this`wiring, stores`dependents
      ensures Valid() && references == old(references)[|stores| - 1 := refs[..k + 1]]
    {
      LinkableAt(fields[|stores| - 1], refs, |stores| - 1, k);
      PrefixDeclared(references, refs, |stores| - 1, k);
      AddReference(refs[k], stores[refs[k].parent]);
    }

    method AddStore(specs: seq<FieldSpec>)
      requires Valid()
      modifies this
      ensures Valid()
      ensures |stores| == old(|stores|) + 1 && stores[..old(|stores|)] == old(stores) && fresh(stores[old(|stores|)])
      ensures references == old(references) + [[]] && fields == old(fields) + [specs]
      ensures Holds(stores) == old(Holds(stores)) + [map[]]
    {
      ghost var before := Holds(stores);
      AppendEmptyStore(wiring, references, before);
      var child := new Store();
      stores, fields, references, wiring := stores + [child], fields + [specs], references + [[]], wiring + [[]];
      assert Holds(stores) == before + [map[]];
    }

    method AddReference(r: Reference, parent: Store)
      requires Valid() && |stores| > 0 && stores[|stores| - 1].items == map[]
      requires r.parent < |stores| - 1 && parent == stores[r.parent]
      requires RequiresInteger(fields[|stores| - 1], r.key)
      modifies this`references, this`wiring, parent`dependents
      ensures Valid()
      ensures references == old(references)[|stores| - 1 := old(references)[|stores| - 1] + [r]]
    {
      var me := |stores| - 1;
      ghost var before, w, refs := Holds(stores), wiring, references;
      parent.CascadeTo(r.key, stores[me]);
      wiring := w[r.parent := w[r.parent] + [Wire(r.key, me)]];
      references := references[me := references[me] + [r]];
      assert Holds(stores) == before;
      DeclareReference(w, refs, before, r, me, wiring, references);
      assert Wired(stores, wiring) by {
        forall i | 0 <= i < |stores|
          ensures Cascades(stores, stores[i].dependents, wiring[i])
        {
          assert old(Cascades(stores, stores[i].dependents, wiring[i]));
          if i == r.parent {
            CascadesOneMore(stores, old(parent.dependents), w[i], r.key, me);
          } else {
            assert stores[i] != parent;
          }
        }
      }
      KeysStayChecked(fields, refs, me, r);
    }

    // ---------------------------------------------------------------- handlers

    /** Whether some reference in the data names an item that is not there. */
    method MissingParent(me: nat, data: Item) returns (missing: bool)
      requires Valid() && me < |stores|
      ensures missing <==>
        exists r :: r in references[me] && r.key in data && data[r.key].Integer? && !Names(Holds(stores), data, r)
    {
      missing := false;
      var refs := references[me];
      for k := 0 to |refs|
        invariant !missing
        invariant forall j :: 0 <= j < k ==>
          (refs[j].key in data && data[refs[j].key].Integer? ==> Names(Holds(stores), data, refs[j]))
      {
        var r := refs[k];
        if r.key in data && data[r.key].Integer? {
          var n := data[r.key].n;
          if n < 0 || (n as nat) !in stores[r.parent].items {
            assert r in references[me];
            return true;
          }
        }
      }
    }

    method Create(me: nat, body: Item, createdAt: string) returns (outcome: Outcome)
      requires Valid() && me < |stores|
      modifies stores
      ensures Valid()
      ensures match outcome
        case Done(id) =>
          && id == old(stores[me].next) && id !in old(stores[me].items) && stores[me].next == id + 1
          && Holds(stores) == Put(old(Holds(stores)), me, id,
              map["id" := Integer(id), "created_at" := Other(createdAt)] + body)
        case _ => Holds(stores) == old(Holds(stores)) && stores[me].next == old(stores[me].next)
      ensures outcome.Done? <==>
        && Acceptable(fields[me], body, false)
        && forall r :: r in references[me] ==> Names(old(Holds(stores)), body, r)
      ensures forall s :: s in stores && s != stores[me] ==> s.next == old(s.next)
    {
      var ok, data := Validate(fields[me], body, false);
      if !ok { return Unprocessable; }
      ghost var a := Holds(stores);
      KeysAreIntegers(fields[me], body, me, false);
      var missing := MissingParent(me, data);
      if missing { return Unprocessable; }
      ghost var item: Item := map["id" := Integer(stores[me].next), "created_at" := Other(createdAt)] + data;
      forall r | r in references[me]
        ensures Names(a, item, r)
      {
        assert Names(a, data, r);
      }
      StoringKeepsSound(references, a, me, stores[me].next, item);
      var id := stores[me].Create(data, createdAt);
      assert Holds(stores) == Put(a, me, id, item);
      return Done(id);
    }

    lemma KeysAreIntegers(specs: seq<FieldSpec>, body: Item, me: nat, patch: bool)
      requires Valid() && me < |stores| && specs == fields[me] && Acceptable(specs, body, patch)
      ensures forall r :: r in references[me] ==>
        (if r.key in body then body[r.key].Integer? else patch)
    {
      forall r | r in references[me]
        ensures if r.key in body then body[r.key].Integer? else patch
      {
        var i :| 0 <= i < |specs| && specs[i].name == r.key && specs[i].required && specs[i].accepts == AcceptsInteger;
        assert !Problem(specs[i], body, patch);
      }
    }

    /** `path` is the id in the request's path as `ParseInt` reads it; it is looked at before the body. */
    method Update(me: nat, path: Option<int>, body: Item) returns (outcome: Outcome)
      requires Valid() && me < |stores|
      modifies stores
      ensures Valid() && forall s :: s in stores ==> s.next == old(s.next)
      ensures match outcome
        case Done(id) => path == Some(id) && id in old(stores[me].items) &&
          Holds(stores) == Put(old(Holds(stores)), me, id, old(stores[me].items)[id] + body)
        case _ => Holds(stores) == old(Holds(stores))
      ensures outcome.Done? <==>
        && path.Some? && path.value >= 1 && Acceptable(fields[me], body, true) && path.value in old(stores[me].items)
        && forall r :: r in references[me] && r.key in body ==> Names(old(Holds(stores)), body, r)
      ensures outcome.NotFound? <==>
        path.None? || path.value < 1 || (Acceptable(fields[me], body, true) && path.value !in old(stores[me].items))
    {
      if path.None? || path.value < 1 { return NotFound; }
      var id: nat := path.value;
      var ok, data := Validate(fields[me], body, true);
      if !ok { return Unprocessable; }
      if id !in stores[me].items { return NotFound; }
      ghost var a := Holds(stores);
      var missing := MissingParent(me, data);
      if missing { return Unprocessable; }
      KeysAreIntegers(fields[me], body, me, true);
      MergingKeepsSound(references, a, me, id, data);
      var _ := stores[me].Update(id, data);
      assert Holds(stores) == Put(a, me, id, a[me][id] + data);
      return Done(id);
    }

    /** Deletes the item with everything that depends on it; all the rest stays as it was. */
    method Delete(me: nat, path: Option<int>) returns (outcome: Outcome)
      requires Valid() && me < |stores|
      modifies stores
      ensures Valid() && forall s :: s in stores ==> s.next == old(s.next)
      ensures if path.Some? && path.value >= 1 && path.value in old(stores[me].items)
        then outcome == Done(path.value) && Cascaded(wiring, old(Holds(stores)), Holds(stores), (me, path.value))
        else outcome == NotFound && Holds(stores) == old(Holds(stores))
    {
      if path.None? || path.value < 1 { return NotFound; }
      var id: nat := path.value;
      ghost var a := Holds(stores);
      var found := stores[me].Delete(id, me, stores, wiring);
      CascadeKeepsSound(wiring, references, a, Holds(stores));
      forall s | 0 <= s < |stores|
        ensures 1 <= stores[s].next && forall i :: i in stores[s].items ==> 1 <= i < stores[s].next
      {
        forall i | i in stores[s].items
          ensures i in a[s]
        {
          var x: Node := (s, i);
          assert x in Live(Holds(stores));
        }
      }
      return if found then Done(id) else NotFound;
    }
  }
}
