/** Which items go with a deleted one, in terms of the references that the items hold. */
module GoReferences {
  import opened GoStore
  import opened GoService

  /** One of the item's references holds the other's id. */
  ghost predicate HoldsIdOf(refs: seq<seq<Reference>>, c: Contents, x: Node, y: Node) {
    && x.0 < |c| && x.1 in c[x.0] && x.0 < |refs|
    && exists r :: r in refs[x.0] && r.parent == y.0 && r.key in c[x.0][x.1] && c[x.0][x.1][r.key] == Integer(y.1)
  }

  /** A deletion reaches an item directly exactly if one of the item's references holds the deleted id. */
  lemma ReferringIs(w: Wiring, refs: seq<seq<Reference>>, c: Contents, x: Node, y: Node)
    requires Matches(w, refs) && |refs| == |c|
    ensures Refers(w, c, x, y) <==> HoldsIdOf(refs, c, x, y)
  {
    if HoldsIdOf(refs, c, x, y) {
      var r :| r in refs[x.0] && r.parent == y.0 && r.key in c[x.0][x.1] && c[x.0][x.1][r.key] == Integer(y.1);
      assert Wire(r.key, x.0) in w[y.0];
    }
    if Refers(w, c, x, y) {
      var d :| d in w[y.0] && d.child == x.0 && RefersTo(c[x.0][x.1], d.key, y.1);
      assert Reference(d.key, y.0) in refs[x.0];
    }
  }

  /** Each of these items holds the id of the next. */
  ghost predicate Chain(refs: seq<seq<Reference>>, c: Contents, nodes: seq<Node>) {
    nodes != [] && forall i :: 0 <= i < |nodes| - 1 ==> HoldsIdOf(refs, c, nodes[i], nodes[i + 1])
  }

  ghost predicate ChainBetween(refs: seq<seq<Reference>>, c: Contents, x: Node, root: Node, nodes: seq<Node>) {
    Chain(refs, c, nodes) && nodes[0] == x && nodes[|nodes| - 1] == root
  }

  /** A deletion takes along exactly the items that a chain of references leads from to the deleted one. */
  lemma DependsByChain(w: Wiring, refs: seq<seq<Reference>>, c: Contents, x: Node, root: Node)
    requires Matches(w, refs) && |refs| == |c|
    ensures Depends(w, c, x, root) <==> exists nodes :: ChainBetween(refs, c, x, root, nodes)
  {
    if Depends(w, c, x, root) {
      var n: nat :| DependsIn(w, c, x, root, n);
      var _ := ChainOf(w, refs, c, x, root, n);
    }
    if nodes :| ChainBetween(refs, c, x, root, nodes) {
      ChainDepends(w, refs, c, nodes);
      var n: nat := |nodes| - 1;
      assert DependsIn(w, c, x, root, n);
    }
  }

  lemma {:induction false} ChainOf(w: Wiring, refs: seq<seq<Reference>>, c: Contents, x: Node, root: Node, n: nat)
    returns (nodes: seq<Node>)
    requires Matches(w, refs) && |refs| == |c| && DependsIn(w, c, x, root, n)
    ensures ChainBetween(refs, c, x, root, nodes)
    decreases n
  {
    nodes := [x];
    if n > 0 {
      var y :| Refers(w, c, x, y) && DependsIn(w, c, y, root, n - 1);
      var rest := ChainOf(w, refs, c, y, root, n - 1);
      ReferringIs(w, refs, c, x, y);
      nodes := [x] + rest;
      assert forall i :: 1 <= i < |nodes| ==> nodes[i] == rest[i - 1];
    }
  }

  lemma {:induction false} ChainDepends(w: Wiring, refs: seq<seq<Reference>>, c: Contents, nodes: seq<Node>)
    requires Matches(w, refs) && |refs| == |c| && Chain(refs, c, nodes)
    ensures DependsIn(w, c, nodes[0], nodes[|nodes| - 1], |nodes| - 1)
    decreases |nodes|
  {
    if |nodes| > 1 {
      var rest := nodes[1..];
      assert forall i :: 0 <= i < |rest| ==> rest[i] == nodes[i + 1];
      ChainDepends(w, refs, c, rest);
      assert HoldsIdOf(refs, c, nodes[0], nodes[1]);
      ReferringIs(w, refs, c, nodes[0], nodes[1]);
    }
  }
}
