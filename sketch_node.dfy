/** The sketch tree: nodes with a position, a radius and owned children,
    and the pre-order traversal (forEachNode / forEachConstNode) that both
    intersection and rendering walk. The parent back-link of a node is not
    stored: each step of the traversal carries the node's parent instead. */
module SketchNodes {
  import opened Options
  import opened Geometry

  /** A SketchNode and, by value, the subtree it owns. */
  datatype Node = Node(position: Vec3, radius: real, children: seq<Node>)

  /** One step of a traversal: the node and its parent (None at the root). */
  datatype Visit = Visit(node: Node, parent: Option<Node>)

  /** The visits of the subtree rooted at t, parent before children,
      children left to right. */
  function PreOrder(t: Node, parent: Option<Node>): seq<Visit>
    decreases t, 1
  {
    [Visit(t, parent)] + ChildrenPreOrder(t.children, t)
  }

  /** The visits of the subtrees cs, one after the other, each child's
      parent being `parent`. */
  function ChildrenPreOrder(cs: seq<Node>, parent: Node): seq<Visit>
    decreases cs, 0
  {
    if cs == [] then [] else PreOrder(cs[0], Some(parent)) + ChildrenPreOrder(cs[1..], parent)
  }

  /** Number of nodes in the subtree rooted at t. */
  function Size(t: Node): nat
    decreases t, 1
  {
    1 + SizeAll(t.children)
  }

  function SizeAll(cs: seq<Node>): nat
    decreases cs, 0
  {
    if cs == [] then 0 else Size(cs[0]) + SizeAll(cs[1..])
  }

  /** n is a node of the subtree rooted at t. */
  predicate InTree(n: Node, t: Node)
    decreases t, 1
  {
    n == t || InForest(n, t.children)
  }

  predicate InForest(n: Node, cs: seq<Node>)
    decreases cs, 0
  {
    cs != [] && (InTree(n, cs[0]) || InForest(n, cs[1..]))
  }

  /** The visit's parent exists and owns the visited node. */
  predicate Linked(v: Visit) {
    v.parent.Some? && v.node in v.parent.value.children
  }

  /** The traversal visits each node exactly once: as many visits as nodes. */
  lemma {:induction false} PreOrderSize(t: Node, parent: Option<Node>)
    ensures |PreOrder(t, parent)| == Size(t)
    decreases t, 1
  {
    ChildrenPreOrderSize(t.children, t);
  }

  lemma {:induction false} ChildrenPreOrderSize(cs: seq<Node>, parent: Node)
    ensures |ChildrenPreOrder(cs, parent)| == SizeAll(cs)
    decreases cs, 0
  {
    if cs != [] {
      PreOrderSize(cs[0], Some(parent));
      ChildrenPreOrderSize(cs[1..], parent);
    }
  }

  /** The traversal reaches a node exactly when it belongs to the tree. */
  lemma {:induction false} PreOrderCovers(t: Node, parent: Option<Node>, n: Node)
    ensures (exists v :: v in PreOrder(t, parent) && v.node == n) <==> InTree(n, t)
    decreases t, 1
  {
    ChildrenPreOrderCovers(t.children, t, n);
    var vs := PreOrder(t, parent);
    assert vs[0] == Visit(t, parent);
    if InTree(n, t) && n != t {
      var w :| w in ChildrenPreOrder(t.children, t) && w.node == n;
      assert w in vs;
    }
  }

  lemma {:induction false} ChildrenPreOrderCovers(cs: seq<Node>, parent: Node, n: Node)
    ensures (exists v :: v in ChildrenPreOrder(cs, parent) && v.node == n) <==> InForest(n, cs)
    decreases cs, 0
  {
    if cs != [] {
      PreOrderCovers(cs[0], Some(parent), n);
      ChildrenPreOrderCovers(cs[1..], parent, n);
      var head, tail := PreOrder(cs[0], Some(parent)), ChildrenPreOrder(cs[1..], parent);
      assert ChildrenPreOrder(cs, parent) == head + tail;
      if InTree(n, cs[0]) {
        var w :| w in head && w.node == n;
        assert w in head + tail;
      } else if InForest(n, cs[1..]) {
        var w :| w in tail && w.node == n;
        assert w in head + tail;
      }
    }
  }

  /** The traversal starts at t with the given parent, and every later visit
      names the parent that owns the visited node. */
  lemma {:induction false} PreOrderParents(t: Node, parent: Option<Node>)
    ensures PreOrder(t, parent)[0] == Visit(t, parent)
    ensures forall i :: 1 <= i < |PreOrder(t, parent)| ==> Linked(PreOrder(t, parent)[i])
    decreases t, 1
  {
    ChildrenPreOrderParents(t.children, t);
    var vs := PreOrder(t, parent);
    forall i | 1 <= i < |vs|
      ensures Linked(vs[i])
    {
      assert vs[i] in ChildrenPreOrder(t.children, t);
    }
  }

  lemma {:induction false} ChildrenPreOrderParents(cs: seq<Node>, parent: Node)
    requires forall c :: c in cs ==> c in parent.children
    ensures forall v :: v in ChildrenPreOrder(cs, parent) ==> Linked(v)
    decreases cs, 0
  {
    if cs != [] {
      PreOrderParents(cs[0], Some(parent));
      ChildrenPreOrderParents(cs[1..], parent);
      var head := PreOrder(cs[0], Some(parent));
      forall v | v in head
        ensures Linked(v)
      {
        var i :| 0 <= i < |head| && head[i] == v;
        if i == 0 {
          assert cs[0] in parent.children;
        }
      }
    }
  }

  /** In a traversal from a root, the root is the one visit without a parent. */
  lemma RootIsOnlyOrphan(t: Node)
    ensures forall i :: 0 <= i < |PreOrder(t, None)| ==>
      (PreOrder(t, None)[i].parent.None? <==> i == 0)
  {
    PreOrderParents(t, None);
  }
}
