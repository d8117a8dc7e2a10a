// Counting in a forest that grows by appending nodes: leaves, roots and branching.
module Forests {
  import opened Wrappers

  // `tree` names the tree a node belongs to; a parent is an earlier node.
  datatype Node = Node(tree: nat, parent: Option<nat>)

  predicate IsForest(ns: seq<Node>) {
    forall i :: 0 <= i < |ns| && ns[i].parent.Some? ==>
                  ns[i].parent.value < i && ns[ns[i].parent.value].tree == ns[i].tree
  }

  function Children(ns: seq<Node>, p: nat): nat {
    if ns == [] then 0
    else Children(ns[..|ns| - 1], p) + (if ns[|ns| - 1].parent == Some(p) then 1 else 0)
  }

  function Roots(ns: seq<Node>, tree: nat): nat {
    if ns == [] then 0
    else Roots(ns[..|ns| - 1], tree) + (if ns[|ns| - 1] == Node(tree, None) then 1 else 0)
  }

  // Leaves and Branching look at the first n nodes but count children in all of ns.

  /** How many of the first n nodes belong to `tree` and have no child. */
  function Leaves(ns: seq<Node>, tree: nat, n: nat): nat
    requires n <= |ns|
  {
    if n == 0 then 0
    else Leaves(ns, tree, n - 1) + (if ns[n - 1].tree == tree && Children(ns, n - 1) == 0 then 1 else 0)
  }

  /** Sum of (children - 1) over those of the first n nodes of `tree` that have a child. */
  function Branching(ns: seq<Node>, tree: nat, n: nat): nat
    requires n <= |ns|
  {
    if n == 0 then 0
    else Branching(ns, tree, n - 1)
         + (if ns[n - 1].tree == tree && Children(ns, n - 1) > 0 then Children(ns, n - 1) - 1 else 0)
  }

  lemma {:induction false} NoChildYet(ns: seq<Node>, p: nat)
    requires IsForest(ns) && p >= |ns|
    ensures Children(ns, p) == 0
  {
    if ns != [] { NoChildYet(ns[..|ns| - 1], p); }
  }

  /** Appending a node changes the counts over the old nodes only through its parent. */
  lemma {:induction false} AppendShift(ns: seq<Node>, node: Node, tree: nat, n: nat)
    requires n <= |ns| && IsForest(ns + [node])
    ensures var inside := node.parent.Some? && node.parent.value < n && node.tree == tree;
            var firstChild := inside && Children(ns, node.parent.value) == 0;
            && Leaves(ns + [node], tree, n) == Leaves(ns, tree, n) - (if firstChild then 1 else 0)
            && Branching(ns + [node], tree, n) == Branching(ns, tree, n) + (if inside && !firstChild then 1 else 0)
  {
    var ms := ns + [node];
    if n > 0 {
      AppendShift(ns, node, tree, n - 1);
      assert ms[..|ns|] == ns;
      assert ms[|ns|] == node;
      assert ms[n - 1] == ns[n - 1];
      assert Children(ms, n - 1) == Children(ns, n - 1) + (if node.parent == Some(n - 1 as nat) then 1 else 0);
    }
  }

  /** In any forest, a tree has as many leaves as roots plus branching. */
  lemma {:induction false} LeafCount(ns: seq<Node>, tree: nat)
    requires IsForest(ns)
    ensures Leaves(ns, tree, |ns|) == Roots(ns, tree) + Branching(ns, tree, |ns|)
  {
    if ns != [] {
      var n := |ns| - 1;
      var before, node := ns[..n], ns[n];
      assert before + [node] == ns;
      LeafCount(before, tree);
      AppendShift(before, node, tree, n);
      NoChildYet(before, n);
      assert Children(ns, n) == 0;
    }
  }
}
