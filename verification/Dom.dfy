/** An optional value: JavaScript's `undefined`, `null` or `false` against a real value. */
module Wrappers {
  datatype Option<+T> = None | Some(value: T)
}

/**
  The part of a document that the selector engine reads. The engine never changes the tree, so a
  document is a value; a node is the path of child indexes that leads to it from the root, and two
  nodes are the same object exactly when their paths are equal.
 */
module Dom {
  import opened Wrappers

  /** `passes` holds the simple selectors (tag, class, attribute, pseudo-class...) that the node satisfies. */
  datatype Tree = Tree(isElement: bool, passes: set<nat>, children: seq<Tree>)

  type Node = seq<nat>

  predicate IsNode(t: Tree, n: Node)
    decreases |n|
  {
    n == [] || (n[0] < |t.children| && IsNode(t.children[n[0]], n[1..]))
  }

  function At(t: Tree, n: Node): Tree
    requires IsNode(t, n)
    decreases |n|
  {
    if n == [] then t else At(t.children[n[0]], n[1..])
  }

  predicate IsElement(t: Tree, n: Node)
    requires IsNode(t, n)
  {
    At(t, n).isElement
  }

  function Parent(n: Node): Node
    requires n != []
  {
    n[..|n| - 1]
  }

  function Index(n: Node): nat
    requires n != []
  {
    n[|n| - 1]
  }

  function ParentNode(n: Node): Option<Node> {
    if n == [] then None else Some(Parent(n))
  }

  function PreviousSibling(n: Node): Option<Node> {
    if n == [] || Index(n) == 0 then None else Some(Parent(n) + [Index(n) - 1])
  }

  function NextSibling(t: Tree, n: Node): Option<Node>
    requires IsNode(t, n)
  {
    if n == [] || !IsNode(t, Parent(n) + [Index(n) + 1]) then None else Some(Parent(n) + [Index(n) + 1])
  }

  /** Only elements and the root (a document or a fragment) have children. */
  ghost predicate WellFormed(t: Tree) {
    forall n :: IsNode(t, n) && n != [] && At(t, n).children != [] ==> IsElement(t, n)
  }

  /** A node's children are the paths one longer. */
  lemma {:induction false} ChildIsNode(t: Tree, n: Node, k: nat)
    ensures IsNode(t, n + [k]) <==> IsNode(t, n) && k < |At(t, n).children|
    ensures IsNode(t, n + [k]) ==> At(t, n + [k]) == At(t, n).children[k]
    decreases |n|
  {
    if n == [] {
      assert [k][1..] == [];
    } else {
      assert (n + [k])[1..] == n[1..] + [k];
      if n[0] < |t.children| {
        ChildIsNode(t.children[n[0]], n[1..], k);
      }
    }
  }

  lemma ParentIsNode(t: Tree, n: Node)
    requires IsNode(t, n) && n != []
    ensures IsNode(t, Parent(n)) && Index(n) < |At(t, Parent(n)).children|
    ensures At(t, n) == At(t, Parent(n)).children[Index(n)]
  {
    assert Parent(n) + [Index(n)] == n;
    ChildIsNode(t, Parent(n), Index(n));
  }

  lemma SiblingIsNode(t: Tree, n: Node, k: nat)
    requires IsNode(t, n) && n != []
    ensures IsNode(t, Parent(n))
    ensures IsNode(t, Parent(n) + [k]) <==> k < |At(t, Parent(n)).children|
  {
    ParentIsNode(t, n);
    ChildIsNode(t, Parent(n), k);
  }

  /** Every prefix of a node's path is a node: its ancestors. */
  lemma {:induction false} PrefixIsNode(t: Tree, n: Node, k: nat)
    requires IsNode(t, n) && k <= |n|
    ensures IsNode(t, n[..k])
    decreases |n| - k
  {
    if k < |n| {
      PrefixIsNode(t, n, k + 1);
      assert Parent(n[..k + 1]) == n[..k];
      ParentIsNode(t, n[..k + 1]);
    } else {
      assert n[..k] == n;
    }
  }
}
