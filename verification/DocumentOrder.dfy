/**
  Sizzle's document order for browsers without compareDocumentPosition: two nodes are compared through
  the chains of their ancestors. The reference is the order in which a preorder walk meets the nodes.
 */
module DocumentOrder {
  import opened Wrappers
  import opened Dom

  // ---------------------------------------------------------------------------------------------
  // Document order by definition

  /** All nodes of the tree, each parent before its children and each child's subtree before the next child. */
  function Preorder(t: Tree): seq<Node>
    decreases t, 0
  {
    [[]] + PreorderFrom(t, 0)
  }

  function PreorderFrom(t: Tree, k: nat): seq<Node>
    requires k <= |t.children|
    decreases t, 0, |t.children| - k
  {
    if k == |t.children| then [] else Below(k, Preorder(t.children[k])) + PreorderFrom(t, k + 1)
  }

  /** The nodes of child `k`'s subtree, seen from the parent. */
  function Below(k: nat, ns: seq<Node>): (r: seq<Node>)
    ensures |r| == |ns| && forall i | 0 <= i < |ns| :: r[i] == [k] + ns[i]
  {
    seq(|ns|, i requires 0 <= i < |ns| => [k] + ns[i])
  }

  /** `a` comes before `b`: `a` is an ancestor of `b`, or turns left where their paths part. */
  predicate Before(a: Node, b: Node)
    decreases |a|
  {
    b != [] && (a == [] || a[0] < b[0] || (a[0] == b[0] && Before(a[1..], b[1..])))
  }

  ghost predicate StrictlyOrdered(ns: seq<Node>) {
    forall i, j | 0 <= i < j < |ns| :: Before(ns[i], ns[j])
  }

  lemma {:induction false} BeforeIsTotal(a: Node, b: Node)
    ensures Before(a, b) || a == b || Before(b, a)
    decreases |a|
  {
    if a != [] && b != [] && a[0] == b[0] {
      BeforeIsTotal(a[1..], b[1..]);
      assert a == [a[0]] + a[1..] && b == [b[0]] + b[1..];
    }
  }

  lemma {:induction false} BeforeIsTransitive(a: Node, b: Node, c: Node)
    requires Before(a, b) && Before(b, c)
    ensures Before(a, c)
    decreases |a|
  {
    if a != [] && a[0] == b[0] == c[0] {
      BeforeIsTransitive(a[1..], b[1..], c[1..]);
    }
  }

  lemma {:induction false} BeforeIsIrreflexive(a: Node)
    ensures !Before(a, a)
    decreases |a|
  {
    if a != [] {
      BeforeIsIrreflexive(a[1..]);
    }
  }

  /** Putting the same steps in front changes nothing. */
  lemma {:induction false} BeforeUnderPrefix(p: Node, a: Node, b: Node)
    ensures Before(p + a, p + b) <==> Before(a, b)
    decreases |p|
  {
    if p == [] {
      assert p + a == a && p + b == b;
    } else {
      assert (p + a)[1..] == p[1..] + a && (p + b)[1..] == p[1..] + b;
      BeforeUnderPrefix(p[1..], a, b);
    }
  }

  lemma {:induction false} PreorderIsOrdered(t: Tree)
    ensures StrictlyOrdered(Preorder(t))
    ensures forall n :: n in Preorder(t) <==> IsNode(t, n)
    decreases t, 0
  {
    PreorderFromIsOrdered(t, 0);
    var rest := PreorderFrom(t, 0);
    forall n ensures n in Preorder(t) <==> IsNode(t, n) {
      assert n in Preorder(t) <==> n == [] || n in rest;
    }
  }

  lemma {:induction false} PreorderFromIsOrdered(t: Tree, k: nat)
    requires k <= |t.children|
    ensures StrictlyOrdered(PreorderFrom(t, k))
    ensures forall n :: n in PreorderFrom(t, k) <==> n != [] && k <= n[0] && IsNode(t, n)
    decreases t, 0, |t.children| - k
  {
    if k < |t.children| {
      var ns := Preorder(t.children[k]);
      var first, rest := Below(k, ns), PreorderFrom(t, k + 1);
      PreorderIsOrdered(t.children[k]);
      PreorderFromIsOrdered(t, k + 1);
      BelowIsOrdered(k, ns);
      assert StrictlyOrdered(first + rest) by {
        forall i, j | 0 <= i < j < |first + rest| ensures Before((first + rest)[i], (first + rest)[j]) {
          if i < |first| <= j {
            assert rest[j - |first|] in rest;
          }
        }
      }
      forall n ensures n in first <==> n != [] && n[0] == k && IsNode(t, n) {
        if n != [] && n[0] == k && IsNode(t, n) {
          assert n[1..] in ns;
          var i :| 0 <= i < |ns| && ns[i] == n[1..];
          assert first[i] == [k] + n[1..] == n;
        }
        if n in first {
          var i :| 0 <= i < |first| && first[i] == n;
          assert n[1..] == ns[i] && ns[i] in ns;
        }
      }
    }
  }

  lemma BelowIsOrdered(k: nat, ns: seq<Node>)
    requires StrictlyOrdered(ns)
    ensures StrictlyOrdered(Below(k, ns))
  {
    forall i, j | 0 <= i < j < |ns| ensures Before(Below(k, ns)[i], Below(k, ns)[j]) {
      BeforeUnderPrefix([k], ns[i], ns[j]);
    }
  }

  /** A node's place in document order. */
  ghost function Position(t: Tree, n: Node): (i: nat)
    requires IsNode(t, n)
    ensures i < |Preorder(t)| && Preorder(t)[i] == n
  {
    PreorderIsOrdered(t);
    assert n in Preorder(t);
    var i: nat :| i < |Preorder(t)| && Preorder(t)[i] == n;
    i
  }

  /** Comparing paths is comparing positions. */
  lemma BeforeIsPosition(t: Tree, a: Node, b: Node)
    requires IsNode(t, a) && IsNode(t, b)
    ensures Before(a, b) <==> Position(t, a) < Position(t, b)
    ensures a == b <==> Position(t, a) == Position(t, b)
  {
    PreorderIsOrdered(t);
    BeforeIsIrreflexive(a);
    if Position(t, b) < Position(t, a) && Before(a, b) {
      BeforeIsTransitive(a, b, a);
    }
  }

  // ---------------------------------------------------------------------------------------------
  // Sizzle's comparison

  ghost predicate HasSignOf(r: int, d: int) {
    (r < 0 <==> d < 0) && (r > 0 <==> d > 0)
  }

  /** `siblingCheck` for browsers without sourceIndex: walk right from `a`, looking for `b`. */
  method SiblingCheck(t: Tree, a: Option<Node>, b: Option<Node>) returns (r: int)
    requires a.Some? ==> IsNode(t, a.value)
    requires b.Some? ==> IsNode(t, b.value)
    requires a.Some? && b.Some? ==> a.value != [] && b.value != [] && Parent(a.value) == Parent(b.value) && a != b
    ensures r == if a.None? || (b.Some? && Index(a.value) < Index(b.value)) then -1 else 1
  {
    if b.Some? && a.Some? {
      var cur := a;
      ParentIsNode(t, a.value);
      ParentIsNode(t, b.value);
      while cur.Some?
        invariant cur.Some? ==> IsNode(t, cur.value) && cur.value != [] && Parent(cur.value) == Parent(a.value)
        invariant cur.Some? ==> Index(a.value) <= Index(cur.value) < |At(t, Parent(a.value)).children|
        invariant Index(a.value) < Index(b.value) ==> cur.Some? && Index(cur.value) < Index(b.value)
        decreases if cur.Some? then 1 + |At(t, Parent(a.value)).children| - Index(cur.value) else 0
      {
        SiblingIsNode(t, cur.value, Index(cur.value) + 1);
        var here := cur.value;
        cur := NextSibling(t, cur.value);
        if cur == b {
          return -1;
        }
        assert b.value == Parent(b.value) + [Index(b.value)];
      }
    }
    return if a.Some? then 1 else -1;
  }

  /** The nodes from the root to `n`. */
  function Chain(n: Node): seq<Node> {
    seq(|n| + 1, i requires 0 <= i <= |n| => n[..i])
  }

  method AncestorChain(n: Node) returns (chain: seq<Node>)
    ensures chain == Chain(n)
  {
    chain := [n];
    var cur := n;
    assert n[..|n|] == n;
    while ParentNode(cur).Some?
      invariant |cur| <= |n| && cur == n[..|cur|]
      invariant chain == Chain(n)[|cur|..]
      decreases |cur|
    {
      cur := ParentNode(cur).value;
      chain := [cur] + chain;
    }
  }

  function Nth(chain: seq<Node>, i: nat): Option<Node> {
    if i < |chain| then Some(chain[i]) else None
  }

  /** Where two paths part, the part decides the order. */
  lemma PartingDecides(a: Node, b: Node, i: nat)
    requires i <= |a| && i <= |b| && a[..i] == b[..i] && a != b
    requires i < |a| && i < |b| ==> a[i] != b[i]
    ensures Before(a, b) <==> i == |a| || (i < |b| && a[i] < b[i])
  {
    assert a == a[..i] + a[i..] && b == a[..i] + b[i..];
    BeforeUnderPrefix(a[..i], a[i..], b[i..]);
  }

  class Sorter {
    var hasDuplicate: bool

    /** `sortOrder` on nodes of one tree, whose root is the document. */
    method SortOrder(t: Tree, a: Node, b: Node) returns (r: int)
      requires IsNode(t, a) && IsNode(t, b)
      modifies this`hasDuplicate
      ensures HasSignOf(r, Position(t, a) - Position(t, b))
      ensures hasDuplicate == (old(hasDuplicate) || a == b)
    {
      hide Before, Position, IsNode;
      BeforeIsPosition(t, a, b);
      BeforeIsPosition(t, b, a);
      if a == b {
        hasDuplicate := true;
        return 0;
      }
      BeforeIsTotal(a, b);
      var aup, bup := ParentNode(a), ParentNode(b);
      if aup.None? || bup.None? {
        PartingDecides(a, b, 0);
        return if a == [] then -1 else 1;
      }
      if aup == bup {
        assert a == Parent(a) + [Index(a)] && b == Parent(b) + [Index(b)];
        PartingDecides(a, b, |a| - 1);
        r := SiblingCheck(t, Some(a), Some(b));
        return;
      }
      var ap := AncestorChain(a);
      var bp := AncestorChain(b);
      assert a[..|a|] == a && b[..|b|] == b;
      var i := 0;
      while Nth(ap, i) == Nth(bp, i)
        invariant i <= |a| + 1 && i <= |b| + 1
        invariant forall k | 0 <= k < i :: a[..k] == b[..k]
        decreases |a| + 1 - i
      {
        i := i + 1;
      }
      assert i > 0 by {
        assert a[..0] == b[..0];
      }
      PartHere(t, a, b, i);
      r := SiblingCheck(t, Nth(ap, i), Nth(bp, i));
    }

    /**
      `uniqueSort`. The engine's own sort is not part of this model, but what it asked and what it did are:
      `asked` are the pairs of entries it passed to `sortOrder`, one after the other, and `order` says which
      entry it put at each place.
     */
    method UniqueSort(t: Tree, results: seq<Node>, asked: seq<(nat, nat)>, order: seq<nat>, detectDuplicates: bool)
        returns (unique: seq<Node>)
      requires forall n | n in results :: IsNode(t, n)
      requires forall pair | pair in asked :: pair.0 < |results| && pair.1 < |results|
      requires IsPermutation(order, |results|)
      requires forall k | 0 < k < |order| :: Justified(t, results, asked, order[k - 1], order[k])
      modifies this`hasDuplicate
      ensures unique == InOrder(Preorder(t), set n | n in results)
    {
      hasDuplicate := !detectDuplicates;
      AskAll(t, results, asked);
      var sorted := Rearranged(results, order);
      SortedByChains(t, results, asked, order);
      unique := sorted;
      if hasDuplicate {
        var duplicates := FindDuplicates(sorted);
        unique := SpliceOut(sorted, duplicates);
      } else {
        FirstsSkipsNothing(sorted, 0, |sorted|);
      }
      FirstsIsDocumentOrder(t, sorted, set n | n in results);
    }

    /** The calls of `sortOrder` that the engine's sort makes: together they notice whether two equal nodes met. */
    method AskAll(t: Tree, results: seq<Node>, asked: seq<(nat, nat)>)
      requires forall n | n in results :: IsNode(t, n)
      requires forall pair | pair in asked :: pair.0 < |results| && pair.1 < |results|
      modifies this`hasDuplicate
      ensures hasDuplicate <==> old(hasDuplicate) || EqualsMet(results, asked)
    {
      var j := 0;
      while j < |asked|
        invariant 0 <= j <= |asked|
        invariant hasDuplicate <==> old(hasDuplicate) || EqualsMet(results, asked[..j])
      {
        var (x, y) := asked[j];
        assert (x, y) in asked;
        var r := SortOrder(t, results[x], results[y]);
        assert asked[..j + 1] == asked[..j] + [(x, y)];
        j := j + 1;
      }
      assert asked[..j] == asked;
    }
  }

  /** Two equal nodes were passed to `sortOrder`. */
  ghost predicate EqualsMet(results: seq<Node>, asked: seq<(nat, nat)>) {
    exists pair | pair in asked :: pair.0 < |results| && pair.1 < |results| && results[pair.0] == results[pair.1]
  }

  ghost predicate IsPermutation(order: seq<nat>, n: nat) {
    && |order| == n
    && (forall i | 0 <= i < n :: order[i] < n)
    && (forall i, j | 0 <= i < j < n :: order[i] != order[j])
    && forall i: nat | i < n :: i in order
  }

  function Rearranged(results: seq<Node>, order: seq<nat>): (sorted: seq<Node>)
    requires forall i | 0 <= i < |order| :: order[i] < |results|
    ensures |sorted| == |order| && forall i | 0 <= i < |sorted| :: sorted[i] == results[order[i]]
  {
    seq(|order|, i requires 0 <= i < |order| => results[order[i]])
  }

  /** Each entry of the chain was compared with the next one, and the answer was that it does not come after it. */
  ghost predicate IsChain(t: Tree, results: seq<Node>, asked: seq<(nat, nat)>, chain: seq<nat>)
    requires forall n | n in results :: IsNode(t, n)
  {
    && chain != [] && (forall k | 0 <= k < |chain| :: chain[k] < |results|)
    && forall k | 0 < k < |chain| ::
      && ((chain[k - 1], chain[k]) in asked || (chain[k], chain[k - 1]) in asked)
      && Position(t, results[chain[k - 1]]) <= Position(t, results[chain[k]])
  }

  /** A comparison sort may put `y` right after `x` only if that follows from the answers it was given. */
  ghost predicate Justified(t: Tree, results: seq<Node>, asked: seq<(nat, nat)>, x: nat, y: nat)
    requires forall n | n in results :: IsNode(t, n)
  {
    exists chain :: IsChain(t, results, asked, chain) && chain[0] == x && chain[|chain| - 1] == y
  }

  /** Positions rise along a chain, so nothing on it is before its first entry. */
  lemma {:induction false} ChainRises(t: Tree, results: seq<Node>, asked: seq<(nat, nat)>, chain: seq<nat>, k: nat)
    requires forall n | n in results :: IsNode(t, n)
    requires IsChain(t, results, asked, chain) && k < |chain|
    ensures Position(t, results[chain[0]]) <= Position(t, results[chain[k]])
  {
    if k > 0 {
      ChainRises(t, results, asked, chain, k - 1);
    }
  }

  lemma {:induction false} ChainEnds(t: Tree, results: seq<Node>, asked: seq<(nat, nat)>, chain: seq<nat>, k: nat)
    requires forall n | n in results :: IsNode(t, n)
    requires IsChain(t, results, asked, chain) && k < |chain|
    ensures Position(t, results[chain[k]]) <= Position(t, results[chain[|chain| - 1]])
    decreases |chain| - k
  {
    if k < |chain| - 1 {
      ChainEnds(t, results, asked, chain, k + 1);
    }
  }

  /** A chain between two entries that hold the same node compares two equal nodes on the way. */
  lemma EqualEndsMeetEquals(t: Tree, results: seq<Node>, asked: seq<(nat, nat)>, x: nat, y: nat)
    requires forall n | n in results :: IsNode(t, n)
    requires Justified(t, results, asked, x, y) && x != y && x < |results| && y < |results| && results[x] == results[y]
    ensures EqualsMet(results, asked)
  {
    var chain :| IsChain(t, results, asked, chain) && chain[0] == x && chain[|chain| - 1] == y;
    ChainRises(t, results, asked, chain, 1);
    ChainEnds(t, results, asked, chain, 1);
    BeforeIsPosition(t, results[chain[0]], results[chain[1]]);
  }

  /** What the engine's sort leaves behind is sorted, and a repeated node has been noticed. */
  lemma SortedByChains(t: Tree, results: seq<Node>, asked: seq<(nat, nat)>, order: seq<nat>)
    requires forall n | n in results :: IsNode(t, n)
    requires IsPermutation(order, |results|)
    requires forall k | 0 < k < |order| :: Justified(t, results, asked, order[k - 1], order[k])
    ensures var sorted := Rearranged(results, order);
      && (forall n :: n in sorted <==> n in results)
      && (forall n | n in sorted :: IsNode(t, n))
      && (forall i, j | 0 <= i < j < |sorted| :: Position(t, sorted[i]) <= Position(t, sorted[j]))
      && forall i | Repeats(sorted, i) :: EqualsMet(results, asked)
  {
    var sorted := Rearranged(results, order);
    forall n ensures n in sorted <==> n in results {
      if n in results {
        var i: nat :| i < |results| && results[i] == n;
        assert i in order;
      }
    }
    forall k | 0 < k < |sorted| ensures Position(t, sorted[k - 1]) <= Position(t, sorted[k]) {
      var chain :| IsChain(t, results, asked, chain) && chain[0] == order[k - 1] && chain[|chain| - 1] == order[k];
      ChainRises(t, results, asked, chain, |chain| - 1);
    }
    forall i: nat, j: nat | i < j < |sorted| ensures Position(t, sorted[i]) <= Position(t, sorted[j]) {
      NeighboursSuffice(t, sorted, i, j);
    }
    forall i | Repeats(sorted, i) ensures EqualsMet(results, asked) {
      EqualEndsMeetEquals(t, results, asked, order[i - 1], order[i]);
    }
  }

  lemma {:induction false} NeighboursSuffice(t: Tree, sorted: seq<Node>, i: nat, j: nat)
    requires forall n | n in sorted :: IsNode(t, n)
    requires forall k | 0 < k < |sorted| :: Position(t, sorted[k - 1]) <= Position(t, sorted[k])
    requires i < j < |sorted|
    ensures Position(t, sorted[i]) <= Position(t, sorted[j])
    decreases j - i
  {
    if i + 1 < j {
      NeighboursSuffice(t, sorted, i, j - 1);
    }
  }

  predicate Repeats(s: seq<Node>, i: int) {
    0 < i < |s| && s[i - 1] == s[i]
  }

  /** The first loop of `uniqueSort`: where does a node repeat its left neighbour? */
  method FindDuplicates(sorted: seq<Node>) returns (duplicates: seq<nat>)
    ensures forall k, l | 0 <= k < l < |duplicates| :: duplicates[k] < duplicates[l]
    ensures forall d :: d in duplicates <==> Repeats(sorted, d)
  {
    duplicates := [];
    var i := 0;
    while i < |sorted|
      invariant 0 <= i <= |sorted|
      invariant forall k | 0 <= k < |duplicates| :: duplicates[k] <= i
      invariant forall k, l | 0 <= k < l < |duplicates| :: duplicates[k] < duplicates[l]
      invariant forall d :: d in duplicates <==> d <= i && Repeats(sorted, d)
    {
      i := i + 1;
      if i < |sorted| && sorted[i - 1] == sorted[i] {
        duplicates := duplicates + [i];
      }
    }
  }

  lemma RemoveAt(s: seq<Node>, d: nat, from: nat, tail: seq<Node>)
    requires d < from <= |s|
    ensures var u := s[..from] + tail; u[..d] + u[d + 1..] == s[..d] + (s[d + 1..from] + tail)
  {
  }

  /** The second loop of `uniqueSort`: remove those positions, the last one first. */
  method SpliceOut(sorted: seq<Node>, duplicates: seq<nat>) returns (unique: seq<Node>)
    requires forall k, l | 0 <= k < l < |duplicates| :: duplicates[k] < duplicates[l]
    requires forall d :: d in duplicates <==> Repeats(sorted, d)
    ensures unique == Firsts(sorted, 0)
  {
    hide Firsts;
    NothingAtTheEnd(sorted);
    unique := sorted;
    forall k | 0 <= k < |duplicates| ensures duplicates[k] < |sorted| {
      assert duplicates[k] in duplicates;
    }
    var j := |duplicates|;
    ghost var from := |sorted|;
    while j > 0
      invariant 0 <= j <= |duplicates| && 0 <= from <= |sorted|
      invariant unique == sorted[..from] + Firsts(sorted, from)
      invariant forall k | 0 <= k < j :: duplicates[k] < from
      invariant forall i | 0 <= i < from && Repeats(sorted, i) :: i in duplicates[..j]
    {
      j := j - 1;
      var d := duplicates[j];
      assert d in duplicates && Repeats(sorted, d);
      RepeatsAreSkipped(sorted, d);
      FirstsSkipsNothing(sorted, d + 1, from);
      RemoveAt(sorted, d, from, Firsts(sorted, from));
      unique := unique[..d] + unique[d + 1..];
      from := d;
    }
    FirstsSkipsNothing(sorted, 0, from);
  }

  /** The nodes of `keep`, in the order of `ns`. */
  function InOrder(ns: seq<Node>, keep: set<Node>): seq<Node> {
    if ns == [] then [] else (if ns[0] in keep then [ns[0]] else []) + InOrder(ns[1..], keep)
  }

  /** From index `k` on, the first node of every group of equal neighbours. */
  function Firsts(s: seq<Node>, k: nat): seq<Node>
    requires k <= |s|
    decreases |s| - k
  {
    if k == |s| then [] else (if Repeats(s, k) then [] else [s[k]]) + Firsts(s, k + 1)
  }

  lemma NothingAtTheEnd(s: seq<Node>)
    ensures Firsts(s, |s|) == []
  {
  }

  lemma RepeatsAreSkipped(s: seq<Node>, k: nat)
    requires Repeats(s, k)
    ensures Firsts(s, k) == Firsts(s, k + 1)
  {
  }

  lemma {:induction false} FirstsSkipsNothing(s: seq<Node>, k: nat, l: nat)
    requires k <= l <= |s| && forall i | k <= i < l :: !Repeats(s, i)
    ensures Firsts(s, k) == s[k..l] + Firsts(s, l)
    decreases l - k
  {
    if k < l {
      FirstsSkipsNothing(s, k + 1, l);
      assert !Repeats(s, k) && Firsts(s, k) == [s[k]] + Firsts(s, k + 1);
      assert s[k..l] == [s[k]] + s[k + 1..l];
    }
  }

  lemma {:induction false} FirstsInOrder(t: Tree, s: seq<Node>, k: nat)
    requires k <= |s| && forall n | n in s :: IsNode(t, n)
    requires forall i, j | 0 <= i < j < |s| :: Position(t, s[i]) <= Position(t, s[j])
    ensures StrictlyOrdered(Firsts(s, k))
    ensures forall n | n in Firsts(s, k) :: n in s && (k > 0 ==> Before(s[k - 1], n))
    ensures forall i | k <= i < |s| :: s[i] in Firsts(s, k) || (k > 0 && s[i] == s[k - 1])
    decreases |s| - k
  {
    if k < |s| {
      FirstsInOrder(t, s, k + 1);
      var all, rest := Firsts(s, k), Firsts(s, k + 1);
      if k > 0 {
        BeforeIsPosition(t, s[k - 1], s[k]);
        forall n | n in rest && s[k - 1] != s[k] ensures Before(s[k - 1], n) {
          BeforeIsTransitive(s[k - 1], s[k], n);
        }
      }
      forall i, j | 0 <= i < j < |all| ensures Before(all[i], all[j]) {
        if !Repeats(s, k) && i == 0 {
          assert all[j] in rest;
        }
      }
    }
  }

  lemma {:induction false} InOrderIsOrdered(ns: seq<Node>, keep: set<Node>)
    requires StrictlyOrdered(ns)
    ensures StrictlyOrdered(InOrder(ns, keep))
    ensures forall n :: n in InOrder(ns, keep) <==> n in ns && n in keep
  {
    if ns != [] {
      InOrderIsOrdered(ns[1..], keep);
      assert ns == [ns[0]] + ns[1..];
      forall n | n in InOrder(ns[1..], keep) ensures Before(ns[0], n) {
        assert n in ns[1..];
      }
    }
  }

  /** Document order leaves no choice: the same nodes make the same sequence. */
  lemma {:induction false} OrderedIsUnique(a: seq<Node>, b: seq<Node>)
    requires StrictlyOrdered(a) && StrictlyOrdered(b) && forall n :: n in a <==> n in b
    ensures a == b
    decreases |a|
  {
    if a == [] && b != [] {
      SomeMember(b);
    } else if a != [] && b == [] {
      SomeMember(a);
    } else if a != [] {
      var i, j := |a| - 1, |b| - 1;
      BeforeIsIrreflexive(a[i]);
      BeforeIsIrreflexive(b[j]);
      assert a[i] in b && b[j] in a;
      if a[i] != b[j] {
        BeforeIsTransitive(a[i], b[j], a[i]);
      }
      forall n ensures n in a[..i] <==> n in b[..j] {
        assert n in a <==> n in a[..i] || n == a[i];
        assert n in b <==> n in b[..j] || n == b[j];
      }
      OrderedIsUnique(a[..i], b[..j]);
      assert a == a[..i] + [a[i]] && b == b[..j] + [b[j]];
    }
  }

  lemma SomeMember(ns: seq<Node>)
    requires ns != []
    ensures exists n :: n in ns
  {
    assert ns[0] in ns;
  }

  lemma FirstsIsDocumentOrder(t: Tree, sorted: seq<Node>, keep: set<Node>)
    requires forall n | n in sorted :: IsNode(t, n)
    requires forall i, j | 0 <= i < j < |sorted| :: Position(t, sorted[i]) <= Position(t, sorted[j])
    requires forall n :: n in sorted <==> n in keep
    ensures Firsts(sorted, 0) == InOrder(Preorder(t), keep)
  {
    var nodes := Preorder(t);
    PreorderIsOrdered(t);
    FirstsInOrder(t, sorted, 0);
    InOrderIsOrdered(nodes, keep);
    OrderedIsUnique(Firsts(sorted, 0), InOrder(nodes, keep));
  }

  lemma PartHere(t: Tree, a: Node, b: Node, i: nat)
    requires IsNode(t, a) && IsNode(t, b) && a != b && 0 < i <= |a| + 1 && i <= |b| + 1
    requires a[..i - 1] == b[..i - 1] && Nth(Chain(a), i) != Nth(Chain(b), i)
    ensures i <= |a| ==> IsNode(t, a[..i]) && a[..i] != [] && Parent(a[..i]) == a[..i - 1] && Index(a[..i]) == a[i - 1]
    ensures i <= |b| ==> IsNode(t, b[..i]) && b[..i] != [] && Parent(b[..i]) == b[..i - 1] && Index(b[..i]) == b[i - 1]
    ensures Before(a, b) <==> i == |a| + 1 || (i <= |b| && a[i - 1] < b[i - 1])
  {
    if i <= |a| {
      PrefixIsNode(t, a, i);
      assert a[..i] == a[..i - 1] + [a[i - 1]];
    }
    if i <= |b| {
      PrefixIsNode(t, b, i);
      assert b[..i] == b[..i - 1] + [b[i - 1]];
    }
    PartingDecides(a, b, i - 1);
  }
}
