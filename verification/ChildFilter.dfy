/**
  Sizzle's `:nth-child`, `:nth-last-child` and their relatives, which remember sibling positions in the
  caches of the current run. `:nth-child` keeps one entry on the parent and resumes from it;
  `:nth-last-child` keeps one entry on every element it has counted.
 */
module ChildFilter {
  import opened Wrappers
  import opened Dom

  // ---------------------------------------------------------------------------------------------
  // Positions by definition: sections 6.6.5.2 and 6.6.5.3 of W3C Selectors Level 3

  /** How many of the first `k` siblings count; `marks` says for every sibling whether it counts. */
  function CountTo(marks: seq<bool>, k: nat): nat
    requires k <= |marks|
  {
    if k == 0 then 0 else CountTo(marks, k - 1) + if marks[k - 1] then 1 else 0
  }

  /** How many of the siblings `i` to `j - 1` count. */
  function Between(marks: seq<bool>, i: nat, j: nat): nat
    requires i <= j <= |marks|
  {
    CountToGrows(marks, i, j);
    CountTo(marks, j) - CountTo(marks, i)
  }

  lemma {:induction false} CountToGrows(marks: seq<bool>, i: nat, j: nat)
    requires i <= j <= |marks|
    ensures CountTo(marks, i) <= CountTo(marks, j)
    decreases j
  {
    if i < j {
      CountToGrows(marks, i, j - 1);
    }
  }

  /** Which children of `p` are elements. */
  function Elements(t: Tree, p: Node): (marks: seq<bool>)
    requires IsNode(t, p)
    ensures |marks| == |At(t, p).children|
  {
    var c := At(t, p).children;
    seq(|c|, k requires 0 <= k < |c| => c[k].isElement)
  }

  ghost predicate IsChildElement(t: Tree, n: Node) {
    IsNode(t, n) && n != [] && IsElement(t, n)
  }

  lemma ChildElement(t: Tree, n: Node)
    requires IsNode(t, n) && n != []
    ensures IsNode(t, Parent(n)) && Index(n) < |Elements(t, Parent(n))|
    ensures IsElement(t, n) == Elements(t, Parent(n))[Index(n)]
  {
    ParentIsNode(t, n);
  }

  /** The element's place among its element siblings, counted from 1. */
  ghost function Position(t: Tree, n: Node): nat
    requires IsChildElement(t, n)
  {
    ChildElement(t, n);
    CountTo(Elements(t, Parent(n)), Index(n) + 1)
  }

  /** The same, counted from the last one. */
  ghost function LastPosition(t: Tree, n: Node): nat
    requires IsChildElement(t, n)
  {
    ChildElement(t, n);
    Between(Elements(t, Parent(n)), Index(n), |Elements(t, Parent(n))|)
  }

  // ---------------------------------------------------------------------------------------------
  // The final test of `an+b`

  /** The offset from `last` is one step, or a number of steps that is not negative; a step of 0 divides nothing. */
  predicate InCycle(position: int, first: int, last: int) {
    var diff := position - last;
    diff == first || (first != 0 && diff % first == 0 && (if first > 0 then diff >= 0 else diff <= 0))
  }

  lemma SignOfProduct(a: int, n: int)
    ensures n >= 0 ==> if a >= 0 then a * n >= 0 else a * n <= 0
    ensures n < 0 ==> if a > 0 then a * n < 0 else a * n >= 0
    ensures n < 0 && a < 0 ==> a * n > 0
  {
  }

  lemma ProductIsFar(a: int, k: int)
    requires k != 0
    ensures a * k >= a >= 0 || a * k <= -a <= 0 || a * k >= -a >= 0 || a * k <= a <= 0
  {
    if k >= 1 {
      SignOfProduct(a, k - 1);
      assert a * k == a * (k - 1) + a;
    } else {
      SignOfProduct(-a, -k - 1);
      assert a * k == -a * (-k - 1) - a;
    }
  }

  lemma MultipleIsDivisible(a: int, n: int)
    requires a != 0
    ensures (a * n) % a == 0
  {
    var r, k := (a * n) % a, n - (a * n) / a;
    assert r == a * k by {
      assert a * n == a * ((a * n) / a) + r;
    }
    if k != 0 {
      ProductIsFar(a, k);
    }
  }

  /** The test holds iff the position is `first * n + last` for some n that is not negative. */
  lemma InCycleIsFormula(position: int, first: int, last: int)
    ensures InCycle(position, first, last) <==> exists n: nat :: position == first * n + last
  {
    var diff := position - last;
    if InCycle(position, first, last) {
      var n := if diff == first then 1 else diff / first;
      assert diff == first * n;
      SignOfProduct(first, n);
      var m: nat := n;
      assert position == first * m + last;
    }
    if n: nat :| position == first * n + last {
      SignOfProduct(first, n);
      if first != 0 {
        MultipleIsDivisible(first, n);
      }
    }
  }

  // ---------------------------------------------------------------------------------------------
  // The loops. The children of one parent are told apart by their indexes.

  function Next(marks: seq<bool>, node: nat): Option<nat> {
    if node + 1 < |marks| then Some(node + 1) else None
  }

  function Previous(node: nat): Option<nat> {
    if node > 0 then Some(node - 1) else None
  }

  /**
    The loop of `:nth-child`: it resumes after child `resumeIndex` (0: from the start) with `resumeDiff`
    elements counted, walks right, wraps to the first child at most once and stops at `elem`.
   */
  method SeekForward(marks: seq<bool>, elem: nat, resumeIndex: nat, resumeDiff: nat) returns (nodeIndex: nat, diff: nat)
    requires elem < |marks| && marks[elem] && resumeIndex < |marks|
    requires resumeIndex > 0 ==> resumeDiff == CountTo(marks, resumeIndex + 1)
    ensures nodeIndex == elem && diff == CountTo(marks, elem + 1)
  {
    var start: Option<nat> := Some(0);
    nodeIndex, diff := resumeIndex, resumeDiff;
    var node: Option<nat> := if nodeIndex > 0 then Some(nodeIndex) else None;
    while true
      invariant nodeIndex < |marks|
      invariant node.Some? ==> node.value == nodeIndex && diff == CountTo(marks, nodeIndex + 1)
      invariant start.Some? ==> start.value == 0
      invariant start.None? ==> node.Some? && nodeIndex < elem
      decreases start.Some?, |marks| - nodeIndex
    {
      nodeIndex := nodeIndex + 1;
      var next := if node.Some? then Next(marks, node.value) else None;
      if next.None? {
        diff, nodeIndex := 0, 0;
        next, start := start, None;
      }
      node := next;
      if node.None? {
        break;
      }
      if marks[node.value] {
        diff := diff + 1;
        if node.value == elem {
          break;
        }
      }
    }
  }

  /** What `:nth-last-child` leaves on child `k` when it counts on behalf of `elem`. */
  function Remembered(marks: seq<bool>, elem: nat, k: nat): nat
    requires elem <= |marks| && k < |marks|
  {
    if k < elem then Between(marks, k, elem) else Between(marks, k, |marks|)
  }

  /**
    The loop of `:nth-last-child` when `elem` has no entry of this run. Its variable `node` is still `elem`
    when it begins, so it first counts leftwards from `elem` and only then starts at the last child. Every
    element met gets an entry.
   */
  method SeekBackward(marks: seq<bool>, elem: nat) returns (diff: nat, written: map<nat, nat>)
    requires elem < |marks| && marks[elem]
    ensures diff == Between(marks, elem, |marks|)
    ensures forall k :: k in written <==> 0 <= k < |marks| && marks[k]
    ensures forall k | k in written :: written[k] == Remembered(marks, elem, k)
  {
    var start: Option<nat> := Some(|marks| - 1);
    var node: Option<nat> := Some(elem);
    diff, written := 0, map[];
    while true
      invariant start.Some? ==> start.value == |marks| - 1
      invariant start.Some? ==> node.Some? && node.value <= elem && diff == Between(marks, node.value, elem)
      invariant start.None? ==> node.Some? && elem < node.value < |marks| && diff == Between(marks, node.value, |marks|)
      invariant forall k :: k in written <==>
        0 <= k < |marks| && marks[k] && if start.Some? then node.value <= k < elem else k < elem || node.value <= k
      invariant forall k | k in written :: written[k] == Remembered(marks, elem, k)
      decreases start.Some?, if node.Some? then node.value else 0
    {
      var next := Previous(node.value);
      if next.None? {
        diff := 0;
        next, start := start, None;
      }
      node := next;
      if node.None? {
        break;
      }
      if marks[node.value] {
        diff := diff + 1;
        written := written[node.value := diff];
        if node.value == elem {
          break;
        }
      }
    }
  }

  /** The same loop without caches, for XML and for `of-type`: `node` is undefined when it begins. */
  method SeekUncached(marks: seq<bool>, elem: nat, forward: bool) returns (diff: nat)
    requires elem < |marks| && marks[elem]
    ensures diff == if forward then CountTo(marks, elem + 1) else Between(marks, elem, |marks|)
  {
    var start: Option<nat> := Some(if forward then 0 else |marks| - 1);
    var node: Option<nat> := None;
    diff := 0;
    while true
      invariant start.Some? ==> node.None? && start.value == if forward then 0 else |marks| - 1
      invariant start.None? ==>
        && node.Some? && node.value < |marks|
        && (if forward then node.value < elem else elem < node.value)
        && diff == if forward then CountTo(marks, node.value + 1) else Between(marks, node.value, |marks|)
      decreases start.Some?, if node.None? then 0 else if forward then |marks| - node.value else node.value
    {
      var next := if node.None? then None else if forward then Next(marks, node.value) else Previous(node.value);
      if next.None? {
        diff := 0;
        next, start := start, None;
      }
      node := next;
      if node.None? {
        break;
      }
      if marks[node.value] {
        diff := diff + 1;
        if node.value == elem {
          break;
        }
      }
    }
  }

  // ---------------------------------------------------------------------------------------------
  // The caches

  /** Among the nodes asked about so far, the index of the first one below `p`. */
  ghost function FirstAsked(asked: seq<Node>, p: Node): Option<nat> {
    if asked == [] then None
    else
      var before := FirstAsked(asked[..|asked| - 1], p);
      var last := asked[|asked| - 1];
      if before.None? && last != [] && Parent(last) == p then Some(Index(last)) else before
  }

  /** The answer to a `:nth-last-child` query about `n` after the queries `asked` of the same run. */
  ghost function Answer(t: Tree, asked: seq<Node>, n: Node): nat
    requires IsChildElement(t, n)
  {
    ChildElement(t, n);
    var first := FirstAsked(asked, Parent(n));
    if first.Some? && first.value < |Elements(t, Parent(n))| then
      Remembered(Elements(t, Parent(n)), first.value, Index(n))
    else LastPosition(t, n)
  }

  /** The first query below the parent was about this child or an earlier one, or there was none. */
  ghost predicate InTurn(asked: seq<Node>, n: Node)
    requires n != []
  {
    FirstAsked(asked, Parent(n)).None? || FirstAsked(asked, Parent(n)).value <= Index(n)
  }

  ghost predicate AllChildElements(t: Tree, asked: seq<Node>) {
    forall i | 0 <= i < |asked| :: IsChildElement(t, asked[i])
  }

  lemma {:induction false} FirstAskedIsElement(t: Tree, asked: seq<Node>, p: Node)
    requires AllChildElements(t, asked) && FirstAsked(asked, p).Some?
    ensures IsNode(t, p) && FirstAsked(asked, p).value < |Elements(t, p)| && Elements(t, p)[FirstAsked(asked, p).value]
  {
    var last := asked[|asked| - 1];
    if FirstAsked(asked[..|asked| - 1], p).Some? {
      FirstAskedIsElement(t, asked[..|asked| - 1], p);
    } else {
      ChildElement(t, last);
    }
  }

  lemma AskOneMore(asked: seq<Node>, n: Node)
    requires n != []
    ensures forall p :: FirstAsked(asked + [n], p) ==
                        if FirstAsked(asked, p).None? && Parent(n) == p then Some(Index(n)) else FirstAsked(asked, p)
  {
    assert (asked + [n])[..|asked|] == asked;
  }

  /**
    In any run, `:nth-last-child` gets the place of an element right iff the first query below its parent
    was about this element or one before it.
   */
  lemma AnswerIsTrueIff(t: Tree, asked: seq<Node>, n: Node)
    requires AllChildElements(t, asked) && IsChildElement(t, n)
    ensures Answer(t, asked, n) == LastPosition(t, n) <==> InTurn(asked, n)
  {
    ChildElement(t, n);
    var first := FirstAsked(asked, Parent(n));
    if first.Some? {
      FirstAskedIsElement(t, asked, Parent(n));
      var marks := Elements(t, Parent(n));
      CountToGrows(marks, first.value + 1, |marks|);
    }
  }

  /** Two elements `p` and `q` under the root: asking about `q` first makes `p` the last child as well. */
  lemma AnswerCanBeWrong()
    ensures var leaf := Tree(true, {}, []);
      var t := Tree(false, {}, [leaf, leaf]);
      IsChildElement(t, [0]) && IsChildElement(t, [1]) && LastPosition(t, [0]) == 2 && Answer(t, [[1]], [0]) == 1
  {
    var leaf := Tree(true, {}, []);
    var t := Tree(false, {}, [leaf, leaf]);
    var marks := Elements(t, []);
    assert IsNode(t, [0]) && IsNode(t, [1]) && At(t, [0]) == leaf && At(t, [1]) == leaf;
    assert Parent([0]) == [] && Parent([1]) == [] && marks == [true, true];
    assert [[1]][..0] == [];
    assert FirstAsked([[1]], []) == Some(1);
    assert CountTo(marks, 0) == 0 && CountTo(marks, 1) == 1 && CountTo(marks, 2) == 2;
  }

  /** Child index to `[ dirruns, diff ]`. */
  type Entries = map<nat, (nat, nat)>

  function EntriesBelow(onElem: map<Node, Entries>, p: Node): Entries {
    if p in onElem then onElem[p] else map[]
  }

  /** All element children have an entry of this run, left when the child `first` was asked about. */
  ghost predicate Counted(marks: seq<bool>, dirruns: nat, entries: Entries, first: nat)
    requires first < |marks|
  {
    && (forall k: nat :: k in entries && entries[k].0 == dirruns <==> k < |marks| && marks[k])
    && (forall k: nat | k < |marks| && marks[k] :: k in entries && entries[k].1 == Remembered(marks, first, k))
  }

  /** Read the entry of child `k`, or count and leave entries on all its element siblings. */
  method CountLast(marks: seq<bool>, dirruns: nat, entries: Entries, k: nat, ghost first: Option<nat>)
      returns (diff: nat, entries': Entries)
    requires k < |marks| && marks[k]
    requires forall i | i in entries :: entries[i].0 <= dirruns && (first.None? ==> entries[i].0 < dirruns)
    requires first.Some? ==> first.value < |marks| && Counted(marks, dirruns, entries, first.value)
    ensures forall i | i in entries' :: entries'[i].0 <= dirruns
    ensures var f := if first.Some? then first.value else k;
      Counted(marks, dirruns, entries', f) && diff == Remembered(marks, f, k)
  {
    if k in entries && entries[k].0 == dirruns {
      return entries[k].1, entries;
    }
    var written;
    diff, written := SeekBackward(marks, k);
    entries' := entries + map i | i in written :: (dirruns, written[i]);
  }

  /** The entries below `p` are those of older runs, unless something below `p` was asked about in this run. */
  ghost predicate EntriesOk(t: Tree, dirruns: nat, entries: Entries, first: Option<nat>, p: Node) {
    && (forall k | k in entries :: entries[k].0 <= dirruns)
    && match first
       case None => forall k | k in entries :: entries[k].0 < dirruns
       case Some(f) => IsNode(t, p) && f < |Elements(t, p)| && Counted(Elements(t, p), dirruns, entries, f)
  }

  ghost predicate AllEntriesOk(t: Tree, dirruns: nat, onElem: map<Node, Entries>, asked: seq<Node>) {
    forall p :: EntriesOk(t, dirruns, EntriesBelow(onElem, p), FirstAsked(asked, p), p)
  }

  /** A query about child `k` of `parent` touches nothing below other parents. */
  lemma OnlyOneParentChanges(t: Tree, dirruns: nat, onElem: map<Node, Entries>, asked: seq<Node>, elem: Node,
                             entries: Entries)
    requires AllEntriesOk(t, dirruns, onElem, asked) && elem != []
    requires
      var first := FirstAsked(asked, Parent(elem));
      EntriesOk(t, dirruns, entries, if first.Some? then first else Some(Index(elem)), Parent(elem))
    ensures AllEntriesOk(t, dirruns, onElem[Parent(elem) := entries], asked + [elem])
  {
    AskOneMore(asked, elem);
    forall p
      ensures EntriesOk(t, dirruns, EntriesBelow(onElem[Parent(elem) := entries], p), FirstAsked(asked + [elem], p), p)
    {
      assert EntriesOk(t, dirruns, EntriesBelow(onElem, p), FirstAsked(asked, p), p);
    }
  }

  class ChildCounter {
    var doc: Tree
    var dirruns: nat
    /** On a parent, under "nth": `[ dirruns, nodeIndex, diff ]`. */
    var onParent: map<Node, (nat, nat, nat)>
    /** On an element, under "nth-last": `[ dirruns, diff ]`, here grouped by the element's parent. */
    var onElem: map<Node, Entries>
    /** The elements that `:nth-last-child` was asked about in this run, in order. */
    ghost var asked: seq<Node>

    ghost predicate ParentsOk()
      reads this`doc, this`dirruns, this`onParent
    {
      forall p | p in onParent ::
        && onParent[p].0 <= dirruns
        && (onParent[p].0 == dirruns ==>
              && IsNode(doc, p) && onParent[p].1 < |Elements(doc, p)|
              && onParent[p].2 == CountTo(Elements(doc, p), onParent[p].1 + 1))
    }

    ghost predicate Valid()
      reads this
    {
      && ParentsOk() && AllChildElements(doc, asked)
      && AllEntriesOk(doc, dirruns, onElem, asked)
    }

    constructor (doc: Tree)
      ensures Valid() && this.doc == doc && asked == []
    {
      this.doc, dirruns, onParent, onElem, asked := doc, 0, map[], map[], [];
    }

    /** A new run, over a document that may have changed: nothing is read from older entries. */
    method NewRun(doc: Tree)
      requires Valid()
      modifies this
      ensures Valid() && this.doc == doc && asked == [] && dirruns == old(dirruns) + 1
    {
      this.doc, dirruns, asked := doc, dirruns + 1, [];
    }

    /** `:nth-child` outside XML. */
    method NthChild(elem: Node) returns (diff: nat)
      requires Valid() && IsChildElement(doc, elem)
      modifies this`onParent
      ensures Valid() && diff == Position(doc, elem)
    {
      var parent: Node := Parent(elem);
      ChildElement(doc, elem);
      var nodeIndex: nat, resumeDiff: nat := 0, 0;
      if parent in onParent && onParent[parent].0 == dirruns {
        nodeIndex, resumeDiff := onParent[parent].1, onParent[parent].2;
      }
      nodeIndex, diff := SeekForward(Elements(doc, parent), Index(elem), nodeIndex, resumeDiff);
      onParent := onParent[parent := (dirruns, nodeIndex, diff)];
    }

    /** `:nth-last-child` outside XML. */
    method NthLastChild(elem: Node) returns (diff: nat)
      requires Valid() && IsChildElement(doc, elem)
      modifies this`onElem, this`asked
      ensures Valid() && asked == old(asked) + [elem] && diff == Answer(doc, old(asked), elem)
    {
      var parent: Node := Parent(elem);
      var k := Index(elem);
      ChildElement(doc, elem);
      var entries := EntriesBelow(onElem, parent);
      assert EntriesOk(doc, dirruns, entries, FirstAsked(asked, parent), parent);
      diff, entries := CountLast(Elements(doc, parent), dirruns, entries, k, FirstAsked(asked, parent));
      OnlyOneParentChanges(doc, dirruns, onElem, asked, elem, entries);
      onElem := onElem[parent := entries];
      asked := asked + [elem];
    }

    /** The whole `:nth-child(an+b)` filter: `elem` has a parent and its place is in the cycle. */
    method NthChildFilter(elem: Node, first: int, last: int) returns (b: bool)
      requires Valid() && IsNode(doc, elem) && IsElement(doc, elem)
      modifies this`onParent
      ensures Valid()
      ensures b <==> elem != [] && exists n: nat :: Position(doc, elem) == first * n + last
    {
      if first == 1 && last == 0 {
        b := ParentNode(elem).Some?;
        if b {
          assert Position(doc, elem) == 1 * Position(doc, elem) + 0;
        }
      } else if ParentNode(elem).Some? {
        var diff := NthChild(elem);
        b := InCycle(diff, first, last);
        InCycleIsFormula(diff, first, last);
      } else {
        b := false;
      }
    }

    /**
      The whole `:nth-last-child(an+b)` filter, with the place that the run's earlier queries lead to. That is the
      true place from the end, unless the first query below the parent was about a later child.
     */
    method NthLastChildFilter(elem: Node, first: int, last: int) returns (b: bool)
      requires Valid() && IsNode(doc, elem) && IsElement(doc, elem)
      modifies this`onElem, this`asked
      ensures Valid()
      ensures b && (first != 1 || last != 0) ==> elem != []
      ensures elem != [] && (first != 1 || last != 0) ==>
        (b <==> exists n: nat :: Answer(doc, old(asked), elem) == first * n + last)
      ensures elem != [] && InTurn(old(asked), elem) ==>
        (b <==> exists n: nat :: LastPosition(doc, elem) == first * n + last)
      ensures asked == if elem == [] || (first == 1 && last == 0) then old(asked) else old(asked) + [elem]
      ensures first == 1 && last == 0 ==> (b <==> elem != [])
    {
      if first == 1 && last == 0 {
        b := ParentNode(elem).Some?;
        if b {
          assert LastPosition(doc, elem) == 1 * LastPosition(doc, elem) + 0;
        }
      } else if ParentNode(elem).Some? {
        AnswerIsTrueIff(doc, asked, elem);
        var diff := NthLastChild(elem);
        b := InCycle(diff, first, last);
        InCycleIsFormula(diff, first, last);
      } else {
        b := false;
      }
    }
  }

  datatype Edge = FirstEdge | LastEdge | OnlyEdge

  /** `:first-child`, `:last-child`, `:only-child` and their `of-type` forms: no sibling that counts on that side. */
  method SimpleChild(edge: Edge, marks: seq<bool>, elem: nat) returns (b: bool)
    requires elem < |marks| && marks[elem]
    ensures b <==>
      && (edge.LastEdge? || CountTo(marks, elem + 1) == 1)
      && (edge.FirstEdge? || Between(marks, elem, |marks|) == 1)
  {
    var forward, start := edge.LastEdge?, false;
    while true
      invariant edge.FirstEdge? ==> !forward && !start
      invariant edge.LastEdge? ==> forward && !start
      invariant edge.OnlyEdge? ==> forward == start && (start ==> CountTo(marks, elem + 1) == 1)
      decreases !start
    {
      var node: Option<nat> := Some(elem);
      while node.Some?
        invariant node.Some? ==> if forward then elem <= node.value < |marks| else node.value <= elem
        invariant if forward then Between(marks, elem + 1, if node.Some? then node.value + 1 else |marks|) == 0
                  else Between(marks, if node.Some? then node.value else 0, elem) == 0
        decreases if node.None? then 0 else 1 + if forward then |marks| - node.value else node.value
      {
        node := if forward then Next(marks, node.value) else Previous(node.value);
        if node.Some? && marks[node.value] {
          CountToGrows(marks, elem + 1, if forward then node.value else elem + 1);
          CountToGrows(marks, if forward then node.value + 1 else 0, if forward then |marks| else node.value);
          CountToGrows(marks, if forward then 0 else node.value + 1, elem);
          return false;
        }
      }
      if !(edge.OnlyEdge? && !start) {
        return true;
      }
      forward, start := true, true;
    }
  }
}
