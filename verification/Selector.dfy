/**
  Sizzle's compiled matchers and the meaning of selectors.

  `Compiled` is the closure that matcherFromTokens builds, with every closure written as a value;
  `Eval` runs such a closure the way the uncached (XML) branch of addCombinator does; `Selects` is
  the meaning of a complex selector in section 8 of W3C Selectors Level 3: some choice of one node per
  compound selector satisfies every simple selector and every combinator.
 */
module Selector {
  import opened Wrappers
  import opened Dom

  datatype Combinator = Descendant | Child | Sibling | Adjacent

  datatype Direction = ToParent | ToPrevious

  datatype Token = Simple(test: nat) | Relative(combinator: Combinator)

  /** One complex selector as tokenize delivers it: never empty. */
  type Complex = tokens: seq<Token> | tokens != [] witness [Simple(0)]

  function DirectionOf(c: Combinator): Direction {
    if c.Descendant? || c.Child? then ToParent else ToPrevious
  }

  predicate FirstOnly(c: Combinator) {
    c.Child? || c.Adjacent?
  }

  /** The context of a match: one node, or an array of nodes. */
  datatype Context = Single(node: Node) | Several(nodes: seq<Node>)

  /** What stays fixed while one superMatcher call runs. `nested` is `context !== outermostContext`. */
  datatype Run = Run(doc: Tree, context: Context, nested: bool, xml: bool)

  datatype Matcher =
    | Filter(test: nat)
    | IsContext
    | IsInContexts
    | Foundation(leading: bool, matchContext: Matcher, matchAnyContext: Matcher)
    | Both(matchers: seq<Matcher>)
    | Combine(combinator: Combinator, base: bool, doneName: nat, inner: Matcher)

  // ---------------------------------------------------------------------------------------------
  // Walking along a direction

  function Step(dir: Direction, n: Node): Option<Node> {
    if dir.ToParent? then ParentNode(n) else PreviousSibling(n)
  }

  function Rank(dir: Direction, n: Node): nat {
    if dir.ToParent? then |n| else if n == [] then 0 else Index(n)
  }

  lemma StepIsNode(t: Tree, dir: Direction, n: Node)
    requires IsNode(t, n)
    ensures Step(dir, n).Some? ==> IsNode(t, Step(dir, n).value) && Rank(dir, Step(dir, n).value) < Rank(dir, n)
  {
    if n != [] {
      ParentIsNode(t, n);
      if Index(n) > 0 {
        SiblingIsNode(t, n, Index(n) - 1);
      }
    }
  }

  /** The nodes a combinator hands to its matcher: elements, and for the base combinator any ancestor. */
  predicate Candidate(t: Tree, c: Combinator, base: bool, n: Node)
    requires IsNode(t, n)
  {
    IsElement(t, n) || (base && DirectionOf(c).ToParent?)
  }

  // ---------------------------------------------------------------------------------------------
  // Running a compiled matcher without caches

  predicate Eval(m: Matcher, r: Run, n: Node)
    requires IsNode(r.doc, n)
    decreases m, 1, 0
  {
    match m
    case Filter(test) => test in At(r.doc, n).passes
    case IsContext => r.context == Single(n)
    case IsInContexts => r.context.Several? && n in r.context.nodes
    case Foundation(leading, one, any) =>
      (!leading && (r.xml || r.nested)) || (if r.context.Single? then Eval(one, r, n) else Eval(any, r, n))
    case Both(ms) => forall i | 0 <= i < |ms| :: Eval(ms[i], r, n)
    case Combine(c, base, _, inner) => Beyond(m, r, n)
  }

  /** The combinator's answer for `n`: the walk starts strictly beyond `n`. */
  predicate Beyond(m: Matcher, r: Run, n: Node)
    requires m.Combine? && IsNode(r.doc, n)
    decreases m, 0, 2 * Rank(DirectionOf(m.combinator), n)
  {
    var dir := DirectionOf(m.combinator);
    StepIsNode(r.doc, dir, n);
    match Step(dir, n)
    case None => false
    case Some(p) => From(m, r, p)
  }

  /** The combinator's answer when the walk has reached `n`: `n` itself or a node further along. */
  predicate From(m: Matcher, r: Run, n: Node)
    requires m.Combine? && IsNode(r.doc, n)
    decreases m, 0, 2 * Rank(DirectionOf(m.combinator), n) + 1
  {
    if Candidate(r.doc, m.combinator, m.base, n) then
      Eval(m.inner, r, n) || (!FirstOnly(m.combinator) && Beyond(m, r, n))
    else
      Beyond(m, r, n)
  }

  // ---------------------------------------------------------------------------------------------
  // Compilation

  /** `elementMatcher` */
  function ElementMatcher(ms: seq<Matcher>): Matcher
    requires ms != []
  {
    if |ms| > 1 then Both(ms) else ms[0]
  }

  function LeadingOf(tokens: Complex): Option<Combinator> {
    if tokens[0].Relative? then Some(tokens[0].combinator) else None
  }

  function BodyOf(tokens: Complex): seq<Token> {
    if tokens[0].Relative? then tokens[1..] else tokens
  }

  function OrDescendant(lead: Option<Combinator>): Combinator {
    if lead.Some? then lead.value else Descendant
  }

  function Base(lead: Option<Combinator>, done: nat): Matcher {
    Foundation(lead.Some?,
               Combine(OrDescendant(lead), true, done, IsContext),
               Combine(OrDescendant(lead), true, done + 1, IsInContexts))
  }

  function Front(body: seq<Token>): seq<Token>
    requires body != []
  {
    body[..|body| - 1]
  }

  function Last(body: seq<Token>): Token
    requires body != []
  {
    body[|body| - 1]
  }

  function Relatives(body: seq<Token>): nat {
    if body == [] then 0
    else Relatives(Front(body)) + if Last(body).Relative? then 1 else 0
  }

  /** The list `matchers` after the loop of matcherFromTokens has read `body`. */
  function Compiled(lead: Option<Combinator>, body: seq<Token>, done: nat): (ms: seq<Matcher>)
    ensures ms != []
  {
    if body == [] then [Base(lead, done)]
    else
      var before := Compiled(lead, Front(body), done);
      match Last(body)
      case Simple(test) => before + [Filter(test)]
      case Relative(c) => [Combine(c, false, done + 2 + Relatives(Front(body)), ElementMatcher(before))]
  }

  function Compile(tokens: Complex, done: nat): Matcher {
    ElementMatcher(Compiled(LeadingOf(tokens), BodyOf(tokens), done))
  }

  // ---------------------------------------------------------------------------------------------
  // The meaning of selectors

  ghost predicate IsAncestor(a: Node, b: Node) {
    |a| < |b| && b[..|a|] == a
  }

  ghost predicate IsEarlierSibling(a: Node, b: Node) {
    a != [] && b != [] && Parent(a) == Parent(b) && Index(a) < Index(b)
  }

  /** Section 8: `a` stands in relation `c` to `b`, where `b` is the subject. */
  ghost predicate Related(t: Tree, c: Combinator, a: Node, b: Node) {
    match c
    case Descendant => IsAncestor(a, b)
    case Child => b != [] && a == Parent(b)
    case Sibling => IsEarlierSibling(a, b)
    case Adjacent =>
      && IsEarlierSibling(a, b)
      && forall k | Index(a) < k < Index(b) :: IsNode(t, Parent(b) + [k]) ==> !IsElement(t, Parent(b) + [k])
  }

  predicate InContext(r: Run, n: Node) {
    match r.context
    case Single(node) => n == node
    case Several(nodes) => n in nodes
  }

  /** The leftmost compound selector must be reachable from the context. */
  ghost predicate Reachable(r: Run, lead: Option<Combinator>, n: Node) {
    (lead.None? && (r.xml || r.nested))
    || exists a :: IsNode(r.doc, a) && (IsElement(r.doc, a) || lead.None? || lead.value in {Descendant, Child})
                   && Related(r.doc, OrDescendant(lead), a, n) && InContext(r, a)
  }

  /** One token of the selector holds between the node chosen before it and the one chosen after it. */
  ghost predicate Holds(r: Run, token: Token, a: Node, b: Node) {
    match token
    case Simple(test) => a == b && IsNode(r.doc, b) && test in At(r.doc, b).passes
    case Relative(c) => IsNode(r.doc, a) && IsElement(r.doc, a) && Related(r.doc, c, a, b)
  }

  /** `w[i]` is the node chosen for the compound selector that token `i` belongs to or follows. */
  ghost predicate Chain(r: Run, lead: Option<Combinator>, body: seq<Token>, w: seq<Node>) {
    |w| == |body| + 1 && Reachable(r, lead, w[0]) && forall i | 0 <= i < |body| :: Holds(r, body[i], w[i], w[i + 1])
  }

  ghost predicate Selects(r: Run, tokens: Complex, n: Node) {
    exists w :: Chain(r, LeadingOf(tokens), BodyOf(tokens), w) && w[|w| - 1] == n
  }

  // ---------------------------------------------------------------------------------------------
  // A combinator's walk finds exactly the related nodes

  /** A node the combinator stops at. */
  ghost predicate Accepts(m: Matcher, r: Run, a: Node)
    requires m.Combine?
  {
    IsNode(r.doc, a) && Candidate(r.doc, m.combinator, m.base, a) && Eval(m.inner, r, a)
  }

  lemma AncestorsOneMore(m: Matcher, r: Run, n: Node)
    requires m.Combine? && n != []
    ensures (exists a :: IsAncestor(a, n) && Accepts(m, r, a)) <==>
      Accepts(m, r, Parent(n)) || exists a :: IsAncestor(a, Parent(n)) && Accepts(m, r, a)
  {
    hide Accepts;
    forall a ensures IsAncestor(a, n) <==> a == Parent(n) || IsAncestor(a, Parent(n)) {
      if IsAncestor(a, n) && |a| < |n| - 1 {
        assert n[..|a|] == Parent(n)[..|a|];
      }
    }
  }

  lemma BeyondAncestor(m: Matcher, r: Run, n: Node)
    requires m.Combine? && m.combinator.Descendant? && n != [] && IsNode(r.doc, n) && IsNode(r.doc, Parent(n))
    ensures Beyond(m, r, n) == (Accepts(m, r, Parent(n)) || Beyond(m, r, Parent(n)))
  {
  }

  lemma {:induction false} WalkAncestors(m: Matcher, r: Run, n: Node)
    requires m.Combine? && m.combinator.Descendant? && IsNode(r.doc, n)
    ensures Beyond(m, r, n) <==> exists a :: IsAncestor(a, n) && Accepts(m, r, a)
    decreases |n|
  {
    if n != [] {
      hide Beyond, Accepts, IsAncestor;
      ParentIsNode(r.doc, n);
      WalkAncestors(m, r, Parent(n));
      BeyondAncestor(m, r, n);
      AncestorsOneMore(m, r, n);
    }
  }

  lemma WalkParent(m: Matcher, r: Run, n: Node)
    requires m.Combine? && m.combinator.Child? && IsNode(r.doc, n) && WellFormed(r.doc)
    ensures Beyond(m, r, n) <==> n != [] && Accepts(m, r, Parent(n))
  {
    if n != [] {
      ParentIsNode(r.doc, n);
      assert At(r.doc, Parent(n)).children != [];
      assert Beyond(m, r, n) == From(m, r, Parent(n));
      if Parent(n) != [] {
        assert IsElement(r.doc, Parent(n));
      } else {
        assert !Beyond(m, r, Parent(n));
      }
    }
  }

  lemma PreviousIsLatest(n: Node)
    requires n != [] && Index(n) > 0
    ensures forall a ::
      IsEarlierSibling(a, n) <==> a == PreviousSibling(n).value || IsEarlierSibling(a, PreviousSibling(n).value)
  {
    var p := PreviousSibling(n).value;
    assert Parent(p) == Parent(n) && Index(p) == Index(n) - 1;
    forall a | IsEarlierSibling(a, n) && Index(a) == Index(p) ensures a == p {
      assert a == Parent(a) + [Index(a)];
    }
  }

  lemma SiblingsOneMore(m: Matcher, r: Run, n: Node)
    requires m.Combine? && n != [] && Index(n) > 0
    ensures var p := PreviousSibling(n).value;
      (exists a :: IsEarlierSibling(a, n) && Accepts(m, r, a)) <==>
        Accepts(m, r, p) || exists a :: IsEarlierSibling(a, p) && Accepts(m, r, a)
  {
    PreviousIsLatest(n);
    hide Accepts, IsEarlierSibling;
  }

  lemma BeyondSibling(m: Matcher, r: Run, n: Node)
    requires m.Combine? && m.combinator.Sibling? && IsNode(r.doc, n) && n != [] && Index(n) > 0
    requires IsNode(r.doc, PreviousSibling(n).value)
    ensures var p := PreviousSibling(n).value; Beyond(m, r, n) == (Accepts(m, r, p) || Beyond(m, r, p))
  {
  }

  lemma {:induction false} WalkSiblings(m: Matcher, r: Run, n: Node)
    requires m.Combine? && m.combinator.Sibling? && IsNode(r.doc, n)
    ensures Beyond(m, r, n) <==> exists a :: IsEarlierSibling(a, n) && Accepts(m, r, a)
    decreases Rank(ToPrevious, n)
  {
    if n != [] && Index(n) > 0 {
      hide Beyond, Accepts, IsEarlierSibling;
      StepIsNode(r.doc, ToPrevious, n);
      WalkSiblings(m, r, PreviousSibling(n).value);
      BeyondSibling(m, r, n);
      SiblingsOneMore(m, r, n);
    }
  }

  lemma {:induction false} WalkAdjacent(m: Matcher, r: Run, n: Node)
    requires m.Combine? && m.combinator.Adjacent? && IsNode(r.doc, n)
    ensures Beyond(m, r, n) <==> exists a :: Related(r.doc, Adjacent, a, n) && Accepts(m, r, a)
    decreases Rank(ToPrevious, n)
  {
    if n != [] && Index(n) > 0 {
      var p := PreviousSibling(n).value;
      StepIsNode(r.doc, ToPrevious, n);
      WalkAdjacent(m, r, p);
      PreviousIsLatest(n);
      assert Parent(p) == Parent(n) && p == Parent(n) + [Index(p)];
      if IsElement(r.doc, p) {
        assert Related(r.doc, Adjacent, p, n);
        forall a | Related(r.doc, Adjacent, a, n) ensures a == p {
        }
      } else {
        assert !Accepts(m, r, p);
        forall a | a != p ensures Related(r.doc, Adjacent, a, n) <==> Related(r.doc, Adjacent, a, p) {
          if Related(r.doc, Adjacent, a, p) {
            forall k | Index(a) < k < Index(n) && IsNode(r.doc, Parent(n) + [k])
              ensures !IsElement(r.doc, Parent(n) + [k])
            {
              assert k == Index(p) || IsNode(r.doc, Parent(p) + [k]);
            }
          }
        }
      }
    }
  }

  /** Whatever the combinator, the walk answers "some related candidate matches". */
  lemma WalkFindsRelated(m: Matcher, r: Run, n: Node)
    requires m.Combine? && IsNode(r.doc, n) && WellFormed(r.doc)
    ensures Eval(m, r, n) <==> exists a :: Related(r.doc, m.combinator, a, n) && Accepts(m, r, a)
  {
    match m.combinator
    case Descendant => WalkAncestors(m, r, n);
    case Child => WalkParent(m, r, n);
    case Sibling => WalkSiblings(m, r, n);
    case Adjacent => WalkAdjacent(m, r, n);
  }

  lemma BaseChecksReachable(r: Run, lead: Option<Combinator>, done: nat, n: Node)
    requires IsNode(r.doc, n) && WellFormed(r.doc)
    ensures Eval(Base(lead, done), r, n) <==> Reachable(r, lead, n)
  {
    var base := Base(lead, done);
    WalkFindsRelated(base.matchContext, r, n);
    WalkFindsRelated(base.matchAnyContext, r, n);
    forall a | IsNode(r.doc, a)
      ensures InContext(r, a) == if r.context.Single? then Eval(IsContext, r, a) else Eval(IsInContexts, r, a)
    {
    }
  }

  // ---------------------------------------------------------------------------------------------
  // Compiler correctness

  ghost predicate AllEval(ms: seq<Matcher>, r: Run, n: Node)
    requires IsNode(r.doc, n)
  {
    forall i | 0 <= i < |ms| :: Eval(ms[i], r, n)
  }

  lemma EvalElementMatcher(ms: seq<Matcher>, r: Run, n: Node)
    requires ms != [] && IsNode(r.doc, n)
    ensures Eval(ElementMatcher(ms), r, n) <==> AllEval(ms, r, n)
  {
  }

  /** Some choice of nodes ending in `n` satisfies the tokens read so far. */
  ghost predicate Chained(r: Run, lead: Option<Combinator>, body: seq<Token>, n: Node) {
    exists w :: Chain(r, lead, body, w) && w[|w| - 1] == n
  }

  lemma ChainedEmpty(r: Run, lead: Option<Combinator>, n: Node)
    ensures Chained(r, lead, [], n) <==> Reachable(r, lead, n)
  {
    if Reachable(r, lead, n) {
      assert Chain(r, lead, [], [n]) && [n][|[n]| - 1] == n;
    }
  }

  lemma ChainShorter(r: Run, lead: Option<Combinator>, body: seq<Token>, w: seq<Node>)
    requires body != [] && Chain(r, lead, body, w)
    ensures Chained(r, lead, Front(body), w[|body| - 1]) && Holds(r, Last(body), w[|body| - 1], w[|body|])
  {
    var shorter := w[..|body|];
    forall i | 0 <= i < |body| - 1 ensures Holds(r, Front(body)[i], shorter[i], shorter[i + 1]) {
      assert Holds(r, body[i], w[i], w[i + 1]);
    }
    assert Chain(r, lead, Front(body), shorter) && shorter[|shorter| - 1] == w[|body| - 1];
  }

  lemma ChainLonger(r: Run, lead: Option<Combinator>, body: seq<Token>, w: seq<Node>, n: Node)
    requires body != [] && Chain(r, lead, Front(body), w) && Holds(r, Last(body), w[|w| - 1], n)
    ensures Chained(r, lead, body, n)
  {
    var longer := w + [n];
    forall i | 0 <= i < |body| ensures Holds(r, body[i], longer[i], longer[i + 1]) {
      if i < |body| - 1 {
        assert Holds(r, Front(body)[i], w[i], w[i + 1]);
      }
    }
    assert Chain(r, lead, body, longer) && longer[|longer| - 1] == n;
  }

  lemma ChainedSnoc(r: Run, lead: Option<Combinator>, body: seq<Token>, n: Node)
    requires body != []
    ensures Chained(r, lead, body, n) <==> exists a :: Chained(r, lead, Front(body), a) && Holds(r, Last(body), a, n)
  {
    if Chained(r, lead, body, n) {
      var w :| Chain(r, lead, body, w) && w[|w| - 1] == n;
      ChainShorter(r, lead, body, w);
    }
    if a :| Chained(r, lead, Front(body), a) && Holds(r, Last(body), a, n) {
      var w :| Chain(r, lead, Front(body), w) && w[|w| - 1] == a;
      ChainLonger(r, lead, body, w, n);
    }
  }

  lemma PushedFilter(ms: seq<Matcher>, m: Matcher, r: Run, n: Node)
    requires IsNode(r.doc, n)
    ensures AllEval(ms + [m], r, n) <==> AllEval(ms, r, n) && Eval(m, r, n)
  {
    assert (ms + [m])[|ms|] == m;
    assert forall i | 0 <= i < |ms| :: (ms + [m])[i] == ms[i];
  }

  lemma WrappedInCombinator(m: Matcher, lead: Option<Combinator>, body: seq<Token>, r: Run, n: Node)
    requires IsNode(r.doc, n) && WellFormed(r.doc)
    requires m.Combine? && !m.base
    requires forall a | IsNode(r.doc, a) :: Eval(m.inner, r, a) <==> Chained(r, lead, body, a)
    ensures Eval(m, r, n) <==> exists a :: Chained(r, lead, body, a) && Holds(r, Relative(m.combinator), a, n)
  {
    WalkFindsRelated(m, r, n);
  }

  lemma {:induction false} CompiledMeansChained(lead: Option<Combinator>, body: seq<Token>, done: nat, r: Run, n: Node)
    requires IsNode(r.doc, n) && WellFormed(r.doc)
    ensures AllEval(Compiled(lead, body, done), r, n) <==> Chained(r, lead, body, n)
    decreases |body|
  {
    if body == [] {
      ChainedEmpty(r, lead, n);
      BaseChecksReachable(r, lead, done, n);
      return;
    }
    var ms := Compiled(lead, Front(body), done);
    ChainedSnoc(r, lead, body, n);
    match Last(body)
    case Simple(test) =>
      CompiledMeansChained(lead, Front(body), done, r, n);
      PushedFilter(ms, Filter(test), r, n);
    case Relative(c) =>
      forall a | IsNode(r.doc, a) ensures Eval(ElementMatcher(ms), r, a) <==> Chained(r, lead, Front(body), a) {
        CompiledMeansChained(lead, Front(body), done, r, a);
        EvalElementMatcher(ms, r, a);
      }
      WrappedInCombinator(Compiled(lead, body, done)[0], lead, Front(body), r, n);
  }

  /** Compiler correctness: the closure built from any token list decides the selector. */
  lemma CompilerCorrect(tokens: Complex, done: nat, r: Run, n: Node)
    requires IsNode(r.doc, n) && WellFormed(r.doc)
    ensures Eval(Compile(tokens, done), r, n) <==> Selects(r, tokens, n)
  {
    CompiledMeansChained(LeadingOf(tokens), BodyOf(tokens), done, r, n);
    EvalElementMatcher(Compiled(LeadingOf(tokens), BodyOf(tokens), done), r, n);
  }
}
