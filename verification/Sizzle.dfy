/**
  Sizzle's compiled matchers run with their caches. A combinator that looks at all ancestors or all
  earlier siblings leaves one record in a slot of every node it walks over. All nodes of one walk share
  one record, combinators overwrite each other's slots, and a slot left over from another run or another
  combinator is ignored. The methods prove that none of this changes an answer.
 */
module Sizzle {
  import opened Wrappers
  import opened Dom
  import opened Selector

  /** `[ dirruns, doneName, result ]`, where the result is missing until the first test returns. */
  class CacheRecord {
    const run: nat
    const doneName: nat
    var matched: Option<bool>

    constructor (run: nat, doneName: nat)
      ensures this.run == run && this.doneName == doneName && matched == None
    {
      this.run, this.doneName, matched := run, doneName, None;
    }
  }

  type Slot = (Node, Direction)

  ghost function Names(m: Matcher): set<nat> {
    match m
    case Foundation(_, one, any) => Names(one) + Names(any)
    case Both(ms) => set i, d | 0 <= i < |ms| && d in Names(ms[i]) :: d
    case Combine(_, _, d, inner) => {d} + Names(inner)
    case _ => {}
  }

  /** Every combinator inside `m` is the only one with its name. */
  ghost predicate Registered(m: Matcher, named: map<nat, Matcher>) {
    match m
    case Foundation(_, one, any) => Registered(one, named) && Registered(any, named)
    case Both(ms) => forall i | 0 <= i < |ms| :: Registered(ms[i], named)
    case Combine(_, _, d, inner) => d in named && named[d] == m && d !in Names(inner) && Registered(inner, named)
    case _ => true
  }

  lemma RegisteredInner(m: Matcher, named: map<nat, Matcher>)
    requires Registered(m, named) && m.Combine?
    ensures Registered(m.inner, named) && m.doneName in named && m.doneName !in Names(m.inner)
    ensures Names(m) == {m.doneName} + Names(m.inner)
  {
  }

  lemma {:induction false} RegisteredGrows(m: Matcher, named: map<nat, Matcher>, more: map<nat, Matcher>)
    requires Registered(m, named) && forall d | d in named :: d in more && more[d] == named[d]
    ensures Registered(m, more)
  {
    match m
    case Foundation(_, one, any) =>
      RegisteredGrows(one, named, more);
      RegisteredGrows(any, named, more);
    case Both(ms) =>
      forall i | 0 <= i < |ms| ensures Registered(ms[i], more) {
        RegisteredGrows(ms[i], named, more);
      }
    case Combine(_, _, _, inner) => RegisteredGrows(inner, named, more);
    case _ =>
  }

  /** The record in a slot tells the truth about its node. */
  ghost predicate Truthful(slot: Slot, doneName: nat, matched: Option<bool>, named: map<nat, Matcher>, run: Run) {
    && doneName in named && named[doneName].Combine?
    && DirectionOf(named[doneName].combinator) == slot.1
    && IsNode(run.doc, slot.0)
    && matched == Some(From(named[doneName], run, slot.0))
  }

  /** The walk of `m` has left node `n` behind and stands before `elem`, with nothing found in between. */
  ghost predicate Passed(m: Matcher, r: Run, n: Node, elem: Option<Node>)
    requires m.Combine?
  {
    && IsNode(r.doc, n) && (elem.Some? ==> IsNode(r.doc, elem.value))
    && (elem.Some? ==> Rank(DirectionOf(m.combinator), elem.value) < Rank(DirectionOf(m.combinator), n))
    && From(m, r, n) == (elem.Some? && From(m, r, elem.value))
  }

  lemma PassedOneMore(m: Matcher, r: Run, p: Node)
    requires m.Combine? && IsNode(r.doc, p)
    requires Candidate(r.doc, m.combinator, m.base, p) ==> !FirstOnly(m.combinator) && !Eval(m.inner, r, p)
    ensures Passed(m, r, p, Step(DirectionOf(m.combinator), p))
    ensures forall n | Passed(m, r, n, Some(p)) :: Passed(m, r, n, Step(DirectionOf(m.combinator), p))
  {
    StepIsNode(r.doc, DirectionOf(m.combinator), p);
  }

  /** A walk that has found a match at `p` is right about `p` and about every node it has passed. */
  lemma FoundIsTruth(m: Matcher, r: Run, p: Node, named: map<nat, Matcher>)
    requires Registered(m, named) && m.Combine? && IsNode(r.doc, p) && Candidate(r.doc, m.combinator, m.base, p)
    requires Eval(m.inner, r, p)
    ensures Truthful((p, DirectionOf(m.combinator)), m.doneName, Some(true), named, r)
    ensures forall n | Passed(m, r, n, Some(p)) ::
      Truthful((n, DirectionOf(m.combinator)), m.doneName, Some(true), named, r)
  {
  }

  /** The elements of `elems` that some selector of the group selects, in the order of `elems`. */
  ghost function Matching(r: Run, groups: seq<Complex>, elems: seq<Node>): seq<Node> {
    if elems == [] then []
    else
      var last := elems[|elems| - 1];
      Matching(r, groups, elems[..|elems| - 1])
      + if SomeSelects(r, groups, last) then [last] else []
  }

  class Engine {
    var done: nat
    var dirruns: nat
    var slots: map<Slot, CacheRecord>
    var run: Run
    ghost var named: map<nat, Matcher>

    ghost predicate NamesOk()
      reads this`done, this`named
    {
      forall d | d in named :: d < done
    }

    /**
      Every finished record of the current run, except those of the combinators that are busy right now,
      equals "this node or one further along matches".
     */
    ghost predicate CacheOk(busy: set<nat>)
      reads this`dirruns, this`slots, this`run, this`named, set k | k in slots :: slots[k]
    {
      forall k | k in slots ::
        && slots[k].run <= dirruns
        && (slots[k].run == dirruns && slots[k].doneName !in busy ==>
              Truthful(k, slots[k].doneName, slots[k].matched, named, run))
    }

    ghost predicate Valid()
      reads this, set k | k in slots :: slots[k]
    {
      NamesOk() && CacheOk({})
    }

    constructor ()
      ensures Valid() && named == map[]
    {
      done, dirruns, slots, named := 0, 0, map[], map[];
      run := Run(Tree(false, {}, []), Single([]), true, false);
    }

    /** A slot is only ever replaced, and only by a record of a combinator of `m` made during the call. */
    twostate predicate OnlyReplacedBy(m: Matcher)
      reads this, set k | k in slots :: slots[k]
    {
      forall k | k in slots ::
        (k in old(slots) && slots[k] == old(slots)[k]) || (fresh(slots[k]) && slots[k].doneName in Names(m))
    }

    /** A compiled matcher applied to one node: it answers exactly as the uncached evaluation does. */
    method Match(m: Matcher, n: Node, ghost busy: set<nat>) returns (b: bool)
      requires IsNode(run.doc, n) && Registered(m, named) && Names(m) !! busy && CacheOk(busy)
      modifies this`slots
      ensures b == Eval(m, run, n)
      ensures CacheOk(busy) && OnlyReplacedBy(m)
      decreases m, 2
    {
      match m
      case Filter(test) => b := test in At(run.doc, n).passes;
      case IsContext => b := run.context == Single(n);
      case IsInContexts => b := run.context.Several? && n in run.context.nodes;
      case Foundation(leading, one, any) =>
        if !leading && (run.xml || run.nested) {
          b := true;
        } else if run.context.Single? {
          b := Match(one, n, busy);
        } else {
          b := Match(any, n, busy);
        }
      case Both(ms) =>
        var i := |ms|;
        while i > 0
          invariant 0 <= i <= |ms|
          invariant CacheOk(busy) && OnlyReplacedBy(m)
          invariant forall j | i <= j < |ms| :: Eval(ms[j], run, n)
        {
          i := i - 1;
          label before:
          b := Match(ms[i], n, busy);
          if !b {
            return;
          }
        }
        b := true;
      case Combine(c, base, d, inner) =>
        if FirstOnly(c) {
          b := MatchFirst(m, n, busy);
        } else if run.xml {
          b := MatchUncached(m, n, busy);
        } else {
          b := MatchCached(m, n, busy);
        }
    }

    /** `>` and `+`: the closest element decides. */
    method MatchFirst(m: Matcher, n: Node, ghost busy: set<nat>) returns (b: bool)
      requires m.Combine? && FirstOnly(m.combinator)
      requires IsNode(run.doc, n) && Registered(m, named) && Names(m) !! busy && CacheOk(busy)
      modifies this`slots
      ensures b == Beyond(m, run, n)
      ensures CacheOk(busy) && OnlyReplacedBy(m)
      decreases m, 0
    {
      var dir := DirectionOf(m.combinator);
      StepIsNode(run.doc, dir, n);
      var elem := Step(dir, n);
      while elem.Some?
        invariant elem.Some? ==> IsNode(run.doc, elem.value)
        invariant Beyond(m, run, n) == (elem.Some? && From(m, run, elem.value))
        invariant slots == old(slots)
        decreases if elem.Some? then 1 + Rank(dir, elem.value) else 0
      {
        if Candidate(run.doc, m.combinator, m.base, elem.value) {
          b := Match(m.inner, elem.value, busy);
          return;
        }
        StepIsNode(run.doc, dir, elem.value);
        elem := Step(dir, elem.value);
      }
      b := false;
    }

    /** ` ` and `~` on XML nodes, which cannot carry caches. */
    method MatchUncached(m: Matcher, n: Node, ghost busy: set<nat>) returns (b: bool)
      requires m.Combine? && !FirstOnly(m.combinator)
      requires IsNode(run.doc, n) && Registered(m, named) && Names(m) !! busy && CacheOk(busy)
      modifies this`slots
      ensures b == Beyond(m, run, n)
      ensures CacheOk(busy) && OnlyReplacedBy(m)
      decreases m, 0
    {
      var dir := DirectionOf(m.combinator);
      StepIsNode(run.doc, dir, n);
      var elem := Step(dir, n);
      while elem.Some?
        invariant elem.Some? ==> IsNode(run.doc, elem.value)
        invariant Beyond(m, run, n) == (elem.Some? && From(m, run, elem.value))
        invariant CacheOk(busy) && OnlyReplacedBy(m)
        decreases if elem.Some? then 1 + Rank(dir, elem.value) else 0
      {
        if Candidate(run.doc, m.combinator, m.base, elem.value) {
          b := Match(m.inner, elem.value, busy);
          if b {
            return;
          }
        }
        StepIsNode(run.doc, dir, elem.value);
        elem := Step(dir, elem.value);
      }
      b := false;
    }

    /**
      While the walk of combinator `m` stands before `elem`, a slot with its name holds either an earlier,
      finished record or this walk's shared record `mine`, whose answer is still the answer for `elem`.
     */
    ghost predicate Walking(m: Matcher, mine: CacheRecord, elem: Option<Node>)
      requires m.Combine?
      reads this`dirruns, this`slots, this`run, this`named, set k | k in slots :: slots[k]
    {
      forall k | k in slots && slots[k].run == dirruns && slots[k].doneName == m.doneName ::
        if slots[k] == mine then
          k.1 == DirectionOf(m.combinator) && Passed(m, run, k.0, elem) && mine.matched == Some(false)
        else
          Truthful(k, m.doneName, slots[k].matched, named, run)
    }

    /** A finished walk: the shared record has become the truth about every node that points to it. */
    lemma WalkFinished(m: Matcher, mine: CacheRecord, elem: Option<Node>, busy: set<nat>)
      requires Registered(m, named) && m.Combine?
      requires elem.Some? ==> IsNode(run.doc, elem.value)
      requires CacheOk(busy + {m.doneName}) && Walking(m, mine, elem)
      requires elem.Some? ==> !From(m, run, elem.value)
      ensures CacheOk(busy)
    {
    }

    /** The walk tests a candidate whose slot holds no answer. */
    method Visit(m: Matcher, mine: CacheRecord, p: Node, ghost busy: set<nat>) returns (found: bool)
      requires m.Combine? && !FirstOnly(m.combinator) && mine.run == dirruns && mine.doneName == m.doneName
      requires IsNode(run.doc, p) && Candidate(run.doc, m.combinator, m.base, p)
      requires Registered(m, named) && Names(m) !! busy
      requires CacheOk(busy + {m.doneName}) && Walking(m, mine, Some(p))
      modifies this`slots, mine
      ensures found == Eval(m.inner, run, p)
      ensures CacheOk(busy + {m.doneName})
      ensures found ==> CacheOk(busy)
      ensures Step(DirectionOf(m.combinator), p).Some? ==> IsNode(run.doc, Step(DirectionOf(m.combinator), p).value)
      ensures !found ==> Walking(m, mine, Step(DirectionOf(m.combinator), p))
      ensures forall k | k in slots ::
        || (k in old(slots) && slots[k] == old(slots)[k])
        || slots[k] == mine
        || (fresh(slots[k]) && slots[k].doneName in Names(m))
      decreases m, 0
    {
      hide Eval, From, Passed, Truthful, Candidate, Registered;
      RegisteredInner(m, named);
      var dir := DirectionOf(m.combinator);
      StepIsNode(run.doc, dir, p);
      slots := slots[(p, dir) := mine];
      label tested:
      found := Match(m.inner, p, busy + {m.doneName});
      assert forall k | k in slots && slots[k].doneName == m.doneName ::
        k in old@tested(slots) && slots[k] == old@tested(slots)[k];
      mine.matched := Some(found);
      if found {
        FoundIsTruth(m, run, p, named);
      } else {
        PassedOneMore(m, run, p);
      }
    }

    /** ` ` and `~` with the shared cache slots. */
    method MatchCached(m: Matcher, n: Node, ghost busy: set<nat>) returns (b: bool)
      requires m.Combine? && !FirstOnly(m.combinator)
      requires IsNode(run.doc, n) && Registered(m, named) && Names(m) !! busy && CacheOk(busy)
      modifies this`slots
      ensures b == Beyond(m, run, n)
      ensures CacheOk(busy) && OnlyReplacedBy(m)
      decreases m, 1
    {
      var dir := DirectionOf(m.combinator);
      var newCache := new CacheRecord(dirruns, m.doneName);
      StepIsNode(run.doc, dir, n);
      var elem := Step(dir, n);
      while elem.Some?
        invariant elem.Some? ==> IsNode(run.doc, elem.value)
        invariant Beyond(m, run, n) == (elem.Some? && From(m, run, elem.value))
        invariant CacheOk(busy + {m.doneName}) && OnlyReplacedBy(m)
        invariant Walking(m, newCache, elem)
        decreases if elem.Some? then 1 + Rank(dir, elem.value) else 0
      {
        var p := elem.value;
        if Candidate(run.doc, m.combinator, m.base, p) {
          if (p, dir) in slots && slots[(p, dir)].run == dirruns && slots[(p, dir)].doneName == m.doneName {
            assert Truthful((p, dir), m.doneName, slots[(p, dir)].matched, named, run);
            newCache.matched := slots[(p, dir)].matched;
            b := newCache.matched == Some(true);
            return;
          }
          b := Visit(m, newCache, p, busy);
          if b {
            return;
          }
        }
        StepIsNode(run.doc, dir, p);
        elem := Step(dir, p);
      }
      WalkFinished(m, newCache, elem, busy);
      b := false;
    }

    /** `addCombinator`: a new closure under a name nothing else has. */
    method AddCombinator(inner: Matcher, c: Combinator, base: bool) returns (m: Matcher)
      requires Valid() && Registered(inner, named)
      modifies this`done, this`named
      ensures Valid() && m == Combine(c, base, old(done), inner)
      ensures done == old(done) + 1 && Registered(m, named)
      ensures forall d | d in old(named) :: d in named && named[d] == old(named)[d]
    {
      m := Combine(c, base, done, inner);
      NamesAreRegistered(inner, named);
      named := named[done := m];
      done := done + 1;
      RegisteredGrows(inner, old(named), named);
    }

    /** `matcherFromTokens` for a list without positional tokens. */
    method MatcherFromTokens(tokens: Complex) returns (m: Matcher)
      requires Valid()
      modifies this`done, this`named
      ensures Valid() && m == Compile(tokens, old(done)) && Registered(m, named)
      ensures done == old(done) + 2 + Relatives(BodyOf(tokens))
      ensures forall d | d in old(named) :: d in named && named[d] == old(named)[d]
    {
      var lead, body := LeadingOf(tokens), BodyOf(tokens);
      var matchContext := AddCombinator(IsContext, OrDescendant(lead), true);
      label first:
      var matchAnyContext := AddCombinator(IsInContexts, OrDescendant(lead), true);
      RegisteredGrows(matchContext, old@first(named), named);
      var matchers := [Foundation(lead.Some?, matchContext, matchAnyContext)];
      var i := if lead.Some? then 1 else 0;
      ghost var k := 0;
      assert body[..0] == [];
      while i < |tokens|
        invariant 0 <= k <= |body| && i == k + |tokens| - |body|
        invariant Valid() && matchers == Compiled(lead, body[..k], old(done))
        invariant done == old(done) + 2 + Relatives(body[..k])
        invariant forall j | 0 <= j < |matchers| :: Registered(matchers[j], named)
        invariant forall d | d in old(named) :: d in named && named[d] == old(named)[d]
      {
        assert Front(body[..k + 1]) == body[..k] && Last(body[..k + 1]) == body[k] == tokens[i];
        match tokens[i] {
          case Relative(c) =>
            var combined := AddCombinator(ElementMatcher(matchers), c, false);
            matchers := [combined];
          case Simple(test) =>
            matchers := matchers + [Filter(test)];
        }
        i, k := i + 1, k + 1;
      }
      assert body[..k] == body;
      m := ElementMatcher(matchers);
    }

    /** A new run has a number of its own, so that no record left from an earlier run is used. */
    method StartRun(doc: Tree, context: Context, xml: bool)
      requires Valid()
      modifies this`dirruns, this`run
      ensures Valid() && dirruns == old(dirruns) + 1 && run == Run(doc, context, context == Single([]), xml)
    {
      dirruns := dirruns + 1;
      run := Run(doc, context, context == Single([]), xml);
    }

    /**
      `superMatcher` for element matchers: a new run over the seed elements. The document may have changed
      since the last run; the records left in the slots are then out of date and are not used.
     */
    method SuperMatcher(matchers: seq<Matcher>, seed: seq<Node>, doc: Tree, context: Context, xml: bool)
        returns (results: seq<Node>)
      requires Valid()
      requires forall m | m in matchers :: Registered(m, named)
      requires forall n | n in seed :: IsNode(doc, n)
      modifies this`dirruns, this`run, this`slots
      ensures Valid() && run == Run(doc, context, context == Single([]), xml)
      ensures results == Passing(matchers, run, seed)
    {
      StartRun(doc, context, xml);
      results := [];
      var i := 0;
      while i < |seed|
        invariant 0 <= i <= |seed| && Valid()
        invariant run == Run(doc, context, context == Single([]), xml)
        invariant results == Passing(matchers, run, seed[..i])
      {
        var elem := seed[i];
        var j, matched := 0, false;
        while j < |matchers| && !matched
          invariant 0 <= j <= |matchers| && Valid()
          invariant run == Run(doc, context, context == Single([]), xml)
          invariant matched <==> exists k | 0 <= k < j :: Eval(matchers[k], run, elem)
        {
          matched := Match(matchers[j], elem, {});
          j := j + 1;
        }
        if matched {
          results := results + [elem];
        }
        assert SomeAccepts(matchers, run, elem) <==> exists k | 0 <= k < |matchers| :: Eval(matchers[k], run, elem);
        assert seed[..i + 1][..i] == seed[..i];
        i := i + 1;
      }
      assert seed[..i] == seed;
    }

    /**
      Compiles a group of selectors (the last one first) and matches the seed against it. Whatever was
      compiled and run before with the same caches, the result is the seed elements that section 8 selects.
     */
    method Select(groups: seq<Complex>, seed: seq<Node>, doc: Tree, context: Context, xml: bool)
        returns (results: seq<Node>)
      requires Valid() && WellFormed(doc)
      requires forall n | n in seed :: IsNode(doc, n)
      modifies this
      ensures Valid()
      ensures results == Matching(Run(doc, context, context == Single([]), xml), groups, seed)
    {
      var elementMatchers: seq<Matcher> := [];
      ghost var order: seq<Complex>, firstNames: seq<nat> := [], [];
      var i := |groups|;
      while i > 0
        invariant 0 <= i <= |groups| && Valid()
        invariant forall j | 0 <= j < |elementMatchers| :: Registered(elementMatchers[j], named)
        invariant CompiledFrom(elementMatchers, firstNames, order)
        invariant forall g :: g in order <==> g in groups[i..]
      {
        i := i - 1;
        label before:
        var cached := MatcherFromTokens(groups[i]);
        forall j | 0 <= j < |elementMatchers| ensures Registered(elementMatchers[j], named) {
          RegisteredGrows(elementMatchers[j], old@before(named), named);
        }
        elementMatchers, firstNames := elementMatchers + [cached], firstNames + [old@before(done)];
        order := order + [groups[i]];
      }
      results := SuperMatcher(elementMatchers, seed, doc, context, xml);
      PassingIsMatching(elementMatchers, firstNames, order, run, groups, seed);
    }
  }

  lemma {:induction false} NamesAreRegistered(m: Matcher, named: map<nat, Matcher>)
    requires Registered(m, named)
    ensures Names(m) <= named.Keys
  {
    match m
    case Foundation(_, one, any) =>
      NamesAreRegistered(one, named);
      NamesAreRegistered(any, named);
    case Both(ms) =>
      forall i | 0 <= i < |ms| ensures Names(ms[i]) <= named.Keys {
        NamesAreRegistered(ms[i], named);
      }
    case Combine(_, _, _, inner) => NamesAreRegistered(inner, named);
    case _ =>
  }

  /** The elements of `elems` that some matcher accepts, in the order of `elems`. */
  ghost function Passing(matchers: seq<Matcher>, r: Run, elems: seq<Node>): seq<Node>
    requires forall n | n in elems :: IsNode(r.doc, n)
  {
    if elems == [] then []
    else
      var last := elems[|elems| - 1];
      Passing(matchers, r, elems[..|elems| - 1])
      + if SomeAccepts(matchers, r, last) then [last] else []
  }

  /** Matcher `j` was compiled from selector `order[j]`, starting with combinator name `firstNames[j]`. */
  ghost predicate CompiledFrom(matchers: seq<Matcher>, firstNames: seq<nat>, order: seq<Complex>) {
    && |matchers| == |firstNames| == |order|
    && forall j | 0 <= j < |order| :: matchers[j] == Compile(order[j], firstNames[j])
  }

  ghost predicate SomeAccepts(matchers: seq<Matcher>, r: Run, n: Node)
    requires IsNode(r.doc, n)
  {
    exists m | m in matchers :: Eval(m, r, n)
  }

  ghost predicate SomeSelects(r: Run, groups: seq<Complex>, n: Node) {
    exists g | g in groups :: Selects(r, g, n)
  }

  /** By compiler correctness, accepted by some compiled selector means selected by some selector. */
  lemma SomeAcceptsIsSomeSelects(matchers: seq<Matcher>, firstNames: seq<nat>, order: seq<Complex>, r: Run, n: Node)
    requires WellFormed(r.doc) && IsNode(r.doc, n) && CompiledFrom(matchers, firstNames, order)
    ensures SomeAccepts(matchers, r, n) <==> SomeSelects(r, order, n)
  {
    forall j: nat | j < |order| ensures Eval(matchers[j], r, n) <==> Selects(r, order[j], n) {
      CompilerCorrect(order[j], firstNames[j], r, n);
    }
  }

  lemma {:induction false} PassingIsMatching(matchers: seq<Matcher>, firstNames: seq<nat>, order: seq<Complex>,
                                             r: Run, groups: seq<Complex>, elems: seq<Node>)
    requires WellFormed(r.doc) && forall n | n in elems :: IsNode(r.doc, n)
    requires CompiledFrom(matchers, firstNames, order) && forall g :: g in order <==> g in groups
    ensures Passing(matchers, r, elems) == Matching(r, groups, elems)
  {
    if elems != [] {
      SomeAcceptsIsSomeSelects(matchers, firstNames, order, r, elems[|elems| - 1]);
      PassingIsMatching(matchers, firstNames, order, r, groups, elems[..|elems| - 1]);
    }
  }
}
