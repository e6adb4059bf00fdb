/**
  Selectors with a position, such as `ul > li:eq(2).foo`: what the compiler makes of the tokens before and after the
  positional pseudo, and what the set matcher then selects, in terms of section 8 of W3C Selectors Level 3. Groups
  may mix any number of them with other selectors; everything runs on one engine, with its caches.
 */
module Positional {
  import opened Wrappers
  import opened Dom
  import opened Selector
  import SetMatcher
  import Sizzle
  import SuperMatcher

  /** The tokens before the pseudo, the pseudo, and the tokens after it, among which there is no combinator. */
  datatype Positioned =
    Positioned(before: Option<Complex>, position: SetMatcher.Positional, after: Option<Complex>)

  /** The closure that a part of the tokens is compiled to. */
  function CompiledPart(part: Option<Complex>, done: nat): Option<Matcher> {
    match part
    case None => None
    case Some(tokens) => Some(Compile(tokens, done))
  }

  function CompiledOf(s: Positioned, done: nat): SetMatcher.Compiled {
    SetMatcher.Compiled(CompiledPart(s.before, done), s.position, CompiledPart(s.after, DoneAfter(s.before, done)))
  }

  /** Compiling takes two names for the context, also when the pseudo comes first, and one for every combinator. */
  function DoneAfter(part: Option<Complex>, done: nat): nat {
    done + 2 + if part.None? then 0 else Relatives(BodyOf(part.value))
  }

  // ---------------------------------------------------------------------------------------------
  // What a position means

  ghost predicate Meets(r: Run, part: Option<Complex>, n: Node) {
    part.None? || Selects(r, part.value, n)
  }

  /** How many of the first `k` entries hold an element that the part selects. */
  ghost function Count(r: Run, part: Option<Complex>, left: seq<Option<Node>>, k: nat): nat
    requires k <= |left|
  {
    if k == 0 then 0
    else
      Count(r, part, left, k - 1) + if left[k - 1].Some? && Meets(r, part, left[k - 1].value) then 1 else 0
  }

  /** With tokens before it, a position counts the elements they select; without, it is the index in the array. */
  ghost predicate InPosition(r: Run, s: Positioned, left: seq<Option<Node>>, k: nat)
    requires k < |left|
  {
    if s.before.None? then SetMatcher.Picked(s.position, |left|, k)
    else SetMatcher.Picked(s.position, Count(r, s.before, left, |left|), Count(r, s.before, left, k))
  }

  ghost predicate SelectsAt(r: Run, s: Positioned, left: seq<Option<Node>>, k: nat)
    requires k < |left|
  {
    left[k].Some? && Meets(r, s.before, left[k].value) && InPosition(r, s, left, k) && Meets(r, s.after, left[k].value)
  }

  ghost predicate AllNodes(r: Run, left: seq<Option<Node>>) {
    forall k | 0 <= k < |left| && left[k].Some? :: IsNode(r.doc, left[k].value)
  }

  /** A compiled part passes exactly the elements it selects. */
  lemma PartIsMet(r: Run, part: Option<Complex>, done: nat, v: Option<Node>)
    requires WellFormed(r.doc) && (v.Some? ==> IsNode(r.doc, v.value))
    ensures SetMatcher.Passes(SetMatcher.FilterOf(CompiledPart(part, done), r), v) <==>
      v.Some? && Meets(r, part, v.value)
  {
    if part.Some? && v.Some? {
      CompilerCorrect(part.value, done, r, v.value);
    }
  }

  lemma {:induction false} CountIsPlace(r: Run, part: Option<Complex>, done: nat, left: seq<Option<Node>>, k: nat)
    requires WellFormed(r.doc) && AllNodes(r, left) && k <= |left|
    ensures |SetMatcher.Indexes(left[..k], SetMatcher.FilterOf(CompiledPart(part, done), r))| == Count(r, part, left, k)
  {
    hide Meets, SetMatcher.FilterOf, CompiledPart;
    if k > 0 {
      CountIsPlace(r, part, done, left, k - 1);
      assert left[..k][..k - 1] == left[..k - 1];
      PartIsMet(r, part, done, left[k - 1]);
    }
  }

  /** The pseudo chooses the elements that its first part selects and that are in position. */
  lemma ChosenIsInPosition(r: Run, s: Positioned, done: nat, left: seq<Option<Node>>, k: nat)
    requires WellFormed(r.doc) && AllNodes(r, left) && k < |left|
    ensures SetMatcher.Chosen(SetMatcher.FilterOf(CompiledPart(s.before, done), r), s.position, left, k) <==>
      left[k].Some? && Meets(r, s.before, left[k].value) && InPosition(r, s, left, k)
  {
    hide Count, SetMatcher.Indexes;
    PartIsMet(r, s.before, done, left[k]);
    CountIsPlace(r, s.before, done, left, k);
    CountIsPlace(r, s.before, done, left, |left|);
    assert left[..|left|] == left;
  }

  /** The set matcher that a selector with a position is compiled to finds exactly what the selector means. */
  lemma PositionedCorrect(r: Run, s: Positioned, done: nat, left: seq<Option<Node>>, k: nat)
    requires WellFormed(r.doc) && AllNodes(r, left) && k < |left|
    ensures var m := SetMatcher.SpecOf(CompiledOf(s, done), r);
      SetMatcher.After(m.preFilter, m.p, m.postFilter, left, [], k).1.Some? <==> SelectsAt(r, s, left, k)
  {
    hide Count, Meets, SetMatcher.Indexes, SetMatcher.FilterOf, SetMatcher.Chosen, InPosition;
    var m := SetMatcher.SpecOf(CompiledOf(s, done), r);
    SetMatcher.MatchesExactly(m.preFilter, m.p, m.postFilter, left, k);
    ChosenIsInPosition(r, s, done, left, k);
    PartIsMet(r, s.before, done, left[k]);
    PartIsMet(r, s.after, DoneAfter(s.before, done), left[k]);
  }

  // ---------------------------------------------------------------------------------------------
  // A group of selectors, some of them with a position

  /** What neither a selector without a position selects nor one with a position has found, at its own index. */
  ghost function Left(r: Run, plain: seq<Complex>, seed: seq<Node>, found: set<nat>): (left: seq<Option<Node>>)
    ensures |left| == |seed|
    ensures forall k | 0 <= k < |seed| ::
      left[k] == if Sizzle.SomeSelects(r, plain, seed[k]) || k in found then None else Some(seed[k])
  {
    seq(|seed|, k requires 0 <= k < |seed| =>
      if Sizzle.SomeSelects(r, plain, seed[k]) || k in found then None else Some(seed[k]))
  }

  /**
    The indexes found after one more selector with a position: those it selects among the elements left, and those
    found before, which it judges again by what follows its pseudo if nothing comes before the pseudo.
   */
  ghost function FoundNext(r: Run, plain: seq<Complex>, s: Positioned, seed: seq<Node>, found: set<nat>): set<nat> {
    set k: nat | k < |seed| &&
      if k in found then s.before.Some? || Meets(r, s.after, seed[k])
      else SelectsAt(r, s, Left(r, plain, seed, found), k)
  }

  ghost function Found(r: Run, plain: seq<Complex>, ss: seq<Positioned>, seed: seq<Node>): set<nat> {
    if ss == [] then {} else FoundNext(r, plain, ss[|ss| - 1], seed, Found(r, plain, ss[..|ss| - 1], seed))
  }

  /** Selected without a position, or found by the selectors with a position, which run in this order. */
  ghost predicate GroupSelects(r: Run, plain: seq<Complex>, ss: seq<Positioned>, seed: seq<Node>, k: nat)
    requires k < |seed|
  {
    Sizzle.SomeSelects(r, plain, seed[k]) || k in Found(r, plain, ss, seed)
  }

  /** The two arrays of the set matchers when these indexes have been found. */
  ghost function ArraysOf(r: Run, plain: seq<Complex>, seed: seq<Node>, found: set<nat>): (a: SetMatcher.Arrays)
    ensures |a.0| == |seed|
  {
    (Left(r, plain, seed, found), seq(|seed|, k requires 0 <= k < |seed| => if k in found then Some(seed[k]) else None))
  }

  ghost predicate NotPlain(r: Run, plain: seq<Complex>, seed: seq<Node>, found: set<nat>) {
    forall k | k in found :: k < |seed| && !Sizzle.SomeSelects(r, plain, seed[k])
  }

  lemma NextIsNotPlain(r: Run, plain: seq<Complex>, s: Positioned, seed: seq<Node>, found: set<nat>)
    requires NotPlain(r, plain, seed, found)
    ensures NotPlain(r, plain, seed, FoundNext(r, plain, s, seed, found))
  {
    hide Sizzle.SomeSelects, InPosition, Meets;
  }

  /** One set matcher on the arrays. */
  lemma StageFinds(r: Run, plain: seq<Complex>, s: Positioned, done: nat, seed: seq<Node>, found: set<nat>)
    requires WellFormed(r.doc) && (forall n | n in seed :: IsNode(r.doc, n)) && NotPlain(r, plain, seed, found)
    ensures SetMatcher.Stage(SetMatcher.SpecOf(CompiledOf(s, done), r), ArraysOf(r, plain, seed, found)) ==
      ArraysOf(r, plain, seed, FoundNext(r, plain, s, seed, found))
  {
    hide Sizzle.SomeSelects, InPosition, Meets, SetMatcher.Chosen, SetMatcher.FilterOf, CompiledPart;
    var m := SetMatcher.SpecOf(CompiledOf(s, done), r);
    var a, next := ArraysOf(r, plain, seed, found), FoundNext(r, plain, s, seed, found);
    var b := ArraysOf(r, plain, seed, next);
    forall k | 0 <= k < |seed|
      ensures SetMatcher.After(m.preFilter, m.p, m.postFilter, a.0, a.1, k) == (b.0[k], b.1[k])
    {
      StageFindsAt(r, plain, s, done, seed, found, k);
    }
    var stage := SetMatcher.Stage(m, a);
    assert stage.0 == b.0 && stage.1 == b.1;
  }

  lemma StageFindsAt(r: Run, plain: seq<Complex>, s: Positioned, done: nat, seed: seq<Node>, found: set<nat>, k: nat)
    requires WellFormed(r.doc) && (forall n | n in seed :: IsNode(r.doc, n)) && NotPlain(r, plain, seed, found)
    requires k < |seed|
    ensures var m, a := SetMatcher.SpecOf(CompiledOf(s, done), r), ArraysOf(r, plain, seed, found);
      var b := ArraysOf(r, plain, seed, FoundNext(r, plain, s, seed, found));
      SetMatcher.After(m.preFilter, m.p, m.postFilter, a.0, a.1, k) == (b.0[k], b.1[k])
  {
    hide Sizzle.SomeSelects, InPosition, Meets, SetMatcher.Chosen, SetMatcher.FilterOf;
    var m, a := SetMatcher.SpecOf(CompiledOf(s, done), r), ArraysOf(r, plain, seed, found);
    assert seed[k] in seed;
    ChosenIsInPosition(r, s, done, a.0, k);
    PartIsMet(r, s.after, DoneAfter(s.before, done), Some(seed[k]));
    SetMatcher.SomeFilter(CompiledPart(s.before, done), r);
    SetMatcher.SomeFilter(CompiledPart(s.after, DoneAfter(s.before, done)), r);
    assert SetMatcher.At(a.0, k) == a.0[k] && SetMatcher.At(a.1, k) == a.1[k];
    MeetsNothing(r, s.after, seed[k]);
  }

  lemma MeetsNothing(r: Run, part: Option<Complex>, n: Node)
    ensures part.None? ==> Meets(r, part, n)
  {
  }

  /** The set matchers were compiled from these selectors. */
  ghost predicate SetsFrom(sets: seq<SetMatcher.Compiled>, names: seq<nat>, ss: seq<Positioned>) {
    |sets| == |names| == |ss| && forall j | 0 <= j < |ss| :: sets[j] == CompiledOf(ss[j], names[j])
  }

  lemma {:induction false} StagesFind(r: Run, plain: seq<Complex>, sets: seq<SetMatcher.Compiled>, names: seq<nat>,
                                      ss: seq<Positioned>, seed: seq<Node>)
    requires WellFormed(r.doc) && (forall n | n in seed :: IsNode(r.doc, n)) && SetsFrom(sets, names, ss)
    ensures NotPlain(r, plain, seed, Found(r, plain, ss, seed))
    ensures SetMatcher.Stages(SetMatcher.SpecsOf(sets, r), ArraysOf(r, plain, seed, {})) ==
      ArraysOf(r, plain, seed, Found(r, plain, ss, seed))
  {
    hide SetMatcher.Stage, CompiledOf, FoundNext;
    if ss != [] {
      var last := |ss| - 1;
      StagesFind(r, plain, sets[..last], names[..last], ss[..last], seed);
      assert SetMatcher.SpecsOf(sets, r)[..last] == SetMatcher.SpecsOf(sets[..last], r);
      NextIsNotPlain(r, plain, ss[last], seed, Found(r, plain, ss[..last], seed));
      StageFinds(r, plain, ss[last], names[last], seed, Found(r, plain, ss[..last], seed));
    }
  }

  /** The compiled group makes a result of exactly the elements that the group selects. */
  lemma GroupCorrect(r: Run, matchers: seq<Matcher>, firstNames: seq<nat>, plain: seq<Complex>,
                     sets: seq<SetMatcher.Compiled>, names: seq<nat>, ss: seq<Positioned>, seed: seq<Node>, k: nat)
    requires WellFormed(r.doc) && k < |seed| && forall n | n in seed :: IsNode(r.doc, n)
    requires Sizzle.CompiledFrom(matchers, firstNames, plain) && SetsFrom(sets, names, ss)
    ensures SuperMatcher.IsResult(SuperMatcher.ByMatchers(matchers, r), SetMatcher.SpecsOf(sets, r), seed, k) <==>
      GroupSelects(r, plain, ss, seed, k)
  {
    hide SetMatcher.Stages, SetMatcher.SpecsOf, Found, Sizzle.SomeSelects;
    var byElement := SuperMatcher.ByMatchers(matchers, r);
    forall i | 0 <= i < |seed|
      ensures SuperMatcher.Accepted(byElement, seed[i]) <==> Sizzle.SomeSelects(r, plain, seed[i])
    {
      AcceptedIsSelected(r, matchers, firstNames, plain, seed[i]);
    }
    var start := SetMatcher.Aligned(SuperMatcher.Unmatched(byElement, seed), []);
    assert start.0 == Left(r, plain, seed, {}) && start.1 == ArraysOf(r, plain, seed, {}).1;
    StagesFind(r, plain, sets, names, ss, seed);
  }

  lemma AcceptedIsSelected(r: Run, matchers: seq<Matcher>, firstNames: seq<nat>, plain: seq<Complex>, n: Node)
    requires WellFormed(r.doc) && IsNode(r.doc, n) && Sizzle.CompiledFrom(matchers, firstNames, plain)
    ensures SuperMatcher.Accepted(SuperMatcher.ByMatchers(matchers, r), n) <==> Sizzle.SomeSelects(r, plain, n)
  {
    Sizzle.SomeAcceptsIsSomeSelects(matchers, firstNames, plain, r, n);
    assert Sizzle.SomeAccepts(matchers, r, n) <==> exists i | 0 <= i < |matchers| :: Eval(matchers[i], r, n);
  }

  /** Those elements of the seed, in seed order. */
  ghost function Selected(r: Run, plain: seq<Complex>, ss: seq<Positioned>, seed: seq<Node>, n: nat): seq<Node>
    requires n <= |seed|
  {
    if n == 0 then []
    else
      Selected(r, plain, ss, seed, n - 1) + if GroupSelects(r, plain, ss, seed, n - 1) then [seed[n - 1]] else []
  }

  lemma {:induction false} ResultsAreSelected(r: Run, matchers: seq<Matcher>, firstNames: seq<nat>, plain: seq<Complex>,
                                              sets: seq<SetMatcher.Compiled>, names: seq<nat>, ss: seq<Positioned>,
                                              seed: seq<Node>, n: nat)
    requires WellFormed(r.doc) && n <= |seed| && forall e | e in seed :: IsNode(r.doc, e)
    requires Sizzle.CompiledFrom(matchers, firstNames, plain) && SetsFrom(sets, names, ss)
    ensures SuperMatcher.Results(SuperMatcher.ByMatchers(matchers, r), SetMatcher.SpecsOf(sets, r), seed, n) ==
      Selected(r, plain, ss, seed, n)
  {
    hide GroupSelects, SuperMatcher.IsResult, SuperMatcher.ByMatchers, SetMatcher.SpecsOf;
    if n > 0 {
      ResultsAreSelected(r, matchers, firstNames, plain, sets, names, ss, seed, n - 1);
      GroupCorrect(r, matchers, firstNames, plain, sets, names, ss, seed, n - 1);
    }
  }

  /** Without positions the group selects what its selectors select one by one. */
  lemma {:induction false} PlainGroupIsMatching(r: Run, plain: seq<Complex>, seed: seq<Node>, n: nat)
    requires n <= |seed|
    ensures Selected(r, plain, [], seed, n) == Sizzle.Matching(r, plain, seed[..n])
  {
    if n > 0 {
      PlainGroupIsMatching(r, plain, seed, n - 1);
      assert seed[..n][..n - 1] == seed[..n - 1];
    }
  }

  // ---------------------------------------------------------------------------------------------
  // Compiling and running a group

  /** One selector of a group. */
  datatype Member = Plain(tokens: Complex) | WithPosition(positioned: Positioned)

  function PlainsOf(group: seq<Member>): seq<Complex> {
    if group == [] then []
    else (if group[0].Plain? then [group[0].tokens] else []) + PlainsOf(group[1..])
  }

  /** The selectors with a position in the order in which they run: the last one of the group first. */
  function PositionedOf(group: seq<Member>): seq<Positioned> {
    if group == [] then []
    else PositionedOf(group[1..]) + if group[0].WithPosition? then [group[0].positioned] else []
  }

  ghost predicate InGroup(r: Run, group: seq<Member>, seed: seq<Node>, k: nat)
    requires k < |seed|
  {
    GroupSelects(r, PlainsOf(group), PositionedOf(group), seed, k)
  }

  /** The elements of the seed that the group selects, in seed order. */
  ghost function ResultsOf(r: Run, group: seq<Member>, seed: seq<Node>): seq<Node> {
    Selected(r, PlainsOf(group), PositionedOf(group), seed, |seed|)
  }

  /** The positional branch of `matcherFromTokens`: both parts are compiled, in this order, under fresh names. */
  method CompileParts(engine: Sizzle.Engine, s: Positioned) returns (m: SetMatcher.Compiled)
    requires engine.Valid()
    modifies engine`done, engine`named
    ensures engine.Valid() && m == CompiledOf(s, old(engine.done)) && SetMatcher.Known(m, engine.named)
    ensures forall d | d in old(engine.named) :: d in engine.named && engine.named[d] == old(engine.named)[d]
  {
    var pre: Option<Matcher>, post: Option<Matcher> := None, None;
    if s.before.Some? {
      var m := engine.MatcherFromTokens(s.before.value);
      pre := Some(m);
    } else {
      var matchContext := engine.AddCombinator(IsContext, Descendant, true);
      var matchAnyContext := engine.AddCombinator(IsInContexts, Descendant, true);
    }
    ghost var named := engine.named;
    if s.after.Some? {
      var m := engine.MatcherFromTokens(s.after.value);
      post := Some(m);
    }
    if pre.Some? {
      Sizzle.RegisteredGrows(pre.value, named, engine.named);
    }
    m := SetMatcher.Compiled(pre, s.position, post);
  }

  lemma KnownGrows(m: SetMatcher.Compiled, named: map<nat, Matcher>, more: map<nat, Matcher>)
    requires SetMatcher.Known(m, named) && forall d | d in named :: d in more && more[d] == named[d]
    ensures SetMatcher.Known(m, more)
  {
    if m.preFilter.Some? {
      Sizzle.RegisteredGrows(m.preFilter.value, named, more);
    }
    if m.postFilter.Some? {
      Sizzle.RegisteredGrows(m.postFilter.value, named, more);
    }
  }

  /** The group is compiled from its last selector to its first. */
  method CompileGroup(engine: Sizzle.Engine, group: seq<Member>)
      returns (matchers: seq<Matcher>, sets: seq<SetMatcher.Compiled>,
               ghost firstNames: seq<nat>, ghost order: seq<Complex>, ghost names: seq<nat>)
    requires engine.Valid()
    modifies engine`done, engine`named
    ensures engine.Valid() && forall m | m in matchers :: Sizzle.Registered(m, engine.named)
    ensures forall j | 0 <= j < |sets| :: SetMatcher.Known(sets[j], engine.named)
    ensures Sizzle.CompiledFrom(matchers, firstNames, order) && SetsFrom(sets, names, PositionedOf(group))
    ensures forall g :: g in order <==> g in PlainsOf(group)
  {
    hide CompiledOf, Compile, Sizzle.Registered, SetMatcher.Known;
    matchers, sets, firstNames, order, names := [], [], [], [], [];
    var i := |group|;
    while i > 0
      invariant 0 <= i <= |group| && engine.Valid()
      invariant forall j | 0 <= j < |matchers| :: Sizzle.Registered(matchers[j], engine.named)
      invariant forall j | 0 <= j < |sets| :: SetMatcher.Known(sets[j], engine.named)
      invariant Sizzle.CompiledFrom(matchers, firstNames, order) && SetsFrom(sets, names, PositionedOf(group[i..]))
      invariant forall g :: g in order <==> g in PlainsOf(group[i..])
    {
      i := i - 1;
      assert group[i..][1..] == group[i + 1..];
      ghost var done, named := engine.done, engine.named;
      match group[i] {
        case Plain(tokens) =>
          var cached := engine.MatcherFromTokens(tokens);
          matchers, firstNames, order := matchers + [cached], firstNames + [done], order + [tokens];
        case WithPosition(s) =>
          var m := CompileParts(engine, s);
          sets, names := sets + [m], names + [done];
      }
      forall j | 0 <= j < |matchers| ensures Sizzle.Registered(matchers[j], engine.named) {
        if Sizzle.Registered(matchers[j], named) {
          Sizzle.RegisteredGrows(matchers[j], named, engine.named);
        }
      }
      forall j | 0 <= j < |sets| ensures SetMatcher.Known(sets[j], engine.named) {
        if SetMatcher.Known(sets[j], named) {
          KnownGrows(sets[j], named, engine.named);
        }
      }
    }
  }

  /**
    Compiling any group of selectors, with and without positions, and matching a seed against it: whatever was run on
    the engine before, the results are exactly the elements that the group selects, each once and in seed order.
   */
  method SelectGroup(engine: Sizzle.Engine, group: seq<Member>, seed: seq<Node>, doc: Tree, context: Context, xml: bool)
      returns (results: seq<Node>)
    requires engine.Valid() && WellFormed(doc) && forall n | n in seed :: IsNode(doc, n)
    modifies engine
    ensures engine.Valid()
    ensures results == ResultsOf(Run(doc, context, context == Single([]), xml), group, seed)
  {
    hide Selected, SuperMatcher.Results, SetMatcher.SpecsOf, SuperMatcher.ByMatchers, SetsFrom, Sizzle.CompiledFrom;
    var matchers, sets, firstNames, order, names := CompileGroup(engine, group);
    results := SuperMatcher.SuperMatch(engine, matchers, sets, seed, doc, context, xml);
    ResultsAreSelected(engine.run, matchers, firstNames, order, sets, names, PositionedOf(group), seed, |seed|);
    OrderDoesNotMatter(engine.run, order, PlainsOf(group), PositionedOf(group), seed, |seed|);
  }

  /** Only which selectors without a position there are matters, not their order. */
  lemma {:induction false} OrderDoesNotMatter(r: Run, order: seq<Complex>, plain: seq<Complex>, ss: seq<Positioned>,
                                              seed: seq<Node>, n: nat)
    requires n <= |seed| && forall g :: g in order <==> g in plain
    ensures Selected(r, order, ss, seed, n) == Selected(r, plain, ss, seed, n)
  {
    hide Found;
    if n > 0 {
      OrderDoesNotMatter(r, order, plain, ss, seed, n - 1);
      FoundInAnyOrder(r, order, plain, ss, seed);
    }
  }

  lemma {:induction false} FoundInAnyOrder(r: Run, order: seq<Complex>, plain: seq<Complex>, ss: seq<Positioned>,
                                           seed: seq<Node>)
    requires forall g :: g in order <==> g in plain
    ensures Found(r, order, ss, seed) == Found(r, plain, ss, seed)
  {
    hide Meets, InPosition;
    if ss != [] {
      var found := Found(r, plain, ss[..|ss| - 1], seed);
      FoundInAnyOrder(r, order, plain, ss[..|ss| - 1], seed);
      assert Left(r, order, seed, found) == Left(r, plain, seed, found);
    }
  }

  // ---------------------------------------------------------------------------------------------
  // Positions and the other selectors of the group

  /** The group selects at this index what its selectors select one by one. */
  ghost predicate UnionAt(r: Run, plain: seq<Complex>, s: Positioned, seed: seq<Node>, k: nat)
    requires k < |seed|
  {
    GroupSelects(r, plain, [s], seed, k) <==>
      Sizzle.SomeSelects(r, plain, seed[k]) || GroupSelects(r, [], [s], seed, k)
  }

  lemma OneSelects(r: Run, plain: seq<Complex>, s: Positioned, seed: seq<Node>, k: nat)
    requires k < |seed|
    ensures GroupSelects(r, plain, [s], seed, k) <==>
      Sizzle.SomeSelects(r, plain, seed[k]) || SelectsAt(r, s, Left(r, plain, seed, {}), k)
  {
    hide Sizzle.SomeSelects, SelectsAt;
    assert [s][..0] == [];
    assert Found(r, plain, [s], seed) == FoundNext(r, plain, s, seed, {});
  }

  /** Of the elements that a position counts, the other selectors take the one at `j` and leave the one at `k`. */
  ghost predicate Divides(r: Run, plain: seq<Complex>, before: Option<Complex>, seed: seq<Node>, j: nat, k: nat)
    requires j < |seed| && k < |seed|
  {
    && Meets(r, before, seed[j]) && Sizzle.SomeSelects(r, plain, seed[j])
    && Meets(r, before, seed[k]) && !Sizzle.SomeSelects(r, plain, seed[k])
  }

  /** That happens, and the one left would also pass what follows the position. */
  ghost predicate Divided(r: Run, plain: seq<Complex>, before: Option<Complex>, after: Option<Complex>, seed: seq<Node>)
  {
    exists j: nat, k: nat | j < |seed| && k < |seed| ::
      Divides(r, plain, before, seed, j, k) && Meets(r, after, seed[k])
  }

  lemma NothingIsPlain(r: Run, seed: seq<Node>)
    ensures Left(r, [], seed, {}) == seq(|seed|, k requires 0 <= k < |seed| => Some(seed[k]))
  {
    forall k | 0 <= k < |seed| ensures Left(r, [], seed, {})[k] == Some(seed[k]) {
      assert !Sizzle.SomeSelects(r, [], seed[k]);
    }
  }

  /** A selector without a position takes an element that counts. */
  ghost predicate Takes(r: Run, plain: seq<Complex>, part: Option<Complex>, seed: seq<Node>, j: nat)
    requires j < |seed|
  {
    Meets(r, part, seed[j]) && Sizzle.SomeSelects(r, plain, seed[j])
  }

  lemma CountStep(r: Run, plain: seq<Complex>, part: Option<Complex>, seed: seq<Node>, n: nat)
    requires n < |seed|
    ensures var few, all := Left(r, plain, seed, {}), Left(r, [], seed, {});
      Count(r, part, all, n + 1) - Count(r, part, few, n + 1) ==
        Count(r, part, all, n) - Count(r, part, few, n) + if Takes(r, plain, part, seed, n) then 1 else 0
  {
    hide Meets, Sizzle.SomeSelects;
    NothingIsPlain(r, seed);
  }

  /** Taking elements away can only make the count smaller, and does when one of them counted. */
  lemma {:induction false} CountShrinks(r: Run, plain: seq<Complex>, part: Option<Complex>, seed: seq<Node>, n: nat)
    requires n <= |seed|
    ensures var few, all := Count(r, part, Left(r, plain, seed, {}), n), Count(r, part, Left(r, [], seed, {}), n);
      few <= all && (few == all <==> forall j: nat | j < n :: !Takes(r, plain, part, seed, j))
  {
    hide Count, Takes, Left;
    if n > 0 {
      CountShrinks(r, plain, part, seed, n - 1);
      CountStep(r, plain, part, seed, n - 1);
    } else {
      NoCount(r, part, Left(r, plain, seed, {}));
      NoCount(r, part, Left(r, [], seed, {}));
    }
  }

  lemma NoCount(r: Run, part: Option<Complex>, left: seq<Option<Node>>)
    ensures Count(r, part, left, 0) == 0
  {
  }

  lemma {:induction false} CountGrows(r: Run, part: Option<Complex>, left: seq<Option<Node>>, k: nat, n: nat)
    requires k < n <= |left| && left[k].Some? && Meets(r, part, left[k].value)
    ensures Count(r, part, left, k) < Count(r, part, left, n)
    decreases n
  {
    if k < n - 1 {
      CountGrows(r, part, left, k, n - 1);
    }
  }

  /** Where nothing is divided, a group selects the union of what its selectors select. */
  lemma UndividedIsUnion(r: Run, plain: seq<Complex>, s: Positioned, seed: seq<Node>, k: nat)
    requires k < |seed| && (s.before.None? || !Divided(r, plain, s.before, s.after, seed))
    ensures UnionAt(r, plain, s, seed, k)
  {
    hide Meets, Sizzle.SomeSelects, Count, GroupSelects;
    NothingIsPlain(r, seed);
    NothingSelectsNothing(r, seed[k]);
    OneSelects(r, plain, s, seed, k);
    OneSelects(r, [], s, seed, k);
    if !Sizzle.SomeSelects(r, plain, seed[k]) && s.before.Some? && Meets(r, s.before, seed[k])
       && Meets(r, s.after, seed[k])
    {
      forall j: nat | j < |seed| ensures !Takes(r, plain, s.before, seed, j) {
        assert !Divides(r, plain, s.before, seed, j, k);
      }
      CountShrinks(r, plain, s.before, seed, k);
      CountShrinks(r, plain, s.before, seed, |seed|);
    }
  }

  /** Where something is divided, some position selects an element that it does not select on its own. */
  lemma DividedIsNotUnion(r: Run, plain: seq<Complex>, before: Option<Complex>, after: Option<Complex>, seed: seq<Node>,
                          j: nat, k: nat)
      returns (p: SetMatcher.Positional)
    requires before.Some? && j < |seed| && k < |seed| && Divides(r, plain, before, seed, j, k)
    requires Meets(r, after, seed[k])
    ensures !UnionAt(r, plain, Positioned(before, p, after), seed, k)
  {
    hide Sizzle.SomeSelects, Count, Meets, GroupSelects;
    NothingIsPlain(r, seed);
    var few, all := Left(r, plain, seed, {}), Left(r, [], seed, {});
    var place: int, total: int := Count(r, before, few, k), Count(r, before, few, |seed|);
    assert Takes(r, plain, before, seed, j);
    CountGrows(r, before, few, k, |seed|);
    CountShrinks(r, plain, before, seed, k);
    CountShrinks(r, plain, before, seed, |seed|);
    p := if Count(r, before, all, k) != place then SetMatcher.Eq(place) else SetMatcher.Eq(place - total);
    assert SelectsAt(r, Positioned(before, p, after), few, k);
    assert !InPosition(r, Positioned(before, p, after), all, k);
    NothingSelectsNothing(r, seed[k]);
    OneSelects(r, plain, Positioned(before, p, after), seed, k);
    OneSelects(r, [], Positioned(before, p, after), seed, k);
  }

  lemma NothingSelectsNothing(r: Run, n: Node)
    ensures !Sizzle.SomeSelects(r, [], n)
  {
  }

  /**
    A position is counted among the elements that the other selectors of the group leave. Whatever the position, the
    group selects the union of what its selectors select iff nothing is counted before the position, or the others do
    not take one of the elements counted and leave another one that passes what follows.
   */
  lemma GroupIsUnionIff(r: Run, plain: seq<Complex>, before: Option<Complex>, after: Option<Complex>, seed: seq<Node>)
    ensures (forall p: SetMatcher.Positional, k: nat | k < |seed| ::
               UnionAt(r, plain, Positioned(before, p, after), seed, k)) <==>
      before.None? || !Divided(r, plain, before, after, seed)
  {
    hide UnionAt, Divides, Meets;
    if before.Some? && Divided(r, plain, before, after, seed) {
      var j: nat, k: nat :|
        j < |seed| && k < |seed| && Divides(r, plain, before, seed, j, k) && Meets(r, after, seed[k]);
      var p := DividedIsNotUnion(r, plain, before, after, seed, j, k);
    } else {
      forall p: SetMatcher.Positional, k: nat | k < |seed|
        ensures UnionAt(r, plain, Positioned(before, p, after), seed, k)
      {
        UndividedIsUnion(r, plain, Positioned(before, p, after), seed, k);
      }
    }
  }

  /** With the document as context, a selector of one test selects the nodes that pass it. */
  lemma OneTestSelects(r: Run, test: nat, n: Node)
    requires r.nested && IsNode(r.doc, n)
    ensures Selects(r, [Simple(test)], n) <==> test in At(r.doc, n).passes
  {
    var tokens: Complex := [Simple(test)];
    if test in At(r.doc, n).passes {
      assert Chain(r, LeadingOf(tokens), BodyOf(tokens), [n, n]);
    }
    if w :| Chain(r, LeadingOf(tokens), BodyOf(tokens), w) && w[|w| - 1] == n {
      assert Holds(r, tokens[0], w[0], w[1]);
    }
  }

  /** Two elements that pass test 1, the first of which also passes test 2. */
  const TWO_ITEMS := Tree(false, {}, [Tree(true, {1, 2}, []), Tree(true, {1}, [])])

  const IN_TWO_ITEMS := Run(TWO_ITEMS, Single([]), true, false)

  const FIRST_ITEM := Positioned(Some([Simple(1)]), SetMatcher.Eq(0), None)

  lemma TwoItemsSelect()
    ensures WellFormed(TWO_ITEMS) && IsNode(TWO_ITEMS, [0]) && IsNode(TWO_ITEMS, [1])
    ensures Selects(IN_TWO_ITEMS, [Simple(1)], [0]) && Selects(IN_TWO_ITEMS, [Simple(1)], [1])
    ensures Selects(IN_TWO_ITEMS, [Simple(2)], [0]) && !Selects(IN_TWO_ITEMS, [Simple(2)], [1])
  {
    hide Selects;
    forall n | IsNode(TWO_ITEMS, n) && n != [] ensures At(TWO_ITEMS, n).children == [] {
      var item, rest := TWO_ITEMS.children[n[0]], n[1..];
      assert IsNode(item, rest) && item.children == [];
      assert rest == [];
    }
    assert At(TWO_ITEMS, [0]).passes == {1, 2} && At(TWO_ITEMS, [1]).passes == {1};
    OneTestSelects(IN_TWO_ITEMS, 1, [0]);
    OneTestSelects(IN_TWO_ITEMS, 1, [1]);
    OneTestSelects(IN_TWO_ITEMS, 2, [0]);
    OneTestSelects(IN_TWO_ITEMS, 2, [1]);
  }

  /**
    Both selectors of a group like `.active, li:eq(0)` select only the first of two list items, which is active, but
    the group selects both: the first is not counted any more.
   */
  lemma GroupSelectsMore()
    ensures var r, seed, plain := IN_TWO_ITEMS, [[0], [1]], [[Simple(2)]];
      && Sizzle.Matching(r, plain, seed) == [[0]]
      && Selected(r, [], [FIRST_ITEM], seed, 2) == [[0]]
      && Selected(r, plain, [FIRST_ITEM], seed, 2) == seed
  {
    hide Selects, GroupSelects, SelectsAt;
    var r, seed: seq<Node>, plain: seq<Complex> := IN_TWO_ITEMS, [[0], [1]], [[Simple(2)]];
    TwoItemsSelect();
    assert plain[0] in plain;
    assert Sizzle.SomeSelects(r, plain, [0]) && !Sizzle.SomeSelects(r, plain, [1]);
    var first := seed[..1];
    assert first[..0] == [] && Sizzle.Matching(r, plain, first) == [[0]];
    NothingIsPlain(r, seed);
    NothingSelectsNothing(r, [0]);
    NothingSelectsNothing(r, [1]);
    FirstOfTwo(r, Left(r, [], seed, {}), Left(r, plain, seed, {}));
    OneSelects(r, [], FIRST_ITEM, seed, 0);
    OneSelects(r, [], FIRST_ITEM, seed, 1);
    OneSelects(r, plain, FIRST_ITEM, seed, 0);
    OneSelects(r, plain, FIRST_ITEM, seed, 1);
    assert Selected(r, [], [FIRST_ITEM], seed, 1) == [[0]];
    assert Selected(r, plain, [FIRST_ITEM], seed, 1) == [[0]];
  }

  /** Which item is the first: of two, or of the second one alone. */
  lemma FirstOfTwo(r: Run, both: seq<Option<Node>>, second: seq<Option<Node>>)
    requires r == IN_TWO_ITEMS && both == [Some([0]), Some([1])] && second == [None, Some([1])]
    ensures SelectsAt(r, FIRST_ITEM, both, 0) && !SelectsAt(r, FIRST_ITEM, both, 1)
    ensures SelectsAt(r, FIRST_ITEM, second, 1)
  {
    hide Selects;
    TwoItemsSelect();
    var part := FIRST_ITEM.before;
    assert Count(r, part, both, 0) == 0 && Count(r, part, both, 1) == 1 && Count(r, part, both, 2) == 2;
    assert Count(r, part, second, 0) == 0 && Count(r, part, second, 1) == 0 && Count(r, part, second, 2) == 1;
  }

  // ---------------------------------------------------------------------------------------------
  // The order of the selectors in a group

  /** What the group does not select, at its own index. */
  ghost function NotIn(r: Run, group: seq<Member>, seed: seq<Node>): (left: seq<Option<Node>>)
    ensures |left| == |seed|
    ensures forall k: nat | k < |seed| :: left[k] == if InGroup(r, group, seed, k) then None else Some(seed[k])
  {
    seq(|seed|, k requires 0 <= k < |seed| => if InGroup(r, group, seed, k) then None else Some(seed[k]))
  }

  /**
    A selector with a position that stands in front of a group is judged on what the group does not select. It adds what
    it selects there, and takes something away only if nothing precedes its pseudo and something follows it.
   */
  lemma FrontIsJudgedLast(r: Run, s: Positioned, group: seq<Member>, seed: seq<Node>, k: nat)
    requires k < |seed|
    ensures InGroup(r, [WithPosition(s)] + group, seed, k) <==>
      if InGroup(r, group, seed, k) then
        Sizzle.SomeSelects(r, PlainsOf(group), seed[k]) || s.before.Some? || Meets(r, s.after, seed[k])
      else SelectsAt(r, s, NotIn(r, group, seed), k)
  {
    hide Sizzle.SomeSelects, Meets, SelectsAt, PlainsOf, PositionedOf;
    var plain, ss := PlainsOf(group), PositionedOf(group);
    FrontComesLast(s, group);
    assert (ss + [s])[..|ss|] == ss;
    NotInIsLeft(r, group, seed);
    SelectedAreLeft(r, s, NotIn(r, group, seed), k);
  }

  lemma FrontComesLast(s: Positioned, group: seq<Member>)
    ensures PlainsOf([WithPosition(s)] + group) == PlainsOf(group)
    ensures PositionedOf([WithPosition(s)] + group) == PositionedOf(group) + [s]
  {
    assert ([WithPosition(s)] + group)[1..] == group && [] + PlainsOf(group) == PlainsOf(group);
  }

  lemma NotInIsLeft(r: Run, group: seq<Member>, seed: seq<Node>)
    ensures NotIn(r, group, seed) ==
      Left(r, PlainsOf(group), seed, Found(r, PlainsOf(group), PositionedOf(group), seed))
  {
    hide Sizzle.SomeSelects, Found, PlainsOf, PositionedOf;
  }

  lemma SelectedAreLeft(r: Run, s: Positioned, left: seq<Option<Node>>, k: nat)
    requires k < |left|
    ensures SelectsAt(r, s, left, k) ==> left[k].Some?
  {
  }

  /** Without a position, what the group selects does not depend on the order. */
  lemma PlainGroupSelects(r: Run, group: seq<Member>, seed: seq<Node>, k: nat)
    requires k < |seed| && PositionedOf(group) == []
    ensures InGroup(r, group, seed, k) <==> Sizzle.SomeSelects(r, PlainsOf(group), seed[k])
  {
  }

  /** How many elements before index `k` the selector selects. */
  ghost function Place(r: Run, a: Complex, seed: seq<Node>, k: nat): nat
    requires k <= |seed|
  {
    |Sizzle.Matching(r, [a], seed[..k])|
  }

  lemma PlaceStep(r: Run, a: Complex, seed: seq<Node>, k: nat)
    requires k < |seed|
    ensures Place(r, a, seed, k + 1) == Place(r, a, seed, k) + if Selects(r, a, seed[k]) then 1 else 0
    ensures Sizzle.Matching(r, [a], seed[..k + 1]) ==
      Sizzle.Matching(r, [a], seed[..k]) + if Selects(r, a, seed[k]) then [seed[k]] else []
  {
    hide Selects;
    assert seed[..k + 1][..k] == seed[..k];
    assert [a][0] in [a];
  }

  /** Counting the elements that are left when the one at place `y` has been found. */
  lemma {:induction false} CountSkips(r: Run, a: Complex, seed: seq<Node>, left: seq<Option<Node>>, y: int, k: nat)
    requires k <= |seed| == |left|
    requires forall i: nat | i < |seed| ::
      left[i] == if Selects(r, a, seed[i]) && Place(r, a, seed, i) == y then None else Some(seed[i])
    ensures Count(r, Some(a), left, k) == Place(r, a, seed, k) - if 0 <= y < Place(r, a, seed, k) then 1 else 0
  {
    hide Selects, Place;
    if k > 0 {
      CountSkips(r, a, seed, left, y, k - 1);
      PlaceStep(r, a, seed, k - 1);
    } else {
      NothingBeforeTheFirst(r, a, seed);
    }
  }

  lemma NothingBeforeTheFirst(r: Run, a: Complex, seed: seq<Node>)
    ensures Place(r, a, seed, 0) == 0
  {
    assert seed[..0] == [];
  }

  function EqOf(a: Complex, x: int): Member {
    WithPosition(Positioned(Some(a), SetMatcher.Eq(x), None))
  }

  /** One selector `A:eq(y)` takes the element at place `y`. */
  lemma OnePosition(r: Run, a: Complex, seed: seq<Node>, p: SetMatcher.Positional, k: nat)
    requires k < |seed|
    ensures InGroup(r, [WithPosition(Positioned(Some(a), p, None))], seed, k) <==>
      Selects(r, a, seed[k]) && SetMatcher.Picked(p, Place(r, a, seed, |seed|), Place(r, a, seed, k))
  {
    hide Selects, Place, Count, SetMatcher.Picked;
    var group := [WithPosition(Positioned(Some(a), p, None))];
    var none: seq<Member> := [];
    assert [WithPosition(Positioned(Some(a), p, None))] + none == group;
    FrontIsJudgedLast(r, Positioned(Some(a), p, None), none, seed, k);
    forall i: nat | i < |seed| ensures !InGroup(r, none, seed, i) {
      PlainGroupSelects(r, none, seed, i);
      NothingSelectsNothing(r, seed[i]);
    }
    NoPlaceIsNegative(r, a, seed);
    CountSkips(r, a, seed, NotIn(r, none, seed), -1, k);
    CountSkips(r, a, seed, NotIn(r, none, seed), -1, |seed|);
  }

  lemma NoPlaceIsNegative(r: Run, a: Complex, seed: seq<Node>)
    ensures forall i: nat | i < |seed| :: Place(r, a, seed, i) != -1
  {
  }

  /**
    The group `A:eq(x), A:eq(y)`: the second selector takes the element at place `y`, and the first one the element that
    is then at place `x`.
   */
  lemma TwoPositions(r: Run, a: Complex, seed: seq<Node>, x: nat, y: nat, k: nat)
    requires k < |seed|
    ensures InGroup(r, [EqOf(a, x), EqOf(a, y)], seed, k) <==>
      && Selects(r, a, seed[k])
      && (Place(r, a, seed, k) == y
          || Place(r, a, seed, k) == if x < y || y >= Place(r, a, seed, |seed|) then x else x + 1)
  {
    hide Selects, Place, Count;
    assert [EqOf(a, x)] + [EqOf(a, y)] == [EqOf(a, x), EqOf(a, y)];
    FrontIsJudgedLast(r, EqOf(a, x).positioned, [EqOf(a, y)], seed, k);
    forall i: nat | i < |seed|
      ensures InGroup(r, [EqOf(a, y)], seed, i) <==> Selects(r, a, seed[i]) && Place(r, a, seed, i) == y
    {
      OnePosition(r, a, seed, SetMatcher.Eq(y), i);
      if Selects(r, a, seed[i]) {
        PlacesGrow(r, a, seed, i, |seed|);
      }
    }
    var left := NotIn(r, [EqOf(a, y)], seed);
    CountSkips(r, a, seed, left, y, k);
    CountSkips(r, a, seed, left, y, |seed|);
    if Selects(r, a, seed[k]) {
      PlacesGrow(r, a, seed, k, |seed|);
    }
  }

  lemma {:induction false} PlacesGrow(r: Run, a: Complex, seed: seq<Node>, k: nat, n: nat)
    requires k < n <= |seed| && Selects(r, a, seed[k])
    ensures Place(r, a, seed, k) < Place(r, a, seed, n)
    decreases n
  {
    hide Selects, Place;
    PlaceStep(r, a, seed, n - 1);
    if k < n - 1 {
      PlacesGrow(r, a, seed, k, n - 1);
    }
  }

  // ---------------------------------------------------------------------------------------------
  // What the pseudos select, as lists

  /** The entries at the wanted places. */
  function AtPlaces(m: seq<Node>, wanted: nat -> bool): seq<Node> {
    if m == [] then [] else AtPlaces(m[..|m| - 1], wanted) + if wanted(|m| - 1) then [m[|m| - 1]] else []
  }

  lemma {:induction false} ResultsAtPlaces(r: Run, a: Complex, group: seq<Member>, seed: seq<Node>, wanted: nat -> bool,
                                           n: nat)
    requires n <= |seed|
    requires forall k: nat | k < |seed| ::
      InGroup(r, group, seed, k) <==> Selects(r, a, seed[k]) && wanted(Place(r, a, seed, k))
    ensures Selected(r, PlainsOf(group), PositionedOf(group), seed, n) ==
      AtPlaces(Sizzle.Matching(r, [a], seed[..n]), wanted)
  {
    hide Selects, GroupSelects;
    if n > 0 {
      ResultsAtPlaces(r, a, group, seed, wanted, n - 1);
      PlaceStep(r, a, seed, n - 1);
      var m := Sizzle.Matching(r, [a], seed[..n - 1]);
      assert InGroup(r, group, seed, n - 1) <==> GroupSelects(r, PlainsOf(group), PositionedOf(group), seed, n - 1);
      assert (m + [seed[n - 1]])[..|m|] == m && m + [] == m;
    } else {
      assert seed[..0] == [];
    }
  }

  /** A number between 0 and `high`. */
  function Between(x: int, high: nat): (r: nat)
    ensures r <= high
  {
    if x < 0 then 0 else if x > high then high else x
  }

  function OneOf(x: nat, y: nat): nat -> bool {
    place => place == x || place == y
  }

  lemma {:induction false} OneOfPlaces(m: seq<Node>, x: nat, y: nat)
    requires x < y
    ensures AtPlaces(m, OneOf(x, y)) == (if x < |m| then [m[x]] else []) + (if y < |m| then [m[y]] else [])
  {
    if m != [] {
      OneOfPlaces(m[..|m| - 1], x, y);
    }
  }

  /** The group `A:eq(x), A:eq(y)` when its two elements are at the places `i` and `j`. */
  lemma TwoResults(r: Run, a: Complex, seed: seq<Node>, x: nat, y: nat, i: nat, j: nat)
    requires i < j
    requires (i == y && j == if x < y then x else x + 1) || (j == y && i == if x < y then x else x + 1)
    requires var m := Sizzle.Matching(r, [a], seed); y < |m| || m == []
    ensures var m := Sizzle.Matching(r, [a], seed);
      ResultsOf(r, [EqOf(a, x), EqOf(a, y)], seed)
        == (if i < |m| then [m[i]] else []) + (if j < |m| then [m[j]] else [])
  {
    hide Selects, InGroup, AtPlaces;
    var m, group := Sizzle.Matching(r, [a], seed), [EqOf(a, x), EqOf(a, y)];
    assert seed[..|seed|] == seed;
    forall k: nat | k < |seed|
      ensures InGroup(r, group, seed, k) <==> Selects(r, a, seed[k]) && OneOf(i, j)(Place(r, a, seed, k))
    {
      TwoPositions(r, a, seed, x, y, k);
      if Selects(r, a, seed[k]) {
        PlacesGrow(r, a, seed, k, |seed|);
      }
    }
    ResultsAtPlaces(r, a, group, seed, OneOf(i, j), |seed|);
    OneOfPlaces(m, i, j);
  }

  /**
    For every selector and seed: `A:eq(0), A:eq(1)` selects the first two elements that A selects, and
    `A:eq(1), A:eq(0)` the first and the third, because the last selector of a group takes its element first.
   */
  lemma LastSelectorGoesFirst(r: Run, a: Complex, seed: seq<Node>)
    requires |Sizzle.Matching(r, [a], seed)| >= 2
    ensures var m := Sizzle.Matching(r, [a], seed);
      && ResultsOf(r, [EqOf(a, 0), EqOf(a, 1)], seed) == [m[0], m[1]]
      && ResultsOf(r, [EqOf(a, 1), EqOf(a, 0)], seed) == if |m| > 2 then [m[0], m[2]] else [m[0]]
  {
    hide ResultsOf;
    TwoResults(r, a, seed, 0, 1, 0, 1);
    TwoResults(r, a, seed, 1, 0, 0, 2);
  }

  function PickedOf(p: SetMatcher.Positional, length: nat): nat -> bool {
    place => SetMatcher.Picked(p, length, place)
  }

  /** What a pseudo makes of the first `n` entries of a list. */
  ghost predicate Cut(p: SetMatcher.Positional, m: seq<Node>, n: nat, result: seq<Node>)
    requires n <= |m|
  {
    match p
    case First => result == if n > 0 then [m[0]] else []
    case Last => result == if n == |m| > 0 then [m[n - 1]] else []
    case Eq(x) =>
      var place := if x < 0 then |m| + x else x;
      result == if 0 <= place < n then [m[place]] else []
    case Even => |result| == (n + 1) / 2 && forall i | 0 <= i < |result| :: result[i] == m[2 * i]
    case Odd => |result| == n / 2 && forall i | 0 <= i < |result| :: result[i] == m[2 * i + 1]
    case Lt(x) => result == m[..Between(if x < 0 then |m| + x else x, n)]
    case Gt(x) => result == m[Between(if x < 0 then |m| + x + 1 else x + 1, n)..n]
  }

  lemma {:induction false} PickedIsCut(p: SetMatcher.Positional, m: seq<Node>, n: nat)
    requires n <= |m|
    ensures Cut(p, m, n, AtPlaces(m[..n], PickedOf(p, |m|)))
  {
    if n > 0 {
      hide Cut, SetMatcher.Picked;
      PickedIsCut(p, m, n - 1);
      assert m[..n][..n - 1] == m[..n - 1];
      CutOneMore(p, m, n - 1, AtPlaces(m[..n - 1], PickedOf(p, |m|)), AtPlaces(m[..n], PickedOf(p, |m|)));
    } else {
      assert m[..0] == [];
      CutOfNothing(p, m);
    }
  }

  lemma CutOfNothing(p: SetMatcher.Positional, m: seq<Node>)
    ensures Cut(p, m, 0, [])
  {
  }

  lemma CutOneMore(p: SetMatcher.Positional, m: seq<Node>, n: nat, before: seq<Node>, after: seq<Node>)
    requires n < |m| && Cut(p, m, n, before)
    requires after == before + if SetMatcher.Picked(p, |m|, n) then [m[n]] else []
    ensures Cut(p, m, n + 1, after)
  {
    match p
    case Even => EveryOtherOneMore(m, n, 0, before, after);
    case Odd => EveryOtherOneMore(m, n, 1, before, after);
    case Lt(x) => PrefixOneMore(m, n, if x < 0 then |m| + x else x);
    case Gt(x) => SuffixOneMore(m, n, if x < 0 then |m| + x + 1 else x + 1);
    case _ =>
  }

  lemma PrefixOneMore(m: seq<Node>, n: nat, to: int)
    requires n < |m|
    ensures m[..Between(to, n + 1)] == m[..Between(to, n)] + if n < to then [m[n]] else []
  {
  }

  lemma SuffixOneMore(m: seq<Node>, n: nat, from: int)
    requires n < |m|
    ensures m[Between(from, n + 1)..n + 1] == m[Between(from, n)..n] + if n >= from then [m[n]] else []
  {
  }

  lemma EveryOtherOneMore(m: seq<Node>, n: nat, from: nat, before: seq<Node>, after: seq<Node>)
    requires n < |m| && from <= 1 && |before| == (n + 1 - from) / 2
    requires forall i | 0 <= i < |before| :: before[i] == m[2 * i + from]
    requires after == before + if n % 2 == from then [m[n]] else []
    ensures |after| == (n + 2 - from) / 2 && forall i | 0 <= i < |after| :: after[i] == m[2 * i + from]
  {
  }

  /**
    What a single selector `A:p` selects of the elements that A selects: the first or last one, the one counted from
    either end, every other one from the first or the second on, or all before or after one.
   */
  lemma PositionCutsList(r: Run, a: Complex, p: SetMatcher.Positional, seed: seq<Node>)
    ensures var m := Sizzle.Matching(r, [a], seed);
      Cut(p, m, |m|, ResultsOf(r, [WithPosition(Positioned(Some(a), p, None))], seed))
  {
    hide Selects, SetMatcher.Picked, Cut;
    var m, group := Sizzle.Matching(r, [a], seed), [WithPosition(Positioned(Some(a), p, None))];
    assert seed[..|seed|] == seed && m[..|m|] == m;
    forall k: nat | k < |seed|
      ensures InGroup(r, group, seed, k) <==>
        Selects(r, a, seed[k]) && PickedOf(p, |m|)(Place(r, a, seed, k))
    {
      OnePosition(r, a, seed, p, k);
    }
    ResultsAtPlaces(r, a, group, seed, PickedOf(p, |m|), |seed|);
    PickedIsCut(p, m, |m|);
  }
}
