/**
  The matcher of a whole group of selectors, called with a seed: elements that an element matcher accepts are
  results at once; the others go through the set matchers, at their own index; in the end both kinds are put
  together again without sorting.
 */
module SuperMatcher {
  import opened Wrappers
  import opened SetMatcher
  import Dom
  import Selector
  import Sizzle

  /** What the element matchers accept together; none of them if there are none. */
  function ByMatchers(matchers: seq<Selector.Matcher>, r: Selector.Run): Option<Elem -> bool> {
    if matchers == [] then None
    else Some(n => Dom.IsNode(r.doc, n) && exists i | 0 <= i < |matchers| :: Selector.Eval(matchers[i], r, n))
  }

  /** Some element matcher accepts the element; without element matchers none does. */
  predicate Accepted(byElement: Option<Elem -> bool>, e: Elem) {
    byElement.Some? && byElement.value(e)
  }

  function ByElement(byElement: Option<Elem -> bool>, seed: seq<Elem>): seq<Elem> {
    if seed == [] then []
    else
      var rest, e := ByElement(byElement, seed[..|seed| - 1]), seed[|seed| - 1];
      if Accepted(byElement, e) then rest + [e] else rest
  }

  /** What is left for the set matchers: a hole for every accepted element. */
  function Unmatched(byElement: Option<Elem -> bool>, seed: seq<Elem>): (r: seq<Option<Elem>>)
    ensures |r| == |seed|
    ensures forall k | 0 <= k < |seed| :: r[k] == if Accepted(byElement, seed[k]) then None else Some(seed[k])
  {
    seq(|seed|, k requires 0 <= k < |seed| => if Accepted(byElement, seed[k]) then None else Some(seed[k]))
  }

  /** The element at index `k` is a result: of an element matcher, or of the set matchers. */
  predicate IsResult(byElement: Option<Elem -> bool>, ms: seq<Spec>, seed: seq<Elem>, k: nat)
    requires k < |seed|
  {
    Accepted(byElement, seed[k]) || Stages(ms, Aligned(Unmatched(byElement, seed), [])).1[k].Some?
  }

  /** The results among the first `n` elements, in seed order. */
  function Results(byElement: Option<Elem -> bool>, ms: seq<Spec>, seed: seq<Elem>, n: nat): seq<Elem>
    requires n <= |seed|
  {
    if n == 0 then []
    else
      Results(byElement, ms, seed, n - 1) + if IsResult(byElement, ms, seed, n - 1) then [seed[n - 1]] else []
  }

  /** The elements that are there, without the holes. */
  function Present(items: seq<Option<Elem>>): seq<Elem> {
    if items == [] then []
    else
      var rest, last := Present(items[..|items| - 1]), items[|items| - 1];
      if last.Some? then rest + [last.value] else rest
  }

  /** The loop over the elements. */
  method MatchElements(engine: Sizzle.Engine, matchers: seq<Selector.Matcher>, seed: seq<Elem>)
      returns (results: seq<Elem>, unmatched: seq<Option<Elem>>, matchedCount: int)
    requires engine.Valid() && forall m | m in matchers :: Sizzle.Registered(m, engine.named)
    requires forall n | n in seed :: Dom.IsNode(engine.run.doc, n)
    modifies engine`slots
    ensures engine.Valid()
    ensures results == ByElement(ByMatchers(matchers, engine.run), seed)
    ensures unmatched == Unmatched(ByMatchers(matchers, engine.run), seed)
    ensures matchedCount == |results|
  {
    hide ByMatchers;
    ghost var byElement := ByMatchers(matchers, engine.run);
    results, unmatched, matchedCount := [], [], 0;
    var i := 0;
    while i < |seed|
      invariant 0 <= i <= |seed| && engine.Valid()
      invariant results == ByElement(byElement, seed[..i]) && unmatched == Unmatched(byElement, seed[..i])
      invariant matchedCount == |results| - i
    {
      var elem := seed[i];
      var matched := MatchesSome(engine, matchers, elem);
      if matched {
        results := results + [elem];
      }
      if !matched {
        matchedCount := matchedCount - 1;
      }
      unmatched := unmatched + [if matched then None else Some(elem)];
      assert seed[..i + 1][..i] == seed[..i];
      i := i + 1;
    }
    assert seed[..i] == seed;
    matchedCount := matchedCount + i;
  }

  /** One element: the first matcher that accepts it ends the loop. */
  method MatchesSome(engine: Sizzle.Engine, matchers: seq<Selector.Matcher>, elem: Elem) returns (matched: bool)
    requires engine.Valid() && forall m | m in matchers :: Sizzle.Registered(m, engine.named)
    requires Dom.IsNode(engine.run.doc, elem)
    modifies engine`slots
    ensures engine.Valid() && matched == Accepted(ByMatchers(matchers, engine.run), elem)
  {
    matched := false;
    var j := 0;
    while j < |matchers| && !matched
      invariant 0 <= j <= |matchers| && engine.Valid()
      invariant matched <==> exists k | 0 <= k < j :: Selector.Eval(matchers[k], engine.run, elem)
    {
      matched := engine.Match(matchers[j], elem, {});
      j := j + 1;
    }
  }

  /** The two arrays hold what the set matchers made of the elements that were left. */
  ghost predicate Staged(byElement: Option<Elem -> bool>, ms: seq<Spec>, seed: seq<Elem>,
                         unmatched: seq<Option<Elem>>, setMatched: seq<Option<Elem>>)
  {
    && |unmatched| == |seed| && |setMatched| <= |seed|
    && Aligned(unmatched, setMatched) == Stages(ms, Aligned(Unmatched(byElement, seed), []))
  }

  /** Every index has its element in one of the arrays, or in neither if an element matcher has accepted it. */
  lemma WhereItIs(byElement: Option<Elem -> bool>, ms: seq<Spec>, seed: seq<Elem>,
                  unmatched: seq<Option<Elem>>, setMatched: seq<Option<Elem>>, k: nat)
    requires k < |seed| && Staged(byElement, ms, seed, unmatched, setMatched)
    ensures unmatched[k].None? && At(setMatched, k).None? <==> Accepted(byElement, seed[k])
    ensures At(setMatched, k).Some? ==> At(setMatched, k) == Some(seed[k])
    ensures IsResult(byElement, ms, seed, k) <==> Accepted(byElement, seed[k]) || At(setMatched, k).Some?
  {
    EveryElementKeepsItsIndex(ms, Unmatched(byElement, seed), k);
    assert Aligned(unmatched, setMatched).1[k] == At(setMatched, k);
    assert Aligned(unmatched, setMatched).0[k] == unmatched[k];
  }

  /** A result at its own index, a hole elsewhere. */
  function Placed(byElement: Option<Elem -> bool>, ms: seq<Spec>, seed: seq<Elem>, k: nat): Option<Elem>
    requires k < |seed|
  {
    if IsResult(byElement, ms, seed, k) then Some(seed[k]) else None
  }

  /** From the back, every index that is in neither array takes the last of the results of the element matchers. */
  method Reintegrate(ghost byElement: Option<Elem -> bool>, ghost ms: seq<Spec>, seed: seq<Elem>, results: seq<Elem>,
                     unmatched: JsArray, setMatched: JsArray)
      returns (left: seq<Elem>)
    requires unmatched != setMatched && Staged(byElement, ms, seed, unmatched.items, setMatched.items)
    requires results == ByElement(byElement, seed)
    modifies setMatched
    ensures left == [] && |setMatched.items| <= |seed|
    ensures forall k: nat | k < |seed| :: At(setMatched.items, k) == Placed(byElement, ms, seed, k)
  {
    hide Stages, IsResult, Unmatched;
    ghost var before := setMatched.items;
    left := results;
    var i := |seed|;
    assert seed[..i] == seed;
    while i > 0
      invariant 0 <= i <= |seed| && |setMatched.items| <= |seed|
      invariant left == ByElement(byElement, seed[..i])
      invariant forall k: nat | k < i :: At(setMatched.items, k) == At(before, k)
      invariant forall k: nat | i <= k < |seed| :: At(setMatched.items, k) == Placed(byElement, ms, seed, k)
    {
      i := i - 1;
      WhereItIs(byElement, ms, seed, unmatched.items, before, i);
      assert seed[..i + 1][..i] == seed[..i];
      if At(unmatched.items, i).None? && At(setMatched.items, i).None? {
        setMatched.Set(i, Some(left[|left| - 1]));
        left := left[..|left| - 1];
      }
    }
    assert seed[..0] == [];
  }

  /** The whole matcher: the results are exactly those elements, each once, in seed order. */
  method SuperMatch(engine: Sizzle.Engine, matchers: seq<Selector.Matcher>, sets: seq<Compiled>, seed: seq<Elem>,
                    doc: Dom.Tree, context: Selector.Context, xml: bool)
      returns (results: seq<Elem>)
    requires engine.Valid() && forall m | m in matchers :: Sizzle.Registered(m, engine.named)
    requires forall j | 0 <= j < |sets| :: Known(sets[j], engine.named)
    requires forall n | n in seed :: Dom.IsNode(doc, n)
    modifies engine`dirruns, engine`run, engine`slots
    ensures engine.Valid() && engine.run == Selector.Run(doc, context, context == Selector.Single([]), xml)
    ensures results == Results(ByMatchers(matchers, engine.run), SpecsOf(sets, engine.run), seed, |seed|)
  {
    hide ByElement, Results, IsResult, Present, Pick, Indexes, ByMatchers, SpecsOf, FilterOf, Stages;
    engine.StartRun(doc, context, xml);
    ghost var byElement, ms := ByMatchers(matchers, engine.run), SpecsOf(sets, engine.run);
    var unmatchedItems: seq<Option<Elem>>, matchedCount: int;
    results, unmatchedItems, matchedCount := MatchElements(engine, matchers, seed);
    if sets != [] && (seed == [] || matchedCount != |seed|) {
      var unmatched := new JsArray(unmatchedItems);
      var setMatched := new JsArray([]);
      SetMatches(engine, sets, unmatched, setMatched);
      StagesKeepLength(ms, Aligned(unmatchedItems, []));
      if matchedCount > 0 {
        results := Reintegrate(byElement, ms, seed, results, unmatched, setMatched);
      } else {
        NoneAccepted(byElement, seed);
        NothingToReintegrate(byElement, ms, seed, unmatched.items, setMatched.items);
      }
      PlacedAreNodes(byElement, ms, seed, doc, setMatched.items);
      NoFilter(engine.run);
      var condensed, _ := Condense(engine, setMatched.items, None);
      var found := Values(condensed);
      PresentIsPicked(setMatched.items);
      PresentIsResults(byElement, ms, seed, setMatched.items, |seed|);
      results := results + found;
    } else {
      ElementsAreResults(byElement, ms, seed, |seed|);
      assert seed[..|seed|] == seed;
    }
  }

  lemma PlacedAreNodes(byElement: Option<Elem -> bool>, ms: seq<Spec>, seed: seq<Elem>, doc: Dom.Tree,
                       items: seq<Option<Elem>>)
    requires forall n | n in seed :: Dom.IsNode(doc, n)
    requires |items| <= |seed| && forall k: nat | k < |seed| :: At(items, k) == Placed(byElement, ms, seed, k)
    ensures AllNodes(doc, items)
  {
    forall k | 0 <= k < |items| && items[k].Some? ensures Dom.IsNode(doc, items[k].value) {
      assert At(items, k) == Placed(byElement, ms, seed, k) && seed[k] in seed;
    }
  }

  /** Appending the elements to the results. */
  method Values(items: seq<Option<Elem>>) returns (values: seq<Elem>)
    ensures values == Present(items)
  {
    values := [];
    var i := 0;
    while i < |items|
      invariant 0 <= i <= |items| && values == Present(items[..i])
    {
      assert items[..i + 1][..i] == items[..i];
      if items[i].Some? {
        values := values + [items[i].value];
      }
      i := i + 1;
    }
    assert items[..i] == items;
  }

  lemma StagesKeepLength(ms: seq<Spec>, a: Arrays)
    ensures |Stages(ms, a).0| == |a.0|
  {
  }

  lemma {:induction false} NoneAccepted(byElement: Option<Elem -> bool>, seed: seq<Elem>)
    ensures |ByElement(byElement, seed)| <= |seed|
    ensures ByElement(byElement, seed) == [] ==> forall e | e in seed :: !Accepted(byElement, e)
    ensures |ByElement(byElement, seed)| == |seed| ==> forall e | e in seed :: Accepted(byElement, e)
  {
    if seed != [] {
      NoneAccepted(byElement, seed[..|seed| - 1]);
      assert seed == seed[..|seed| - 1] + [seed[|seed| - 1]];
    }
  }

  lemma NothingToReintegrate(byElement: Option<Elem -> bool>, ms: seq<Spec>, seed: seq<Elem>,
                             unmatched: seq<Option<Elem>>, setMatched: seq<Option<Elem>>)
    requires Staged(byElement, ms, seed, unmatched, setMatched)
    requires forall e | e in seed :: !Accepted(byElement, e)
    ensures forall k: nat | k < |seed| :: At(setMatched, k) == Placed(byElement, ms, seed, k)
  {
    forall k: nat | k < |seed| ensures At(setMatched, k) == Placed(byElement, ms, seed, k) {
      WhereItIs(byElement, ms, seed, unmatched, setMatched, k);
    }
  }

  lemma {:induction false} PresentIsPicked(items: seq<Option<Elem>>)
    ensures forall i | 0 <= i < |Indexes(items, None)| :: Indexes(items, None)[i] < |items|
    ensures Present(Pick(items, Indexes(items, None))) == Present(items)
  {
    IndexesAreThePassing(items, None);
    if items != [] {
      hide Indexes, Pick, Present;
      var init, last := items[..|items| - 1], items[|items| - 1];
      PresentIsPicked(init);
      PickedOneMore(init, last);
      assert init + [last] == items;
      var part := Pick(init, Indexes(init, None));
      PresentOneMore(part, last);
      PresentOneMore(init, last);
      assert part + [] == part;
    }
  }

  lemma PickedOneMore(init: seq<Option<Elem>>, last: Option<Elem>)
    ensures forall i | 0 <= i < |Indexes(init, None)| :: Indexes(init, None)[i] < |init|
    ensures forall i | 0 <= i < |Indexes(init + [last], None)| :: Indexes(init + [last], None)[i] < |init| + 1
    ensures Pick(init + [last], Indexes(init + [last], None)) ==
      Pick(init, Indexes(init, None)) + if last.Some? then [last] else []
  {
    IndexesAreThePassing(init, None);
    IndexesAreThePassing(init + [last], None);
    assert (init + [last])[..|init|] == init;
  }

  lemma PresentOneMore(init: seq<Option<Elem>>, last: Option<Elem>)
    ensures Present(init + [last]) == Present(init) + if last.Some? then [last.value] else []
  {
    assert (init + [last])[..|init|] == init;
  }

  lemma {:induction false} PresentIsResults(byElement: Option<Elem -> bool>, ms: seq<Spec>, seed: seq<Elem>,
                                            items: seq<Option<Elem>>, n: nat)
    requires |items| <= n <= |seed|
    requires forall k: nat | k < n :: At(items, k) == Placed(byElement, ms, seed, k)
    ensures Present(items) == Results(byElement, ms, seed, n)
    decreases n
  {
    if n > 0 {
      assert At(items, n - 1) == Placed(byElement, ms, seed, n - 1);
      var init := if |items| == n then items[..n - 1] else items;
      forall k: nat | k < n - 1 ensures At(init, k) == Placed(byElement, ms, seed, k) {
        assert At(init, k) == At(items, k);
      }
      PresentIsResults(byElement, ms, seed, init, n - 1);
    }
  }

  /** Without set matchers, or with nothing left for them, the results are those of the element matchers. */
  lemma {:induction false} ElementsAreResults(byElement: Option<Elem -> bool>, ms: seq<Spec>, seed: seq<Elem>, n: nat)
    requires n <= |seed|
    requires ms == [] || |ByElement(byElement, seed)| == |seed|
    ensures ByElement(byElement, seed[..n]) == Results(byElement, ms, seed, n)
    decreases n
  {
    if n > 0 {
      ElementsAreResults(byElement, ms, seed, n - 1);
      assert seed[..n][..n - 1] == seed[..n - 1];
      NoneAccepted(byElement, seed);
      assert seed[n - 1] in seed;
    }
  }
}
