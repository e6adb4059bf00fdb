/**
  Sizzle's set matchers for positional selectors such as `div:eq(2).foo`. They move elements between two
  parallel arrays, the seed and the results, so that index `k` of one answers index `k` of the other.
 */
module SetMatcher {
  import opened Wrappers
  import Dom
  import Selector
  import Sizzle

  type Elem = Dom.Node

  /** What is at index `k` of a JavaScript array: `undefined` and `false` are both None. */
  function At(items: seq<Option<Elem>>, k: int): Option<Elem> {
    if 0 <= k < |items| then items[k] else None
  }

  /** An array that started with length `before` has length `now`, and did not grow beyond `limit`. */
  predicate Reaches(before: nat, now: nat, limit: nat) {
    before <= now && (now == before || now <= limit)
  }

  /** A JavaScript array of elements and holes, shared by reference. */
  class JsArray {
    var items: seq<Option<Elem>>

    constructor (items: seq<Option<Elem>>)
      ensures this.items == items
    {
      this.items := items;
    }

    method Set(k: nat, v: Option<Elem>)
      modifies this
      ensures |items| == if k < |old(items)| then |old(items)| else k + 1
      ensures forall j | 0 <= j :: At(items, j) == if j == k then v else At(old(items), j)
    {
      if k >= |items| {
        items := items + seq(k + 1 - |items|, _ => None);
      }
      items := items[k := v];
    }
  }

  // ---------------------------------------------------------------------------------------------
  // Filters: compiled matchers, run by the engine with its caches

  function FilterOf(m: Option<Selector.Matcher>, r: Selector.Run): Option<Elem -> bool> {
    match m
    case None => None
    case Some(matcher) => Some(n => Dom.IsNode(r.doc, n) && Selector.Eval(matcher, r, n))
  }

  /** The engine can run this filter on all of these elements. */
  ghost predicate CanFilter(engine: Sizzle.Engine, m: Option<Selector.Matcher>, items: seq<Option<Elem>>)
    reads engine, set k | k in engine.slots :: engine.slots[k]
  {
    && engine.Valid() && (m.Some? ==> Sizzle.Registered(m.value, engine.named))
    && AllNodes(engine.run.doc, items)
  }

  ghost predicate AllNodes(doc: Dom.Tree, items: seq<Option<Elem>>) {
    forall k | 0 <= k < |items| :: items[k].Some? ==> Dom.IsNode(doc, items[k].value)
  }

  // ---------------------------------------------------------------------------------------------
  // condense

  predicate Passes(filter: Option<Elem -> bool>, v: Option<Elem>) {
    v.Some? && (filter.Some? ==> filter.value(v.value))
  }

  /** The indexes of the elements that pass, in order. */
  function Indexes(items: seq<Option<Elem>>, filter: Option<Elem -> bool>): seq<nat> {
    if items == [] then []
    else
      var last := |items| - 1;
      Indexes(items[..last], filter) + if Passes(filter, items[last]) then [last] else []
  }

  lemma {:induction false} IndexesAreThePassing(items: seq<Option<Elem>>, filter: Option<Elem -> bool>)
    ensures forall k :: k in Indexes(items, filter) <==> 0 <= k < |items| && Passes(filter, items[k])
    ensures forall i, j | 0 <= i < j < |Indexes(items, filter)| :: Indexes(items, filter)[i] < Indexes(items, filter)[j]
    ensures forall i | 0 <= i < |Indexes(items, filter)| ::
      Indexes(items, filter)[i] < |items| && Passes(filter, items[Indexes(items, filter)[i]])
  {
    if items != [] {
      hide Passes;
      var last := |items| - 1;
      IndexesAreThePassing(items[..last], filter);
      var before, all := Indexes(items[..last], filter), Indexes(items, filter);
      assert all == before + if Passes(filter, items[last]) then [last] else [];
      forall k ensures k in before <==> 0 <= k < last && Passes(filter, items[k]) {
        assert 0 <= k < last ==> items[..last][k] == items[k];
      }
      forall i | 0 <= i < |all| ensures i < |before| ==> all[i] == before[i] && all[i] in before {
      }
    }
  }

  /** The elements at these indexes. */
  function Pick(items: seq<Option<Elem>>, indexes: seq<nat>): (r: seq<Option<Elem>>)
    requires forall i | 0 <= i < |indexes| :: indexes[i] < |items|
    ensures |r| == |indexes| && forall i | 0 <= i < |r| :: r[i] == items[indexes[i]]
  {
    seq(|indexes|, i requires 0 <= i < |indexes| => items[indexes[i]])
  }

  method Condense(engine: Sizzle.Engine, unmatched: seq<Option<Elem>>, filter: Option<Selector.Matcher>)
      returns (newUnmatched: seq<Option<Elem>>, map': seq<nat>)
    requires CanFilter(engine, filter, unmatched)
    modifies engine`slots
    ensures engine.Valid()
    ensures map' == Indexes(unmatched, FilterOf(filter, engine.run))
    ensures forall i | 0 <= i < |map'| :: map'[i] < |unmatched|
    ensures newUnmatched == Pick(unmatched, map')
  {
    newUnmatched, map' := [], [];
    var i := 0;
    while i < |unmatched|
      invariant 0 <= i <= |unmatched| && engine.Valid()
      invariant map' == Indexes(unmatched[..i], FilterOf(filter, engine.run))
      invariant forall j | 0 <= j < |map'| :: map'[j] < i
      invariant newUnmatched == Pick(unmatched, map')
    {
      assert unmatched[..i + 1][..i] == unmatched[..i];
      if unmatched[i].Some? {
        var passes := true;
        if filter.Some? {
          passes := engine.Match(filter.value, unmatched[i].value, {});
        }
        if passes {
          newUnmatched := newUnmatched + [unmatched[i]];
          map' := map' + [i];
        }
      }
      i := i + 1;
    }
    assert unmatched[..i] == unmatched;
  }

  // ---------------------------------------------------------------------------------------------
  // Positional pseudos

  datatype Positional = First | Last | Eq(n: int) | Even | Odd | Lt(n: int) | Gt(n: int)

  function FromEnd(n: int, length: nat): int {
    if n < 0 then n + length else n
  }

  /** Which places of a list of `length` elements the pseudo stands for. */
  predicate Picked(p: Positional, length: nat, j: int) {
    0 <= j < length &&
    match p
    case First => j == 0
    case Last => j == length - 1
    case Eq(n) => j == FromEnd(n, length)
    case Even => j % 2 == 0
    case Odd => j % 2 == 1
    case Lt(n) => j < FromEnd(n, length)
    case Gt(n) => j > FromEnd(n, length)
  }

  /** The index functions handed to createPositionalPseudo; some of the indexes may lie outside the list. */
  method MatchIndexes(p: Positional, length: nat) returns (matchIndexes: seq<int>)
    ensures forall j | 0 <= j < length :: j in matchIndexes <==> Picked(p, length, j)
  {
    matchIndexes := [];
    match p
    case First => matchIndexes := [0];
    case Last => matchIndexes := [length - 1];
    case Eq(n) => matchIndexes := [FromEnd(n, length)];
    case Even =>
      var i := 0;
      while i < length
        invariant 0 <= i && i % 2 == 0
        invariant forall j | 0 <= j < length :: j in matchIndexes <==> j < i && j % 2 == 0
      {
        matchIndexes := matchIndexes + [i];
        i := i + 2;
      }
    case Odd =>
      var i := 1;
      while i < length
        invariant 0 <= i && i % 2 == 1
        invariant forall j | 0 <= j < length :: j in matchIndexes <==> j < i && j % 2 == 1
      {
        matchIndexes := matchIndexes + [i];
        i := i + 2;
      }
    case Lt(n) =>
      var i := FromEnd(n, length) - 1;
      while i >= 0
        invariant forall j | 0 <= j < length :: j in matchIndexes <==> i < j < FromEnd(n, length)
      {
        matchIndexes := matchIndexes + [i];
        i := i - 1;
      }
    case Gt(n) =>
      var i := FromEnd(n, length) + 1;
      while i < length
        invariant FromEnd(n, length) < i
        invariant forall j | 0 <= j < length :: j in matchIndexes <==> FromEnd(n, length) < j < i
      {
        matchIndexes := matchIndexes + [i];
        i := i + 1;
      }
  }

  predicate Hit(p: Positional, seed: seq<Option<Elem>>, k: int) {
    At(seed, k).Some? && Picked(p, |seed|, k)
  }

  /** The function that createPositionalPseudo makes: it moves the picked elements to `matches`. */
  method PositionalMatch(p: Positional, seed: JsArray, matches: JsArray)
    requires seed != matches
    modifies seed, matches
    ensures |seed.items| == |old(seed.items)|
    ensures Reaches(|old(matches.items)|, |matches.items|, |seed.items|)
    ensures forall k | 0 <= k ::
      At(seed.items, k) == if Hit(p, old(seed.items), k) then None else At(old(seed.items), k)
    ensures forall k | 0 <= k ::
      At(matches.items, k) == if Hit(p, old(seed.items), k) then At(old(seed.items), k) else At(old(matches.items), k)
  {
    var matchIndexes := MatchIndexes(p, |seed.items|);
    var i := |matchIndexes|;
    while i > 0
      invariant 0 <= i <= |matchIndexes| && |seed.items| == |old(seed.items)|
      invariant Reaches(|old(matches.items)|, |matches.items|, |seed.items|)
      invariant forall k | 0 <= k ::
        At(seed.items, k) == if k in matchIndexes[i..] then None else At(old(seed.items), k)
      invariant forall k | 0 <= k ::
        At(matches.items, k) ==
        if k in matchIndexes[i..] && At(old(seed.items), k).Some?
        then At(old(seed.items), k) else At(old(matches.items), k)
    {
      i := i - 1;
      var j := matchIndexes[i];
      assert matchIndexes[i..] == [j] + matchIndexes[i + 1..];
      if At(seed.items, j).Some? {
        matches.Set(j, At(seed.items, j));
        seed.Set(j, None);
      }
    }
    assert matchIndexes[i..] == matchIndexes;
  }

  // ---------------------------------------------------------------------------------------------
  // setMatcher

  /** Index `k` of the seed is the image of a place of `out` that holds an element. */
  ghost predicate Moves(out: seq<Option<Elem>>, preMap: seq<nat>, k: int) {
    exists i | 0 <= i < |out| && i < |preMap| :: out[i].Some? && preMap[i] == k
  }

  /** The last loop of the set matcher: move matched elements from seed to results. */
  method MoveMatched(out: seq<Option<Elem>>, preMap: seq<nat>, seed: JsArray, results: JsArray)
    requires seed != results && |out| <= |preMap|
    requires forall i | 0 <= i < |preMap| :: preMap[i] < |seed.items|
    requires forall i, j | 0 <= i < j < |preMap| :: preMap[i] < preMap[j]
    requires forall i | 0 <= i < |out| && out[i].Some? :: out[i] == seed.items[preMap[i]]
    modifies seed, results
    ensures |seed.items| == |old(seed.items)|
    ensures Reaches(|old(results.items)|, |results.items|, |seed.items|)
    ensures forall k | 0 <= k :: At(seed.items, k) == if Moves(out, preMap, k) then None else At(old(seed.items), k)
    ensures forall k | 0 <= k ::
      At(results.items, k) == if Moves(out, preMap, k) then At(old(seed.items), k) else At(old(results.items), k)
  {
    var i := |out|;
    while i > 0
      invariant 0 <= i <= |out| && |seed.items| == |old(seed.items)|
      invariant Reaches(|old(results.items)|, |results.items|, |seed.items|)
      invariant forall k | 0 <= k ::
        At(seed.items, k) == if Moves(out[i..], preMap[i..], k) then None else At(old(seed.items), k)
      invariant forall k | 0 <= k ::
        At(results.items, k) ==
        if Moves(out[i..], preMap[i..], k) then At(old(seed.items), k) else At(old(results.items), k)
    {
      MovesOneMore(out, preMap, i - 1);
      i := i - 1;
      if out[i].Some? {
        results.Set(preMap[i], out[i]);
        seed.Set(preMap[i], None);
      }
    }
    assert out[0..] == out && preMap[0..] == preMap;
  }

  lemma MovesOneMore(out: seq<Option<Elem>>, preMap: seq<nat>, i: nat)
    requires i < |out| <= |preMap|
    ensures forall k :: Moves(out[i..], preMap[i..], k) <==>
                        Moves(out[i + 1..], preMap[i + 1..], k) || (out[i].Some? && preMap[i] == k)
  {
    var o, m, o', m' := out[i..], preMap[i..], out[i + 1..], preMap[i + 1..];
    forall k ensures Moves(o, m, k) <==> Moves(o', m', k) || (out[i].Some? && preMap[i] == k) {
      if j :| 0 <= j < |o| && j < |m| && o[j].Some? && m[j] == k {
        assert j > 0 ==> o'[j - 1].Some? && m'[j - 1] == k;
      }
      if j :| 0 <= j < |o'| && j < |m'| && o'[j].Some? && m'[j] == k {
        assert o[j + 1].Some? && m[j + 1] == k;
      }
      assert o[0] == out[i] && m[0] == preMap[i];
    }
  }

  /** `setMatcher(postFilter)`: a set matcher with nothing but a filter. */
  method FilterSet(engine: Sizzle.Engine, filter: Selector.Matcher, seed: JsArray, results: JsArray)
    requires seed != results && CanFilter(engine, Some(filter), seed.items)
    modifies engine`slots, seed, results
    ensures engine.Valid()
    ensures |seed.items| == |old(seed.items)|
    ensures forall k | 0 <= k ::
      At(seed.items, k) ==
      if Passes(FilterOf(Some(filter), engine.run), At(old(seed.items), k)) then None else At(old(seed.items), k)
    ensures forall k | 0 <= k ::
      At(results.items, k) ==
      if Passes(FilterOf(Some(filter), engine.run), At(old(seed.items), k)) then At(old(seed.items), k)
      else At(old(results.items), k)
  {
    hide FilterOf;
    ghost var test := FilterOf(Some(filter), engine.run);
    var matcherIn, preMap := Condense(engine, seed.items, Some(filter));
    IndexesAreThePassing(seed.items, test);
    forall k | 0 <= k ensures Moves(matcherIn, preMap, k) <==> Passes(test, At(seed.items, k)) {
      if Passes(test, At(seed.items, k)) {
        assert k in preMap;
        var i :| 0 <= i < |preMap| && preMap[i] == k;
        assert matcherIn[i].Some?;
      }
    }
    MoveMatched(matcherIn, preMap, seed, results);
  }

  predicate Fails(filter: Option<Elem -> bool>, v: Option<Elem>) {
    v.Some? && !Passes(filter, v)
  }

  /** Un-match the elements that fail the post filter by moving them back. */
  method ApplyPostFilter(engine: Sizzle.Engine, filter: Selector.Matcher, matcherIn: JsArray, matcherOut: JsArray)
    requires matcherIn != matcherOut && CanFilter(engine, Some(filter), matcherOut.items)
    modifies engine`slots, matcherIn, matcherOut
    ensures engine.Valid()
    ensures |matcherOut.items| == |old(matcherOut.items)|
    ensures Reaches(|old(matcherIn.items)|, |matcherIn.items|, |matcherOut.items|)
    ensures forall k | 0 <= k ::
      At(matcherIn.items, k) ==
      if Fails(FilterOf(Some(filter), engine.run), At(old(matcherOut.items), k)) then At(old(matcherOut.items), k)
      else At(old(matcherIn.items), k)
    ensures forall k | 0 <= k ::
      At(matcherOut.items, k) ==
      if Fails(FilterOf(Some(filter), engine.run), At(old(matcherOut.items), k)) then None
      else At(old(matcherOut.items), k)
  {
    hide FilterOf;
    ghost var test := FilterOf(Some(filter), engine.run);
    var before := matcherOut.items;
    var condensed, postMap := Condense(engine, before, None);
    NoFilter(engine.run);
    IndexesAreThePassing(before, None);
    var temp := new JsArray(condensed);
    var matched := new JsArray([]);
    FilterSet(engine, filter, temp, matched);
    var failing := temp.items;
    forall k | 0 <= k ensures Moves(failing, postMap, k) <==> Fails(test, At(before, k)) {
      if Fails(test, At(before, k)) {
        assert k in postMap;
        var i :| 0 <= i < |postMap| && postMap[i] == k;
        assert At(failing, i) == condensed[i];
      }
      if i :| 0 <= i < |failing| && failing[i].Some? && postMap[i] == k {
        assert At(failing, i) == At(condensed, i) == At(before, k);
      }
    }
    forall i | 0 <= i < |failing| && failing[i].Some? ensures failing[i] == before[postMap[i]] {
      assert At(failing, i) == At(condensed, i);
    }
    MoveMatched(failing, postMap, matcherOut, matcherIn);
  }

  lemma NoFilter(r: Selector.Run)
    ensures FilterOf(None, r) == None
  {
  }

  lemma SomeFilter(m: Option<Selector.Matcher>, r: Selector.Run)
    ensures FilterOf(m, r).Some? <==> m.Some?
  {
  }

  /** How many elements before index `k` pass the filter. */
  function Rank(seed: seq<Option<Elem>>, filter: Option<Elem -> bool>, k: nat): nat
    requires k <= |seed|
  {
    |Indexes(seed[..k], filter)|
  }

  lemma {:induction false} RankIsPlace(seed: seq<Option<Elem>>, filter: Option<Elem -> bool>, k: nat)
    requires k < |seed| && Passes(filter, seed[k])
    ensures Rank(seed, filter, k) < |Indexes(seed, filter)| && Indexes(seed, filter)[Rank(seed, filter, k)] == k
    decreases |seed|
  {
    var last := |seed| - 1;
    if k < last {
      assert seed[..last][..k] == seed[..k];
      RankIsPlace(seed[..last], filter, k);
    }
  }

  /** The positional pseudo chooses the element at index `k`. With a pre filter only what passes it is counted. */
  predicate Chosen(preFilter: Option<Elem -> bool>, p: Positional, seed: seq<Option<Elem>>, k: int) {
    if preFilter.None? then Hit(p, seed, k)
    else
      && 0 <= k < |seed| && Passes(preFilter, seed[k])
      && Picked(p, |Indexes(seed, preFilter)|, Rank(seed, preFilter, k))
  }

  predicate Rejects(postFilter: Option<Elem -> bool>, v: Option<Elem>) {
    postFilter.Some? && Fails(postFilter, v)
  }

  /**
    Index `k` of the seed and of the results after the set matcher. Without a pre filter the matcher works
    on the caller's arrays themselves, so the post filter also judges results that were there before.
   */
  function After(preFilter: Option<Elem -> bool>, p: Positional, postFilter: Option<Elem -> bool>,
                 seed: seq<Option<Elem>>, results: seq<Option<Elem>>, k: int): (Option<Elem>, Option<Elem>)
  {
    var chosen := Chosen(preFilter, p, seed, k);
    if preFilter.Some? then
      if chosen && !Rejects(postFilter, At(seed, k)) then (None, At(seed, k)) else (At(seed, k), At(results, k))
    else
      var judged := if chosen then At(seed, k) else At(results, k);
      if Rejects(postFilter, judged) then (judged, None) else (if chosen then None else At(seed, k), judged)
  }

  /** A set matcher as it is compiled, and what it does in a run. */
  datatype Compiled = Compiled(preFilter: Option<Selector.Matcher>, p: Positional, postFilter: Option<Selector.Matcher>)

  datatype Spec = Spec(preFilter: Option<Elem -> bool>, p: Positional, postFilter: Option<Elem -> bool>)

  function SpecOf(m: Compiled, r: Selector.Run): Spec {
    Spec(FilterOf(m.preFilter, r), m.p, FilterOf(m.postFilter, r))
  }

  /** Primary matches, then the post filter, on whatever arrays the set matcher works on. */
  method MatchAndJudge(engine: Sizzle.Engine, p: Positional, postFilter: Option<Selector.Matcher>,
                       matcherIn: JsArray, matcherOut: JsArray)
    requires matcherIn != matcherOut
    requires CanFilter(engine, postFilter, matcherIn.items) && CanFilter(engine, postFilter, matcherOut.items)
    modifies engine`slots, matcherIn, matcherOut
    ensures engine.Valid()
    ensures Reaches(|old(matcherOut.items)|, |matcherOut.items|, |old(matcherIn.items)|)
    ensures Reaches(|old(matcherIn.items)|, |matcherIn.items|, |old(matcherOut.items)|)
    ensures forall k | 0 <= k ::
      (At(matcherIn.items, k), At(matcherOut.items, k)) ==
      After(None, p, FilterOf(postFilter, engine.run), old(matcherIn.items), old(matcherOut.items), k)
  {
    PositionalMatch(p, matcherIn, matcherOut);
    if postFilter.Some? {
      forall k | 0 <= k < |matcherOut.items| && matcherOut.items[k].Some?
        ensures Dom.IsNode(engine.run.doc, matcherOut.items[k].value)
      {
        assert matcherOut.items[k] == At(matcherOut.items, k);
      }
      ApplyPostFilter(engine, postFilter.value, matcherIn, matcherOut);
    }
  }

  /** The function that setMatcher builds for a positional pseudo, called with a seed and without post finder. */
  method SetMatch(engine: Sizzle.Engine, m: Compiled, seed: JsArray, results: JsArray)
    requires seed != results
    requires CanFilter(engine, m.preFilter, seed.items)
    requires CanFilter(engine, m.postFilter, seed.items) && CanFilter(engine, m.postFilter, results.items)
    modifies engine`slots, seed, results
    ensures engine.Valid()
    ensures Reaches(|old(seed.items)|, |seed.items|, |old(results.items)|)
    ensures Reaches(|old(results.items)|, |results.items|, |old(seed.items)|)
    ensures var s := SpecOf(m, engine.run);
      forall k | 0 <= k ::
        (At(seed.items, k), At(results.items, k)) ==
        After(s.preFilter, s.p, s.postFilter, old(seed.items), old(results.items), k)
  {
    if m.preFilter.Some? {
      ghost var s := SpecOf(m, engine.run);
      var condensed, preMap := Condense(engine, seed.items, m.preFilter);
      var matcherIn := new JsArray(condensed);
      var matcherOut := new JsArray([]);
      MatchAndJudge(engine, m.p, m.postFilter, matcherIn, matcherOut);
      IndexesAreThePassing(seed.items, s.preFilter);
      MatchedPlaces(s.preFilter, m.p, s.postFilter, seed.items, matcherOut.items);
      MoveMatched(matcherOut.items, preMap, seed, results);
    } else {
      MatchAndJudge(engine, m.p, m.postFilter, seed, results);
    }
  }

  /** The places of the condensed list that end up matched map back to the chosen, accepted indexes of the seed. */
  lemma MatchedPlaces(preFilter: Option<Elem -> bool>, p: Positional, postFilter: Option<Elem -> bool>,
                      seed: seq<Option<Elem>>, out: seq<Option<Elem>>)
    requires preFilter.Some?
    requires forall i | 0 <= i < |Indexes(seed, preFilter)| :: Indexes(seed, preFilter)[i] < |seed|
    requires var condensed := Pick(seed, Indexes(seed, preFilter));
      |out| <= |condensed| && forall i | 0 <= i :: At(out, i) == After(None, p, postFilter, condensed, [], i).1
    ensures forall i | 0 <= i < |out| && out[i].Some? :: out[i] == seed[Indexes(seed, preFilter)[i]]
    ensures forall k | 0 <= k :: Moves(out, Indexes(seed, preFilter), k) <==>
      Chosen(preFilter, p, seed, k) && !Rejects(postFilter, At(seed, k))
  {
    var preMap := Indexes(seed, preFilter);
    var condensed := Pick(seed, preMap);
    IndexesAreThePassing(seed, preFilter);
    forall i | 0 <= i < |out|
      ensures out[i].Some? <==> Picked(p, |preMap|, i) && !Rejects(postFilter, seed[preMap[i]])
      ensures out[i].Some? ==> out[i] == seed[preMap[i]]
    {
      assert At(out, i) == After(None, p, postFilter, condensed, [], i).1;
      assert condensed[i] == seed[preMap[i]];
    }
    forall k | 0 <= k
      ensures Moves(out, preMap, k) <==> Chosen(preFilter, p, seed, k) && !Rejects(postFilter, At(seed, k))
    {
      if k < |seed| && Passes(preFilter, seed[k]) {
        RankIsPlace(seed, preFilter, k);
        var r := Rank(seed, preFilter, k);
        assert At(out, r) == After(None, p, postFilter, condensed, [], r).1;
        assert forall i | 0 <= i < |preMap| && preMap[i] == k :: i == r;
      }
    }
  }

  // ---------------------------------------------------------------------------------------------
  // What a set match means

  /** Wherever at most one of the arrays holds an element before, exactly one of them holds it afterwards. */
  lemma NothingLostNothingDoubled(preFilter: Option<Elem -> bool>, p: Positional, postFilter: Option<Elem -> bool>,
                                  seed: seq<Option<Elem>>, results: seq<Option<Elem>>, k: nat)
    requires At(seed, k).None? || At(results, k).None?
    ensures var (s, r) := After(preFilter, p, postFilter, seed, results, k);
      && (s.None? || r.None?)
      && (if s.Some? then s else r) == if At(seed, k).Some? then At(seed, k) else At(results, k)
  {
  }

  /** From empty results: an element becomes a result iff it passes, is picked among those that pass, passes again. */
  lemma MatchesExactly(preFilter: Option<Elem -> bool>, p: Positional, postFilter: Option<Elem -> bool>,
                       seed: seq<Option<Elem>>, k: nat)
    ensures var (s, r) := After(preFilter, p, postFilter, seed, [], k);
      && (r.Some? <==>
            Passes(preFilter, At(seed, k)) && Chosen(preFilter, p, seed, k) && Passes(postFilter, At(seed, k)))
      && (s.Some? <==> At(seed, k).Some? && r.None?)
      && (if s.Some? then s else r) == At(seed, k)
  {
  }

  /**
    A result that an earlier set matcher of the same group left behind survives this one, unless this one has
    no pre filter, has a post filter, and the result fails it.
   */
  lemma EarlierResultSurvivesIff(preFilter: Option<Elem -> bool>, p: Positional, postFilter: Option<Elem -> bool>,
                                 seed: seq<Option<Elem>>, results: seq<Option<Elem>>, k: nat)
    requires At(results, k).Some? && At(seed, k).None?
    ensures After(preFilter, p, postFilter, seed, results, k) == (None, At(results, k)) <==>
      preFilter.Some? || postFilter.None? || postFilter.value(At(results, k).value)
  {
  }

  // ---------------------------------------------------------------------------------------------
  // Several set matchers in a row

  /** Both arrays at their common length; a shorter results array reads as holes. */
  type Arrays = a: (seq<Option<Elem>>, seq<Option<Elem>>) | |a.0| == |a.1| witness ([], [])

  function Aligned(seed: seq<Option<Elem>>, results: seq<Option<Elem>>): Arrays {
    (seed, seq(|seed|, k => At(results, k)))
  }

  function Stage(m: Spec, a: Arrays): Arrays {
    (seq(|a.0|, k => After(m.preFilter, m.p, m.postFilter, a.0, a.1, k).0),
     seq(|a.0|, k => After(m.preFilter, m.p, m.postFilter, a.0, a.1, k).1))
  }

  function Stages(ms: seq<Spec>, a: Arrays): (r: Arrays)
    ensures |r.0| == |a.0|
  {
    if ms == [] then a else Stage(ms[|ms| - 1], Stages(ms[..|ms| - 1], a))
  }

  /** What the set matchers do in a run, one after the other. */
  function SpecsOf(ms: seq<Compiled>, r: Selector.Run): (specs: seq<Spec>)
    ensures |specs| == |ms| && forall j | 0 <= j < |ms| :: specs[j] == SpecOf(ms[j], r)
  {
    seq(|ms|, j requires 0 <= j < |ms| => SpecOf(ms[j], r))
  }

  /** The engine knows all closures in the filters. */
  ghost predicate Known(m: Compiled, named: map<nat, Selector.Matcher>) {
    && (m.preFilter.Some? ==> Sizzle.Registered(m.preFilter.value, named))
    && (m.postFilter.Some? ==> Sizzle.Registered(m.postFilter.value, named))
  }

  /** The loop of superMatcher over its set matchers. */
  method SetMatches(engine: Sizzle.Engine, ms: seq<Compiled>, seed: JsArray, results: JsArray)
    requires seed != results && |results.items| <= |seed.items|
    requires engine.Valid() && forall j | 0 <= j < |ms| :: Known(ms[j], engine.named)
    requires AllNodes(engine.run.doc, seed.items) && AllNodes(engine.run.doc, results.items)
    modifies engine`slots, seed, results
    ensures engine.Valid() && |results.items| <= |seed.items|
    ensures Aligned(seed.items, results.items) ==
      Stages(SpecsOf(ms, engine.run), Aligned(old(seed.items), old(results.items)))
  {
    ghost var specs := SpecsOf(ms, engine.run);
    var j := 0;
    while j < |ms|
      invariant 0 <= j <= |ms| && engine.Valid() && |results.items| <= |seed.items|
      invariant AllNodes(engine.run.doc, seed.items) && AllNodes(engine.run.doc, results.items)
      invariant Aligned(seed.items, results.items) == Stages(specs[..j], Aligned(old(seed.items), old(results.items)))
    {
      ghost var s, r := seed.items, results.items;
      SetMatch(engine, ms[j], seed, results);
      AlignedStage(specs[j], s, r, seed.items, results.items);
      StageKeepsNodes(engine.run.doc, specs[j], s, r, seed.items, results.items);
      assert specs[..j + 1][..j] == specs[..j];
      j := j + 1;
    }
    assert specs[..j] == specs;
  }

  lemma StageKeepsNodes(doc: Dom.Tree, m: Spec, s: seq<Option<Elem>>, r: seq<Option<Elem>>,
                        s': seq<Option<Elem>>, r': seq<Option<Elem>>)
    requires AllNodes(doc, s) && AllNodes(doc, r)
    requires forall k | 0 <= k :: (At(s', k), At(r', k)) == After(m.preFilter, m.p, m.postFilter, s, r, k)
    ensures AllNodes(doc, s') && AllNodes(doc, r')
  {
    forall k | 0 <= k < |s'| && s'[k].Some? ensures Dom.IsNode(doc, s'[k].value) {
      assert s'[k] == At(s', k) == After(m.preFilter, m.p, m.postFilter, s, r, k).0;
    }
    forall k | 0 <= k < |r'| && r'[k].Some? ensures Dom.IsNode(doc, r'[k].value) {
      assert r'[k] == At(r', k) == After(m.preFilter, m.p, m.postFilter, s, r, k).1;
    }
  }

  lemma AlignedStage(m: Spec, s: seq<Option<Elem>>, r: seq<Option<Elem>>, s': seq<Option<Elem>>, r': seq<Option<Elem>>)
    requires |r| <= |s| && |s'| == |s| && |r'| <= |s|
    requires forall k | 0 <= k :: (At(s', k), At(r', k)) == After(m.preFilter, m.p, m.postFilter, s, r, k)
    ensures Aligned(s', r') == Stage(m, Aligned(s, r))
  {
    var from, a, b := Aligned(s, r), Aligned(s', r'), Stage(m, Aligned(s, r));
    forall k | 0 <= k < |s| ensures a.0[k] == b.0[k] && a.1[k] == b.1[k] {
      assert from.0 == s && At(from.1, k) == At(r, k) && At(s', k) == s'[k];
      assert After(m.preFilter, m.p, m.postFilter, s, r, k) == After(m.preFilter, m.p, m.postFilter, from.0, from.1, k);
    }
    assert a.0 == b.0 && a.1 == b.1;
  }

  ghost predicate Holds(a: Arrays, k: nat, v: Option<Elem>) {
    (At(a.0, k) == v && At(a.1, k) == None) || (At(a.0, k) == None && At(a.1, k) == v)
  }

  /** However many set matchers run, every element stays at its own index, in exactly one of the two arrays. */
  lemma {:induction false} EveryElementKeepsItsIndex(ms: seq<Spec>, seed: seq<Option<Elem>>, k: nat)
    requires k < |seed|
    ensures Holds(Stages(ms, Aligned(seed, [])), k, seed[k]) && |Stages(ms, Aligned(seed, [])).0| == |seed|
  {
    if ms != [] {
      var before := Stages(ms[..|ms| - 1], Aligned(seed, []));
      var m := ms[|ms| - 1];
      EveryElementKeepsItsIndex(ms[..|ms| - 1], seed, k);
      NothingLostNothingDoubled(m.preFilter, m.p, m.postFilter, before.0, before.1, k);
    }
  }

  /** The set matcher does not take this result back: it never looks at it, or its post filter passes it. */
  predicate Spares(m: Spec, v: Option<Elem>) {
    m.preFilter.Some? || !Rejects(m.postFilter, v)
  }

  /** The result at index `k` is there after all of the set matchers, and was there after each of them. */
  predicate Stays(more: seq<Spec>, a: Arrays, k: nat)
    requires k < |a.0|
  {
    && Stages(more, a).0[k].None? && Stages(more, a).1[k] == a.1[k]
    && (more == [] || Stays(more[..|more| - 1], a, k))
  }

  /** A result stays a result through all later set matchers iff none of them takes it back. */
  lemma {:induction false} ResultStaysIff(more: seq<Spec>, a: Arrays, k: nat)
    requires k < |a.0| && a.0[k].None? && a.1[k].Some?
    ensures Stays(more, a, k) <==> forall m | m in more :: Spares(m, a.1[k])
  {
    if more != [] {
      hide After;
      var init, m := more[..|more| - 1], more[|more| - 1];
      ResultStaysIff(init, a, k);
      assert more == init + [m];
      var before := Stages(init, a);
      if Stays(init, a, k) {
        StageSparesIff(m, before, k);
      }
    }
  }

  lemma StageSparesIff(m: Spec, a: Arrays, k: nat)
    requires k < |a.0| && a.0[k].None? && a.1[k].Some?
    ensures Stage(m, a).0[k].None? && Stage(m, a).1[k] == a.1[k] <==> Spares(m, a.1[k])
  {
    assert At(a.0, k) == a.0[k] && At(a.1, k) == a.1[k];
    EarlierResultSurvivesIff(m.preFilter, m.p, m.postFilter, a.0, a.1, k);
  }

  /** `:first.foo, :eq(1)` on two elements of which only the first has the class: the second is found, then lost. */
  lemma EarlierResultCanBeLost(x: Elem, y: Elem)
    requires x != y
    ensures var foo: Elem -> bool := e => e == x;
      var eq, first := Spec(None, Eq(1), None), Spec(None, First, Some(foo));
      var start := Aligned([Some(x), Some(y)], []);
      && Stages([eq], start).1[1] == Some(y)
      && Stages([eq, first], start).0[1] == Some(y) && Stages([eq, first], start).1[1] == None
  {
    var foo: Elem -> bool := e => e == x;
    var eq, first := Spec(None, Eq(1), None), Spec(None, First, Some(foo));
    var start := Aligned([Some(x), Some(y)], []);
    assert [eq, first][..1] == [eq] && [eq][..0] == [];
    assert start.1 == [None, None];
    assert Stages([eq], start) == Stage(eq, start);
    var one := Stage(eq, start);
    assert one.0[1] == None && one.1[1] == Some(y);
    assert Stages([eq, first], start) == Stage(first, one);
  }
}
