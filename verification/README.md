# Stateful cores of the Reactors repository, modelled and proved in Dafny

The repository's debugger page and its JavaScript runtime rest on a few small, stateful pieces of code that are fast
or re-entrant where a simple definition would do. Each file here models one of them in its own form and proves that
it agrees with the simple definition.

| file | what it models |
|---|---|
| `Dom.dfy` | the document: a finite tree whose nodes are paths of child indexes |
| `Selector.dfy` | Sizzle's selector compiler against section 8 of W3C Selectors Level 3 |
| `Sizzle.dfy` | the engine that runs compiled selectors with its cache of walks, over whole sequences of runs |
| `DocumentOrder.dfy` | the comparison by ancestor chains, and `uniqueSort` |
| `SetMatcher.dfy` | positional selectors: condensing, matching and moving elements between two parallel arrays |
| `Positional.dfy` | selectors such as `A:eq(n)B`: what they are compiled to, and what groups with them select |
| `SuperMatcher.dfy` | groups that mix element and set matchers, put together again in order |
| `ChildFilter.dfy` | `:nth-child` and `:nth-last-child` with their sibling-index caches |
| `Callbacks.dfy` | `jQuery.Callbacks` as a machine whose callbacks may call back |
| `CallbackRuns.dfy` | what such a list calls, told by the calls made to it: removal, order of delivery, the options |
| `Deferred.dfy` | `jQuery.Deferred`, a promise made of three such lists |
| `Notify.dfy` | `notify` on a Deferred, and what becomes of it after settlement |
| `When.dfy` | `jQuery.when`: what becomes of the master as its arguments settle |
| `Subordinates.dfy` | `jQuery.when` together with the Deferreds it was given |
| `HashTable.dfy` | the router tutorial's distributed hash table |
| `CBuffer.dfy` | the ring buffer, as a bounded deque with a binary search |
| `Timer.dfy`, `TimerRates.dfy` | `java.util.Timer` for Scala.js on one event loop: safety, and when iterations run |
| `Animator.dfy`, `SmoothStep.dfy` | the debugger's animations: budget, labels, completion, and the easing curve |

Code that changes fields or arrays is modelled by classes and methods with loops; each method is proved against a
specification function, and the lemmas about whole runs are about those functions. Where callbacks may re-enter
(Callbacks, Deferred, timers, animations), control returns to the caller of the model at each callback, and what the
callback does is simply the next event, so every re-entrant behaviour is a sequence of events.

Places where the code does not do what its purpose suggests are kept as they are, with the exact condition proved:

- `:nth-last-child` starts its marking loop at the asked element, so an earlier sibling asked about later in the same
  run gets a wrong position (`ChildFilter.AnswerIsTrueIff`).
- A set matcher without a pre-filter judges the results of earlier set matchers again
  (`SetMatcher.EarlierResultSurvivesIff`, `SetMatcher.ResultStaysIff`).
- In a group, a position is counted among the elements that the other selectors have left over
  (`Positional.GroupIsUnionIff`, `Positional.GroupSelectsMore`).
- `add` unlocks a locked list that has memory but is not a "once" list (`Callbacks.LockSurvivesAddIff`), and `empty`
  during firing keeps the firing index (`Callbacks.EmptyWhileFiringSkips`, `Callbacks.AddedButForgotten`). Because of
  the first, a resolved Deferred that was notified before can be notified again once another progress callback is added
  (`Notify.NotifyIsIgnoredIff`).
- `CBuffer.unshift` can leave `start` or `end` one past the array, and a following `shift` or `pop` then returns
  nothing; with batches shorter than the capacity this cannot happen (`CBuffer.Buffer.Unshift`,
  `CBuffer.ShiftLosesTheItem`, `CBuffer.PopLosesTheItem`).
- The overflow callback of `CBuffer.unshift` gets nothing for items that lie beyond index 0 of the array, and that of
  `push`, for a batch that fits into the buffer, gets the slots of the lost items iff the buffer is full
  (`CBuffer.Buffer.Unshift`, `CBuffer.ReportsLostIff`, `CBuffer.PushReportsAnother`).
- `CBuffer.sortedIndex` caps the result of a full buffer at size - 1, and on a buffer that is not full it is the lower
  bound for all values and orders iff the buffer starts at slot 0 (`CBuffer.Buffer.SortedIndex`,
  `CBuffer.FoundIsRankIff`, `CBuffer.SortedIndexIsWrong`).
- `Timer.cancel` does not end the timeouts of recurring tasks (`Timer.OnlyTheTaskEndsTheTimeouts`), and the first
  slot of a fixed-rate task is one period after its first iteration (`TimerRates.FixedRateKeepsItsSlots`).

`dafny verify dfyconfig.toml` checks the whole project.

## Model

| member | source | states |
|---|---|---|
| `Selector.CompilerCorrect` | reactors-debugger/src/main/resources/io/reactors/debugger/lib/jquery/jquery-3.0.0.js:2395-2451 | For every token list, tree and node, the nested closures built by the compiler accept the node iff some assignment of ancestors and earlier siblings satisfies every compound selector and every combinator, as section 8 of W3C Selectors Level 3 defines it (with the context or the document at the far left) |
| `Selector.CompiledMeansChained` | reactors-debugger/src/main/resources/io/reactors/debugger/lib/jquery/jquery-3.0.0.js:2413-2448 | The invariant of the compiler's loop: the matchers collected so far accept a node iff the tokens read so far do |
| `Selector.WalkFindsRelated` | reactors-debugger/src/main/resources/io/reactors/debugger/lib/jquery/jquery-3.0.0.js:2196-2256 | A walk of a combinator (up, one up, back, one back, over non-elements) finds a match iff a related element matches |
| `Selector.BaseChecksReachable` | reactors-debugger/src/main/resources/io/reactors/debugger/lib/jquery/jquery-3.0.0.js:2399-2412 | The two base combinators accept exactly the nodes inside the context, or whose parent the context is, when the selector leads with a combinator |
| `Selector.ChainedSnoc` | reactors-debugger/src/main/resources/io/reactors/debugger/lib/jquery/jquery-3.0.0.js:2258-2270 | Adding one token at the right of a selector asks for one more step of the chain of elements and nothing else |
| `Sizzle.Engine.Select` | reactors-debugger/src/main/resources/io/reactors/debugger/lib/jquery/jquery-3.0.0.js:2564-2592 | Compiling any comma-separated groups and matching any seed returns exactly the seed elements that some group selects, in seed order, whatever the engine's cache holds from all earlier runs on other or changed documents |
| `Sizzle.Engine.MatchCached` | reactors-debugger/src/main/resources/io/reactors/debugger/lib/jquery/jquery-3.0.0.js:2227-2254 | The caching branch returns what the uncached walk means, though combinators overwrite each other's slots and one record is shared by all nodes of a walk; what it leaves in the cache is true again |
| `Sizzle.Engine.Visit` | reactors-debugger/src/main/resources/io/reactors/debugger/lib/jquery/jquery-3.0.0.js:2230-2250 | One node of a cached walk: a finished entry is used, an unfinished one replaced, and the shared record stays right for every node passed |
| `Sizzle.Engine.MatchUncached` | reactors-debugger/src/main/resources/io/reactors/debugger/lib/jquery/jquery-3.0.0.js:2219-2226 | The uncached branch returns the same meaning |
| `Sizzle.Engine.MatchFirst` | reactors-debugger/src/main/resources/io/reactors/debugger/lib/jquery/jquery-3.0.0.js:2203-2211 | The branch for `>` and `+` asks the first element in its direction only |
| `Sizzle.Engine.Match` | reactors-debugger/src/main/resources/io/reactors/debugger/lib/jquery/jquery-3.0.0.js:2258-2270 | Running a compiled matcher on a node returns its uncached meaning and keeps every cache entry true |
| `Sizzle.Engine.AddCombinator` | reactors-debugger/src/main/resources/io/reactors/debugger/lib/jquery/jquery-3.0.0.js:2196-2202 | Every combinator gets a name of its own, which no earlier one has |
| `Sizzle.Engine.MatcherFromTokens` | reactors-debugger/src/main/resources/io/reactors/debugger/lib/jquery/jquery-3.0.0.js:2395-2451 | The closures it builds are the ones whose meaning is proved right |
| `Sizzle.Engine.SuperMatcher` | reactors-debugger/src/main/resources/io/reactors/debugger/lib/jquery/jquery-3.0.0.js:2453-2506 | A run with a fresh run number returns the seed elements that some matcher accepts, each once, in seed order |
| `Sizzle.Engine.WalkFinished` | reactors-debugger/src/main/resources/io/reactors/debugger/lib/jquery/jquery-3.0.0.js:2227-2254 | Once a walk has failed, its shared record, marked finished, is true in every slot that holds it |
| `Sizzle.PassingIsMatching` | reactors-debugger/src/main/resources/io/reactors/debugger/lib/jquery/jquery-3.0.0.js:2575-2583 | Groups are compiled from last to first; the order does not change the result |
| `DocumentOrder.Sorter.SortOrder` | reactors-debugger/src/main/resources/io/reactors/debugger/lib/jquery/jquery-3.0.0.js:1404-1456 | For any two nodes of the document the comparison has the sign of the difference of their preorder positions, and notes a duplicate iff they are equal |
| `DocumentOrder.SiblingCheck` | reactors-debugger/src/main/resources/io/reactors/debugger/lib/jquery/jquery-3.0.0.js:960-980 | For two children of one node the check is -1 or 1 as their indexes are, and an absent one, where a chain of ancestors has ended, comes first |
| `DocumentOrder.AncestorChain` | reactors-debugger/src/main/resources/io/reactors/debugger/lib/jquery/jquery-3.0.0.js:1433-1441 | The chain is the path from the root to the node |
| `DocumentOrder.PartingDecides` | reactors-debugger/src/main/resources/io/reactors/debugger/lib/jquery/jquery-3.0.0.js:1443-1450 | Where two chains first differ decides the order, and a prefix comes before what is below it |
| `DocumentOrder.BeforeIsPosition` | reactors-debugger/src/main/resources/io/reactors/debugger/lib/jquery/jquery-3.0.0.js:1404-1456 | The path order is the order of preorder positions, so it is a strict total order |
| `DocumentOrder.PreorderIsOrdered` | reactors-debugger/src/main/resources/io/reactors/debugger/lib/jquery/jquery-3.0.0.js:1404-1456 | The preorder listing holds every node of the tree once, strictly in that order |
| `DocumentOrder.Sorter.UniqueSort` | reactors-debugger/src/main/resources/io/reactors/debugger/lib/jquery/jquery-3.0.0.js:1536-1563 | The result is the set of the given nodes in document order, without duplicates, for any comparison sort: one that puts an entry next to another only if that follows from answers of `sortOrder`, which it has called and which notices duplicates by itself |
| `DocumentOrder.EqualEndsMeetEquals` | reactors-debugger/src/main/resources/io/reactors/debugger/lib/jquery/jquery-3.0.0.js:1404-1409 | A sort that has put two equal nodes next to each other has at some time compared two equal nodes |
| `DocumentOrder.FindDuplicates` | reactors-debugger/src/main/resources/io/reactors/debugger/lib/jquery/jquery-3.0.0.js:1547-1552 | It finds exactly the positions whose successor is the same node |
| `DocumentOrder.SpliceOut` | reactors-debugger/src/main/resources/io/reactors/debugger/lib/jquery/jquery-3.0.0.js:1553-1555 | Splicing from the back removes exactly the repeated entries |
| `DocumentOrder.FirstsIsDocumentOrder` | reactors-debugger/src/main/resources/io/reactors/debugger/lib/jquery/jquery-3.0.0.js:1536-1563 | A sorted list with its repetitions removed is the document-order listing of its set |
| `SetMatcher.SetMatch` | reactors-debugger/src/main/resources/io/reactors/debugger/lib/jquery/jquery-3.0.0.js:2302-2393 | With a seed and no post-finder, what becomes of every index of both arrays; the filters are compiled matchers run on the engine with its caches |
| `SetMatcher.MatchesExactly` | reactors-debugger/src/main/resources/io/reactors/debugger/lib/jquery/jquery-3.0.0.js:2302-2393 | With results empty at the start, results[k] is set iff element k passes the pre-filter, is picked by the positional function in the condensed list and passes the post-filter; otherwise it stays in the seed |
| `SetMatcher.NothingLostNothingDoubled` | reactors-debugger/src/main/resources/io/reactors/debugger/lib/jquery/jquery-3.0.0.js:2368-2393 | Every index keeps its element in exactly one of seed and results |
| `SetMatcher.EarlierResultSurvivesIff` | reactors-debugger/src/main/resources/io/reactors/debugger/lib/jquery/jquery-3.0.0.js:2339-2351 | What a previous matcher put into results survives a later one iff that one has a pre-filter, or no post-filter, or the result passes its post-filter: without a pre-filter earlier results are judged again |
| `SetMatcher.EarlierResultCanBeLost` | reactors-debugger/src/main/resources/io/reactors/debugger/lib/jquery/jquery-3.0.0.js:2339-2351 | The selector `:first.foo, :eq(1)` on two elements: what `:eq(1)` has found goes back to the seed |
| `SetMatcher.EveryElementKeepsItsIndex` | reactors-debugger/src/main/resources/io/reactors/debugger/lib/jquery/jquery-3.0.0.js:2519-2523 | Over any list of set matchers, every element of the seed is at its own index in exactly one array at the end |
| `SetMatcher.ResultStaysIff` | reactors-debugger/src/main/resources/io/reactors/debugger/lib/jquery/jquery-3.0.0.js:2519-2523 | A result stays a result through all later set matchers iff each of them has a pre-filter, or no post-filter, or a post-filter that the result passes |
| `SetMatcher.SetMatches` | reactors-debugger/src/main/resources/io/reactors/debugger/lib/jquery/jquery-3.0.0.js:2519-2523 | The loop over the set matchers is the fold of their effects |
| `SetMatcher.MatchedPlaces` | reactors-debugger/src/main/resources/io/reactors/debugger/lib/jquery/jquery-3.0.0.js:2368-2376 | The elements moved back through the index map are exactly the chosen ones that pass |
| `SetMatcher.RankIsPlace` | reactors-debugger/src/main/resources/io/reactors/debugger/lib/jquery/jquery-3.0.0.js:2281-2300 | The place of an element in the condensed list is the number of passing elements before it |
| `SetMatcher.Condense` | reactors-debugger/src/main/resources/io/reactors/debugger/lib/jquery/jquery-3.0.0.js:2281-2300 | The condensed list holds the passing elements in order and the map holds their indexes |
| `SetMatcher.IndexesAreThePassing` | reactors-debugger/src/main/resources/io/reactors/debugger/lib/jquery/jquery-3.0.0.js:2281-2300 | Those indexes are exactly the indexes of passing elements, strictly increasing |
| `SetMatcher.MatchIndexes` | reactors-debugger/src/main/resources/io/reactors/debugger/lib/jquery/jquery-3.0.0.js:2057-2100 | first, last, eq, even, odd, lt and gt pick exactly the positions their names say, negative arguments counting from the end |
| `SetMatcher.PositionalMatch` | reactors-debugger/src/main/resources/io/reactors/debugger/lib/jquery/jquery-3.0.0.js:1036-1052 | Exactly the picked elements move from the seed to the matches, at their own index |
| `SetMatcher.MoveMatched` | reactors-debugger/src/main/resources/io/reactors/debugger/lib/jquery/jquery-3.0.0.js:2368-2376 | Matched elements move from seed to results through the map and nothing else changes |
| `SetMatcher.FilterSet` | reactors-debugger/src/main/resources/io/reactors/debugger/lib/jquery/jquery-3.0.0.js:2413-2448 | A simple filter in the place of a matcher moves exactly the passing elements |
| `SetMatcher.ApplyPostFilter` | reactors-debugger/src/main/resources/io/reactors/debugger/lib/jquery/jquery-3.0.0.js:2339-2351 | Exactly the matched elements that fail the post-filter go back |
| `SuperMatcher.SuperMatch` | reactors-debugger/src/main/resources/io/reactors/debugger/lib/jquery/jquery-3.0.0.js:2453-2540 | A run on the engine for a group that mixes element matchers and set matchers, with all caches left by earlier runs: the results are exactly the seed elements that some element matcher accepts or the set matchers pick from the rest, each once, in seed order, without sorting |
| `SuperMatcher.MatchElements` | reactors-debugger/src/main/resources/io/reactors/debugger/lib/jquery/jquery-3.0.0.js:2473-2510 | The loop over the seed pushes the accepted elements, leaves a hole for each of them, and its count, begun below zero, is the number of accepted elements at the end |
| `SuperMatcher.Reintegrate` | reactors-debugger/src/main/resources/io/reactors/debugger/lib/jquery/jquery-3.0.0.js:2525-2533 | Going backwards, every index that is empty in both arrays takes the last result, and this puts every accepted element back at its own index |
| `SuperMatcher.WhereItIs` | reactors-debugger/src/main/resources/io/reactors/debugger/lib/jquery/jquery-3.0.0.js:2519-2533 | An index is empty in both arrays iff its element was accepted by an element matcher |
| `Positional.SelectGroup` | reactors-debugger/src/main/resources/io/reactors/debugger/lib/jquery/jquery-3.0.0.js:2564-2592 | Compiling any group of selectors, any number of them with a position (`A:eq(n)B`), and matching any seed, whatever the engine's cache holds: the results are exactly the seed elements that a selector without a position selects by section 8 of W3C Selectors Level 3, or that the ones with a position find, each among the elements left: what A selects, what is at the position among that, and what B selects of that; each once, in seed order. The next four rows say in which order |
| `Positional.FrontIsJudgedLast` | reactors-debugger/src/main/resources/io/reactors/debugger/lib/jquery/jquery-3.0.0.js:2519-2583 | Putting a selector with a position in front of any group adds exactly what it selects among the elements the group does not select, and takes away at most results that fail what follows its pseudo when nothing precedes it |
| `Positional.LastSelectorGoesFirst` | reactors-debugger/src/main/resources/io/reactors/debugger/lib/jquery/jquery-3.0.0.js:2519-2583 | For every A, document and seed: `A:eq(0), A:eq(1)` selects the first two elements that A selects, `A:eq(1), A:eq(0)` the first and the third |
| `Positional.TwoPositions` | reactors-debugger/src/main/resources/io/reactors/debugger/lib/jquery/jquery-3.0.0.js:2519-2583 | For every A, x and y: `A:eq(x), A:eq(y)` selects the element at place y, and the one at place x, or x + 1 if the first took one before it |
| `Positional.PositionCutsList` | reactors-debugger/src/main/resources/io/reactors/debugger/lib/jquery/jquery-3.0.0.js:2057-2100 | Of the elements that A selects, `A:first` and `A:last` select the first and the last, `A:eq(n)` one counted from either end, `A:even` and `A:odd` every other one from the first or the second on, `A:lt(n)` and `A:gt(n)` all before or after one |
| `Positional.PlainGroupIsMatching` | reactors-debugger/src/main/resources/io/reactors/debugger/lib/jquery/jquery-3.0.0.js:2564-2592 | For a group without positions these are the elements that its selectors select one by one |
| `Positional.StageFinds` | reactors-debugger/src/main/resources/io/reactors/debugger/lib/jquery/jquery-3.0.0.js:2519-2523 | One more set matcher finds what its selector means among the elements left, and judges earlier results again iff it has no tokens before the pseudo |
| `Positional.PositionedCorrect` | reactors-debugger/src/main/resources/io/reactors/debugger/lib/jquery/jquery-3.0.0.js:2422-2443 | From empty results, the set matcher made of the compiled tokens before and after the pseudo finds exactly the elements that both parts select and that are in position |
| `Positional.GroupCorrect` | reactors-debugger/src/main/resources/io/reactors/debugger/lib/jquery/jquery-3.0.0.js:2473-2538 | The compiled group makes a result of exactly the elements that the group selects |
| `Positional.GroupIsUnionIff` | reactors-debugger/src/main/resources/io/reactors/debugger/lib/jquery/jquery-3.0.0.js:2496-2505 | Positions are counted among the elements that the other selectors leave: for a selector `A:eq(n)B` beside others, the group selects the union of its selectors at every position iff A is empty, or the others do not take one element that A selects and leave another that A and B select |
| `Positional.GroupSelectsMore` | reactors-debugger/src/main/resources/io/reactors/debugger/lib/jquery/jquery-3.0.0.js:2496-2505 | A group like `.active, li:eq(0)` on two list items of which the first is active: each selector selects the first only, the group both |
| `Positional.CompileParts` | reactors-debugger/src/main/resources/io/reactors/debugger/lib/jquery/jquery-3.0.0.js:2419-2443 | The positional branch compiles the tokens before and after the pseudo, each under fresh names, and leaves out what is empty; names for the context are taken even if nothing comes before the pseudo |
| `Positional.CompileGroup` | reactors-debugger/src/main/resources/io/reactors/debugger/lib/jquery/jquery-3.0.0.js:2570-2583 | The loop from the last selector of the group to the first builds element matchers and set matchers of exactly its selectors, and all of them stay known to the engine |
| `ChildFilter.ChildCounter.NthChildFilter` | reactors-debugger/src/main/resources/io/reactors/debugger/lib/jquery/jquery-3.0.0.js:1740-1866 | In any sequence of queries on one document, `:nth-child` is true iff the 1-based position is first*n + last for some n >= 0 (section 6.6.5.2 of W3C Selectors Level 3), though the search resumes from the index that an earlier query left on the parent |
| `ChildFilter.ChildCounter.NthChild` | reactors-debugger/src/main/resources/io/reactors/debugger/lib/jquery/jquery-3.0.0.js:1783-1811 | The resumed search, wrapping at most once, returns the true position |
| `ChildFilter.SeekForward` | reactors-debugger/src/main/resources/io/reactors/debugger/lib/jquery/jquery-3.0.0.js:1795-1811 | From any remembered child and its count, or from the start, the loop ends at the element with its true position |
| `ChildFilter.ChildCounter.NthLastChildFilter` | reactors-debugger/src/main/resources/io/reactors/debugger/lib/jquery/jquery-3.0.0.js:1740-1866 | The `:nth-last-child` filter tests the number it computed or remembered; that is first*n + last for some n >= 0 of the true position from the end (section 6.6.5.3 of W3C Selectors Level 3) unless the first query below the parent was about a later child |
| `ChildFilter.ChildCounter.NthLastChild` | reactors-debugger/src/main/resources/io/reactors/debugger/lib/jquery/jquery-3.0.0.js:1813-1859 | In any sequence of queries the number used is the one determined by the first query below the same parent in this run |
| `ChildFilter.AnswerIsTrueIff` | reactors-debugger/src/main/resources/io/reactors/debugger/lib/jquery/jquery-3.0.0.js:1813-1859 | That number is the true position from the end iff the first child asked about below the parent was this element or an earlier one: the loop marks every sibling with a count that starts at the asked element |
| `ChildFilter.AnswerCanBeWrong` | reactors-debugger/src/main/resources/io/reactors/debugger/lib/jquery/jquery-3.0.0.js:1813-1859 | A concrete document with two children on which the second query gets a wrong position |
| `ChildFilter.SeekBackward` | reactors-debugger/src/main/resources/io/reactors/debugger/lib/jquery/jquery-3.0.0.js:1832-1859 | The loop from the last child returns the true position of the asked element, and what it writes on every sibling |
| `ChildFilter.SeekUncached` | reactors-debugger/src/main/resources/io/reactors/debugger/lib/jquery/jquery-3.0.0.js:1832-1859 | Without the cache, both directions count to the true position |
| `ChildFilter.CountLast` | reactors-debugger/src/main/resources/io/reactors/debugger/lib/jquery/jquery-3.0.0.js:1813-1859 | One query against the entries below one parent |
| `ChildFilter.InCycleIsFormula` | reactors-debugger/src/main/resources/io/reactors/debugger/lib/jquery/jquery-3.0.0.js:1862-1864 | The final test holds iff the position is first*n + last for some n >= 0, also for zero and negative steps |
| `ChildFilter.SimpleChild` | reactors-debugger/src/main/resources/io/reactors/debugger/lib/jquery/jquery-3.0.0.js:1762-1778 | first-, last- and only-child hold iff the element is alone on the sides they name |
| `Callbacks.ExactlyOnceInOrder` | reactors-debugger/src/main/resources/io/reactors/debugger/lib/jquery/jquery-3.0.0.js:3227-3319 | With "once memory", in every sequence of add, remove, fire and return, also re-entrant: callbacks are called with the first fire's arguments, in order of addition, each added one that was not removed before its turn exactly once, and none again |
| `CallbackRuns.RemovedIsNotCalled` | reactors-debugger/src/main/resources/io/reactors/debugger/lib/jquery/jquery-3.0.0.js:3306-3319 | In every sequence of calls, whatever the options and also from inside callbacks: once a function has been removed it is not called until it is added again |
| `CallbackRuns.RemoveTakesOut` | reactors-debugger/src/main/resources/io/reactors/debugger/lib/jquery/jquery-3.0.0.js:3306-3319 | `remove` leaves on the list, and of what waits for its turn, exactly the entries of other functions, in order, and changes nothing else |
| `CallbackRuns.CalledIffNotRemoved` | reactors-debugger/src/main/resources/io/reactors/debugger/lib/jquery/jquery-3.0.0.js:3227-3319 | A "once memory" list that has fired and is idle has called an entry iff no call to `remove` named its function while it had been added and not called |
| `CallbackRuns.SkippedWereRemoved` | reactors-debugger/src/main/resources/io/reactors/debugger/lib/jquery/jquery-3.0.0.js:3306-3319 | What `Callbacks.ExactlyOnceInOrder` leaves out are the entries removed in that sense |
| `CallbackRuns.AddedAsGiven` | reactors-debugger/src/main/resources/io/reactors/debugger/lib/jquery/jquery-3.0.0.js:3275-3303 | The entries it speaks of are the functions given to `add`, in order |
| `CallbackRuns.EveryoneHearsEverything` | reactors-debugger/src/main/resources/io/reactors/debugger/lib/jquery/jquery-3.0.0.js:3227-3269 | A list that is not "once": every notification, also one made by a running callback, is given to every entry, in the order of the notifications and then of the entries |
| `CallbackRuns.UniqueStaysUnique` | reactors-debugger/src/main/resources/io/reactors/debugger/lib/jquery/jquery-3.0.0.js:3284-3287 | A "unique" list never holds a function twice |
| `CallbackRuns.AddPutsAll` | reactors-debugger/src/main/resources/io/reactors/debugger/lib/jquery/jquery-3.0.0.js:3284-3287 | Adding puts all functions given behind those on the list, in order; a "unique" list gets those it has not got |
| `CallbackRuns.LateAddCallsTheNew` | reactors-debugger/src/main/resources/io/reactors/debugger/lib/jquery/jquery-3.0.0.js:3275-3303 | An idle list that remembers its last notification calls the entries added then with it, from the first one on, and none of the older ones |
| `CallbackRuns.NoMemoryIsKept` | reactors-debugger/src/main/resources/io/reactors/debugger/lib/jquery/jquery-3.0.0.js:3250-3253 | In every run a list without "memory" remembers nothing when it is idle |
| `CallbackRuns.FalseEndsTheRound` | reactors-debugger/src/main/resources/io/reactors/debugger/lib/jquery/jquery-3.0.0.js:3240-3247 | Returning false ends the round and forgets the arguments iff the list is "stopOnFalse" |
| `CallbackRuns.DisabledForGood` | reactors-debugger/src/main/resources/io/reactors/debugger/lib/jquery/jquery-3.0.0.js:3340-3344 | After `disable` nothing is ever called again |
| `Callbacks.CallsIncrease` | reactors-debugger/src/main/resources/io/reactors/debugger/lib/jquery/jquery-3.0.0.js:3227-3319 | No callback occurrence is ever called twice or out of order |
| `Callbacks.LockSurvivesAddIff` | reactors-debugger/src/main/resources/io/reactors/debugger/lib/jquery/jquery-3.0.0.js:3275-3303 | A locked list stays locked through `add` iff it is a "once" list, disabled, without memory, or firing; otherwise adding to a locked list unlocks it |
| `Callbacks.EmptyWhileFiringSkips` | reactors-debugger/src/main/resources/io/reactors/debugger/lib/jquery/jquery-3.0.0.js:3330-3335 | `empty` called by a running callback keeps the firing index, so of the callbacks added afterwards, in any number of calls, as many as the firing index plus one, or all if there are fewer, are not reached in this round |
| `Callbacks.AddedButForgotten` | reactors-debugger/src/main/resources/io/reactors/debugger/lib/jquery/jquery-3.0.0.js:3330-3335 | A callback empties a "once memory" list and adds another one: that one is never called, and is off the list at the end |
| `Callbacks.NextIsSound` | reactors-debugger/src/main/resources/io/reactors/debugger/lib/jquery/jquery-3.0.0.js:3197-3389 | Every operation, with any options, keeps the indexes, the queue and the memory consistent |
| `Callbacks.CallbackList.Add` | reactors-debugger/src/main/resources/io/reactors/debugger/lib/jquery/jquery-3.0.0.js:3275-3303 | `add` on the object is the specified step: memory fires at once, otherwise the callbacks are appended |
| `Callbacks.CallbackList.FireWith` | reactors-debugger/src/main/resources/io/reactors/debugger/lib/jquery/jquery-3.0.0.js:3364-3374 | `fireWith` queues and starts firing, or only queues while firing, or does nothing when locked |
| `Callbacks.CallbackList.Return` | reactors-debugger/src/main/resources/io/reactors/debugger/lib/jquery/jquery-3.0.0.js:3240-3262 | When a callback returns, the loop goes on, ends the round, or stops on false |
| `Callbacks.CallbackList.Advance` | reactors-debugger/src/main/resources/io/reactors/debugger/lib/jquery/jquery-3.0.0.js:3227-3269 | The firing loop up to the next callback |
| `Callbacks.CallbackList.Remove` | reactors-debugger/src/main/resources/io/reactors/debugger/lib/jquery/jquery-3.0.0.js:3306-3319 | `remove` takes out every occurrence and corrects the firing index for those already called |
| `Callbacks.SpliceOut` | reactors-debugger/src/main/resources/io/reactors/debugger/lib/jquery/jquery-3.0.0.js:3307-3317 | The search and splice loop removes all occurrences and moves the index back once for each one at or before it |
| `Callbacks.InArray` | reactors-debugger/src/main/resources/io/reactors/debugger/lib/jquery/jquery-3.0.0.js:3307-3309 | The index of the first occurrence from a place on, or -1 when there is none |
| `Callbacks.CallbackList.Empty` | reactors-debugger/src/main/resources/io/reactors/debugger/lib/jquery/jquery-3.0.0.js:3330-3335 | `empty` on the object is the specified step |
| `Callbacks.CallbackList.Disable` | reactors-debugger/src/main/resources/io/reactors/debugger/lib/jquery/jquery-3.0.0.js:3340-3344 | `disable` on the object is the specified step |
| `Callbacks.CallbackList.Lock` | reactors-debugger/src/main/resources/io/reactors/debugger/lib/jquery/jquery-3.0.0.js:3352-3358 | `lock` on the object is the specified step |
| `Deferred.FirstSettlementDecides` | reactors-debugger/src/main/resources/io/reactors/debugger/lib/jquery/jquery-3.0.0.js:3433-3457 | In every sequence of calls, from outside or from running callbacks, the promise is pending until the first resolveWith or rejectWith and then has that settlement and arguments; the winning list fires in order and the losing one is dead |
| `Deferred.LaterSettlementsChangeNothing` | reactors-debugger/src/main/resources/io/reactors/debugger/lib/jquery/jquery-3.0.0.js:3662-3708 | After the first settlement, resolving or rejecting changes nothing at all |
| `Deferred.OnlyOneSideRuns` | reactors-debugger/src/main/resources/io/reactors/debugger/lib/jquery/jquery-3.0.0.js:3662-3708 | Done and fail callbacks never both run, and those that run agree with the state |
| `Deferred.EveryCallbackRunsOnce` | reactors-debugger/src/main/resources/io/reactors/debugger/lib/jquery/jquery-3.0.0.js:3662-3708 | On the winning side every callback, added before or after, is called once with the settlement's arguments, in order |
| `Deferred.SettlementIsFinal` | reactors-debugger/src/main/resources/io/reactors/debugger/lib/jquery/jquery-3.0.0.js:3433-3457 | The state leaves "pending" at most once |
| `Deferred.OwnCallbacksSettle` | reactors-debugger/src/main/resources/io/reactors/debugger/lib/jquery/jquery-3.0.0.js:3672-3694 | The list's own first callbacks set the state and disable the other list before any user callback runs |
| `Deferred.ReactEndsInUserCode` | reactors-debugger/src/main/resources/io/reactors/debugger/lib/jquery/jquery-3.0.0.js:3662-3708 | Between two calls no callback of the Deferred itself is left running |
| `Notify.LockedSinceSettled` | reactors-debugger/src/main/resources/io/reactors/debugger/lib/jquery/jquery-3.0.0.js:3662-3708 | In every sequence of calls the progress list is locked iff the Deferred is settled and no progress callback has been added since while the list was idle and remembered a notification |
| `Notify.NotifyIsIgnoredIff` | reactors-debugger/src/main/resources/io/reactors/debugger/lib/jquery/jquery-3.0.0.js:3662-3708 | In every sequence of calls a notification is ignored iff the list is still locked, or is idle, without callbacks, and remembers these very arguments; otherwise it is queued behind the running callback or the first callback is called with it |
| `Notify.NotifyComesBack` | reactors-debugger/src/main/resources/io/reactors/debugger/lib/jquery/jquery-3.0.0.js:3662-3708 | A concrete sequence after which a resolved Deferred calls a progress callback with a new notification |
| `Deferred.DeferredObject.FireWith` | reactors-debugger/src/main/resources/io/reactors/debugger/lib/jquery/jquery-3.0.0.js:3699-3707 | `resolveWith`, `rejectWith` and `notifyWith` on the three lists are the specified reaction |
| `Deferred.DeferredObject.Add` | reactors-debugger/src/main/resources/io/reactors/debugger/lib/jquery/jquery-3.0.0.js:3667-3670 | `done`, `fail` and `progress` are the specified reaction |
| `Deferred.DeferredObject.Return` | reactors-debugger/src/main/resources/io/reactors/debugger/lib/jquery/jquery-3.0.0.js:3227-3269 | The return of a user callback is the specified reaction |
| `Deferred.DeferredObject.constructor` | reactors-debugger/src/main/resources/io/reactors/debugger/lib/jquery/jquery-3.0.0.js:3433-3457 | A new Deferred is pending and its lists begin with their own callbacks |
| `Subordinates.MasterFollowsItsArguments` | reactors-debugger/src/main/resources/io/reactors/debugger/lib/jquery/jquery-3.0.0.js:3723-3768 | Over two or more Deferreds, in every order of calls to them and to the promise, also re-entrant: when the master is resolved all arguments are, and its callbacks get their values in argument order; when it is rejected one of them is, and its callbacks get the reason of one that was; and once every argument has called what it has to call, both are equivalences |
| `Subordinates.SettledHasCalledAll` | reactors-debugger/src/main/resources/io/reactors/debugger/lib/jquery/jquery-3.0.0.js:3227-3319 | A Deferred that is settled and idle has called its own four callbacks and then all that users added to that side, in order |
| `Subordinates.ArgumentsSettleOnce` | reactors-debugger/src/main/resources/io/reactors/debugger/lib/jquery/jquery-3.0.0.js:3736-3765 | The two callbacks that `when` adds to an argument are together called at most once, so no argument counts twice |
| `Subordinates.HeardIsFollowed` | reactors-debugger/src/main/resources/io/reactors/debugger/lib/jquery/jquery-3.0.0.js:3399-3408 | The master hears of an argument exactly the calls of those two callbacks |
| `Subordinates.FollowsAtMostOnce` | reactors-debugger/src/main/resources/io/reactors/debugger/lib/jquery/jquery-3.0.0.js:3399-3408 | A Deferred calls one of the two callbacks at most once, on the side on which it was settled, and has called it when it is settled and idle |
| `When.MasterFollows` | reactors-debugger/src/main/resources/io/reactors/debugger/lib/jquery/jquery-3.0.0.js:3723-3768 | In every order of the settlements heard: the master is resolved iff all have resolved, with their values in argument order, and rejected iff one has been rejected, with the first rejection's value |
| `When.MasterIsToldFirst` | reactors-debugger/src/main/resources/io/reactors/debugger/lib/jquery/jquery-3.0.0.js:3736-3747 | What the master is told first is the outcome expected from the settlements alone |
| `When.CountsResolutions` | reactors-debugger/src/main/resources/io/reactors/debugger/lib/jquery/jquery-3.0.0.js:3736-3747 | `remaining` is the number of arguments that have not resolved, and every resolved argument's value is in its place |
| `When.FailureExcludesAll` | reactors-debugger/src/main/resources/io/reactors/debugger/lib/jquery/jquery-3.0.0.js:3760-3765 | Once one argument has failed, the count never reaches zero |
| `When.AdoptingIsAggregating` | reactors-debugger/src/main/resources/io/reactors/debugger/lib/jquery/jquery-3.0.0.js:3760-3765 | Adopting arguments that are already settled, last one first, is one of those orders |
| `When.WhenCall.Settled` | reactors-debugger/src/main/resources/io/reactors/debugger/lib/jquery/jquery-3.0.0.js:3736-3747 | One argument settles: on the object as specified |
| `When.WhenCall.constructor` | reactors-debugger/src/main/resources/io/reactors/debugger/lib/jquery/jquery-3.0.0.js:3723-3768 | The whole call, adopting all arguments; if some are already rejected the master is rejected with the reason of the last of them |
| `When.LastRejectionIsFirst` | reactors-debugger/src/main/resources/io/reactors/debugger/lib/jquery/jquery-3.0.0.js:3760-3765 | Of several arguments already rejected, the last one's reason is the first failure the master hears |
| `HashTable.RepliesOfOneMap` | reactors/shared/src/test/scala/tutorial/guide-protocol-router.scala:227-247 | In every interleaving of sends, deliveries, forwards and shard steps over FIFO channels, every reply is what one single map would answer, serving the requests in the order of their arrival at the router: the last value put to the key by a request before it, or nothing if there is none |
| `HashTable.ServeHoldsLastValues` | reactors/shared/src/test/scala/tutorial/guide-protocol-router.scala:233-242 | The single map holds for every key the last value put to it |
| `HashTable.EverythingCanBeAnswered` | reactors/shared/src/test/scala/tutorial/guide-protocol-router.scala:227-247 | From every state that can be reached, without new requests, the system can reach one in which every request sent has been answered |
| `HashTable.EveryRunIsOk` | reactors/shared/src/test/scala/tutorial/guide-protocol-router.scala:227-247 | Every shard has handled a prefix of the router's log filtered to that shard, and its map is the fold of that prefix |
| `HashTable.ShardKnowsItsKeys` | reactors/shared/src/test/scala/tutorial/guide-protocol-router.scala:227-247 | For its own keys a shard's map agrees with the single map |
| `HashTable.ClientsAreServedInOrder` | reactors/shared/src/test/scala/tutorial/guide-protocol-router.scala:227-247 | A client's requests take effect in the order in which it sent them |
| `HashTable.RealTimeOrder` | reactors/shared/src/test/scala/tutorial/guide-protocol-router.scala:227-247 | A request sent after another has been answered takes effect after it |
| `HashTable.NoSecondReply` | reactors/shared/src/test/scala/tutorial/guide-protocol-router.scala:227-247 | No request is answered twice |
| `HashTable.QuietMeansAnswered` | reactors/shared/src/test/scala/tutorial/guide-protocol-router.scala:227-247 | When no message is under way, every request has been answered |
| `HashTable.Shard.OnEvent` | reactors/shared/src/test/scala/tutorial/guide-protocol-router.scala:233-242 | A shard answers with the value before the operation; afterwards it holds the value put, and nothing else has changed |
| `CBuffer.Buffer.Push` | reactors-debugger/src/main/resources/io/reactors/debugger/lib/cbuffer/cbuffer.js:54-79 | The view becomes the last `length` items of view ++ items, from any state, for any number of items; the new size is returned, and where start and end then are; the overflow callback gets the items in the slots after the end, which are the items lost when the buffer is full and the batch not longer than it |
| `CBuffer.ReportsLostIff` | reactors-debugger/src/main/resources/io/reactors/debugger/lib/cbuffer/cbuffer.js:57-63 | For a batch not longer than the buffer, each slot handed to the overflow callback of `push` is that of the item lost iff the buffer is full |
| `CBuffer.PushReportsAnother` | reactors-debugger/src/main/resources/io/reactors/debugger/lib/cbuffer/cbuffer.js:57-63 | A buffer of three slots with two items: the callback gets an item that had been taken out before, not the one that is lost |
| `CBuffer.Buffer.Unshift` | reactors-debugger/src/main/resources/io/reactors/debugger/lib/cbuffer/cbuffer.js:130-153 | The view becomes the first `length` items of reversed items ++ view, for any number of items; `start` (or `end`) ends up at `length`, outside the array, iff the batch goes back past index 0 by a multiple of `length`; the overflow callback gets the slots from the end down, once around for every `length` items, and nothing for those below index 0; for a batch not longer than the buffer these are the lost items, last one first, as far as index 0 |
| `CBuffer.Buffer.Pop` | reactors-debugger/src/main/resources/io/reactors/debugger/lib/cbuffer/cbuffer.js:43-52 | It returns and removes the last item of the view and erases its slot; nothing is returned on an empty buffer, or when `end` is outside the array |
| `CBuffer.Buffer.Shift` | reactors-debugger/src/main/resources/io/reactors/debugger/lib/cbuffer/cbuffer.js:110-121 | It returns and removes the first item of the view; when `start` is outside the array the item is removed but not returned |
| `CBuffer.ShiftLosesTheItem` | reactors-debugger/src/main/resources/io/reactors/debugger/lib/cbuffer/cbuffer.js:110-153 | With one slot, `unshift` followed by `shift` returns nothing |
| `CBuffer.PopLosesTheItem` | reactors-debugger/src/main/resources/io/reactors/debugger/lib/cbuffer/cbuffer.js:43-153 | With one slot that is taken, `unshift` followed by `pop` returns nothing |
| `CBuffer.Buffer.Reverse` | reactors-debugger/src/main/resources/io/reactors/debugger/lib/cbuffer/cbuffer.js:81-90 | The view is reversed in place |
| `CBuffer.MirroredOneMore` | reactors-debugger/src/main/resources/io/reactors/debugger/lib/cbuffer/cbuffer.js:84-88 | Swapping one pair extends the reversed part on both sides, across the wrap-around |
| `CBuffer.Buffer.RotateLeft` | reactors-debugger/src/main/resources/io/reactors/debugger/lib/cbuffer/cbuffer.js:92-99 | n single turns to the left; an empty buffer gets one missing item |
| `CBuffer.Buffer.RotateRight` | reactors-debugger/src/main/resources/io/reactors/debugger/lib/cbuffer/cbuffer.js:101-108 | n single turns to the right |
| `CBuffer.LeftTurnsRotate` | reactors-debugger/src/main/resources/io/reactors/debugger/lib/cbuffer/cbuffer.js:92-99 | n turns of a non-empty view cut it at n modulo its size |
| `CBuffer.RotationsUndoEachOther` | reactors-debugger/src/main/resources/io/reactors/debugger/lib/cbuffer/cbuffer.js:92-108 | Rotating right by n undoes rotating left by n, and the other way round |
| `CBuffer.TurningNothing` | reactors-debugger/src/main/resources/io/reactors/debugger/lib/cbuffer/cbuffer.js:92-108 | Rotating an empty buffer stores one missing item |
| `CBuffer.Buffer.SortedIndex` | reactors-debugger/src/main/resources/io/reactors/debugger/lib/cbuffer/cbuffer.js:175-196 | The result is the slot or place that the function `Found` names; on a full sorted buffer at any rotation this is min(items less than the value, size - 1), and on one that is not full and starts at slot 0 the exact lower bound: by the comparison given, the value belongs after all items before that place and after none of the others |
| `CBuffer.RankIsPlace` | reactors-debugger/src/main/resources/io/reactors/debugger/lib/cbuffer/cbuffer.js:180-195 | In an ordered view the number of items the value belongs after is its place |
| `CBuffer.FoundIsRankIff` | reactors-debugger/src/main/resources/io/reactors/debugger/lib/cbuffer/cbuffer.js:175-196 | On a buffer that is not full, with whatever is in the slots outside the view, the result is the lower bound for every comparison and value in whose order the view is iff `start` is 0 |
| `CBuffer.SortedIndexIsWrong` | reactors-debugger/src/main/resources/io/reactors/debugger/lib/cbuffer/cbuffer.js:175-196 | In the buffer [2] that starts at slot 1 the search for 0 returns 1 |
| `CBuffer.FoundAtStart` | reactors-debugger/src/main/resources/io/reactors/debugger/lib/cbuffer/cbuffer.js:175-196 | For a value that is not beyond the item in any slot of a buffer that is not full, the lower bound is 0, and the result is 0 iff `start` is |
| `CBuffer.FoundInFull` | reactors-debugger/src/main/resources/io/reactors/debugger/lib/cbuffer/cbuffer.js:180-195 | Where the search ends in the array is the place in the rotated view, or the last place |
| `CBuffer.RankIs` | reactors-debugger/src/main/resources/io/reactors/debugger/lib/cbuffer/cbuffer.js:186-190 | Two neighbouring comparisons settle the lower bound of a sorted view |
| `CBuffer.SortedIsOrdered` | reactors-debugger/src/main/resources/io/reactors/debugger/lib/cbuffer/cbuffer.js:170-196 | A view sorted by a transitive comparison has all smaller items in front |
| `CBuffer.Buffer.Slice` | reactors-debugger/src/main/resources/io/reactors/debugger/lib/cbuffer/cbuffer.js:296-321 | For all integer bounds, and without an end, the result is that of `Array.prototype.slice` (section 22.1.3.22 of ECMA-262, 6th edition) on the view |
| `CBuffer.SliceBounds` | reactors-debugger/src/main/resources/io/reactors/debugger/lib/cbuffer/cbuffer.js:296-321 | Bounds count from the start or, if negative, from the end, and those outside stand for the ends |
| `CBuffer.SlotIsRemainder` | reactors-debugger/src/main/resources/io/reactors/debugger/lib/cbuffer/cbuffer.js:61-76 | For positions that are not negative a slot is the remainder by the length |
| `CBuffer.SlotsDiffer` | reactors-debugger/src/main/resources/io/reactors/debugger/lib/cbuffer/cbuffer.js:61-76 | Positions less than one round apart are different slots |
| `CBuffer.PushKeepsLast` | reactors-debugger/src/main/resources/io/reactors/debugger/lib/cbuffer/cbuffer.js:65-76 | The recomputed size, end and start show the last items written |
| `CBuffer.WrappedIsSameSlot` | reactors-debugger/src/main/resources/io/reactors/debugger/lib/cbuffer/cbuffer.js:142-151 | The correction of a negative index lands in the right slot, or exactly at the length when it was a multiple of it |
| `CBuffer.Buffer.constructor` | reactors-debugger/src/main/resources/io/reactors/debugger/lib/cbuffer/cbuffer.js:20-29 | A new buffer of a given length is empty, with start, end and size consistent |
| `CBuffer.Buffer.Of` | reactors-debugger/src/main/resources/io/reactors/debugger/lib/cbuffer/cbuffer.js:20-26 | A buffer made from items is as long as they are and holds exactly them |
| `Timer.EveryRunIsSafe` | reactors-common/js/src/main/scala/java/util/TimerTask.scala:16-50 | In every interleaving of scheduling, cancelling tasks and timers, timeouts and throwing runs: a task has at most one live timeout, the one in its handle, and none once it is canceled or while it runs; a one-shot task runs at most once; `cancel` returns true at most once |
| `Timer.FiringRuns` | reactors-common/js/src/main/scala/java/util/TimerTask.scala:38-42 | In every run: when a due timeout fires and its timer is not canceled, the task is run |
| `Timer.ReenteringRuns` | reactors-common/js/src/main/scala/java/util/Timer.scala:94-99 | A fixed-rate loop that calls itself runs its task again, unless the task or its timer has been canceled |
| `Timer.EveryIterationRuns` | reactors-common/js/src/main/scala/java/util/TimerTask.scala:38-42 | In every run: a task never canceled, on a timer never canceled, has been run once for every iteration of its loop |
| `Timer.CompletedHasRun` | reactors-common/js/src/main/scala/java/util/Timer.scala:37-43 | A completed one-shot task that was never canceled, on a timer never canceled, has run exactly once |
| `Timer.ThrowEndsTheTask` | reactors-common/js/src/main/scala/java/util/TimerTask.scala:43-48 | In every run: a run that throws leaves its task canceled and completed and without a timeout |
| `Timer.ScheduledTaskRuns` | reactors-common/js/src/main/scala/java/util/Timer.scala:37-109 | Scheduling a fresh task on a live timer succeeds: the task runs when its timeout fires once the delay is over, and firing it earlier is impossible |
| `Timer.TaskCancelIsFinal` | reactors-common/js/src/main/scala/java/util/TimerTask.scala:16-28 | After `TimerTask.cancel` no event sequence runs the task again or makes `cancel` return true again |
| `Timer.TimerCancelIsFinal` | reactors-common/js/src/main/scala/java/util/Timer.scala:124 | After `Timer.cancel` no event sequence runs any of its tasks, and no task can be scheduled on it |
| `Timer.OwnerIsForLife` | reactors-common/js/src/main/scala/java/util/Timer.scala:15-23 | Once scheduled, a task keeps its timer and its plan, whatever is called |
| `Timer.OnlyTheTaskEndsTheTimeouts` | reactors-common/js/src/main/scala/java/util/Timer.scala:59-109 | Outside its callback a recurring task has a live timeout iff the task itself is not canceled: cancelling the timer leaves its timeouts firing without effect |
| `Timer.CancelTellsTheTruth` | reactors-common/js/src/main/scala/java/util/TimerTask.scala:16-28 | In every run: outside its callback `cancel` returns true iff it clears a live timeout of the task; inside, iff the task has not been canceled yet, even when nothing more would have run |
| `Timer.RunsKnowTheirTime` | reactors-common/js/src/main/scala/java/util/TimerTask.scala:38-42 | While a task runs, its scheduled execution time is the millisecond in which this run began |
| `Timer.RunKeepsOk` | reactors-common/js/src/main/scala/java/util/Timer.scala:15-109 | The invariant behind these: flags, handles, live timeouts and the running callback agree after every event |
| `Timer.TimerTask.Cancel` | reactors-common/js/src/main/scala/java/util/TimerTask.scala:16-28 | `cancel` clears the timeout in the handle and returns true iff the task was scheduled, not canceled and not completed |
| `Timer.TimerTask.Arm` | reactors-common/js/src/main/scala/java/util/TimerTask.scala:32-36 | `timeout` arms one timeout and keeps its handle, unless the task is canceled |
| `Timer.TimerTask.BeginRun` | reactors-common/js/src/main/scala/java/util/TimerTask.scala:38-42 | `doRun` runs iff neither the task nor its timer is canceled, and notes the time |
| `Timer.TimerTask.FailRun` | reactors-common/js/src/main/scala/java/util/TimerTask.scala:43-48 | A run that throws leaves the task canceled and completed |
| `Timer.Timer.Acquire` | reactors-common/js/src/main/scala/java/util/Timer.scala:15-23 | A task is acquired iff the timer is not canceled and the task has never been scheduled or canceled |
| `Timer.Timer.Schedule` | reactors-common/js/src/main/scala/java/util/Timer.scala:37-43 | A successful call acquires the task and arms its first timeout; a refused one changes nothing |
| `Timer.Timer.Leave` | reactors-common/js/src/main/scala/java/util/Timer.scala:59-109 | What each of the three callbacks does after the run: complete, re-run at once, or arm the next timeout with the computed delay |
| `TimerRates.FixedRateKeepsItsSlots` | reactors-common/js/src/main/scala/java/util/Timer.scala:89-109 | Iteration k of a fixed-rate loop is for slot s0 + k * period however long the runs take, and no iteration but the first begins before its slot; s0 is one period after the start |
| `TimerRates.NoSlotIsSkipped` | reactors-common/js/src/main/scala/java/util/Timer.scala:94-104 | Whenever the fixed-rate loop goes to sleep, every slot up to now has had its iteration |
| `TimerRates.PeriodsAreKept` | reactors-common/js/src/main/scala/java/util/Timer.scala:59-74 | Consecutive iterations of a periodic task begin at least one period apart, though durations are rounded down to milliseconds |
| `TimerRates.PromptPeriods` | reactors-common/js/src/main/scala/java/util/Timer.scala:59-74 | In every run: after a finished iteration of a task that is not canceled, with a prompt timeout the gap is under period + 1 ms when the run takes at most a period, and is the duration itself when the rounded duration exceeds the period |
| `TimerRates.PromptSlots` | reactors-common/js/src/main/scala/java/util/Timer.scala:94-104 | In every run: when a fixed-rate loop that is not canceled goes to sleep and its timeout is prompt, the next iteration begins in the millisecond of its slot |
| `TimerRates.NextIsDue` | reactors-common/js/src/main/scala/java/util/Timer.scala:62-104 | The delay computed after a run leads to the next iteration at its proper time |
| `TimerRates.EveryRunIsOnTime` | reactors-common/js/src/main/scala/java/util/Timer.scala:59-109 | The invariant over all runs: noted iterations, pending timeouts and the running callback keep the distances and slots |
| `Animator.EveryRunIsSafe` | reactors-debugger/src/main/resources/io/reactors/debugger/js/animation.js:98-150 | In every run `totalAnimations` is the number of unfinished budgeted animations, from 0 to 32, and every animation's own `onStart` is called once and its own `onComplete` exactly once, when it finishes, is replaced or is over budget; afterwards it shows no frame |
| `Animator.FramesAreShownInOrder` | reactors-debugger/src/main/resources/io/reactors/debugger/js/animation.js:73-114 | In every run: an animation has shown the frames 0, 1, 2 and so on, in order, one more than it has had timeouts while it goes on; one that ends by itself has shown all its frames, with as many timeouts; one that was refused none |
| `Animator.RefusedIffNoBudget` | reactors-debugger/src/main/resources/io/reactors/debugger/js/animation.js:116-129 | An animation is refused iff it is budgeted and 32 others are unfinished |
| `Animator.LabelsAreExclusive` | reactors-debugger/src/main/resources/io/reactors/debugger/js/animation.js:131-149 | Two unfinished animations never carry the same label |
| `Animator.EveryAnimationEnds` | reactors-debugger/src/main/resources/io/reactors/debugger/js/animation.js:73-94 | Whatever is started or replaced meanwhile, an animation ends after at most totalFrames - frame + 1 of its timeouts |
| `Animator.RunKeepsOk` | reactors-debugger/src/main/resources/io/reactors/debugger/js/animation.js:98-150 | The invariant: labels, budget, pending timeouts and wrapped callbacks agree after every event |
| `Animator.CompletionFrees` | reactors-debugger/src/main/resources/io/reactors/debugger/js/animation.js:116-141 | Calling the nested wrappers calls the own callback and gives back exactly the slot and the label |
| `Animator.Animation.NextFrame` | reactors-debugger/src/main/resources/io/reactors/debugger/js/animation.js:73-86 | One frame, whose value is the interpolation function's at the frame noted as shown, or the end; `onStart` is called before the first one only |
| `Animator.Animation.Stop` | reactors-debugger/src/main/resources/io/reactors/debugger/js/animation.js:88-94 | Stopping calls `onComplete` once and ends the frames |
| `Animator.Animator.Start` | reactors-debugger/src/main/resources/io/reactors/debugger/js/animation.js:106-114 | The first frame is shown at once, and another timeout is wanted iff it had one |
| `Animator.Animator.StartBudgeted` | reactors-debugger/src/main/resources/io/reactors/debugger/js/animation.js:116-129 | Within budget it takes a slot that completion gives back; over budget both callbacks are called at once |
| `Animator.Animator.StartLabeled` | reactors-debugger/src/main/resources/io/reactors/debugger/js/animation.js:131-149 | The earlier bearer of the label is stopped, then the new one takes the label and starts; another timeout is wanted iff it had a frame to show and, if budgeted, the stopped one left room |
| `Animator.Animator.Call` | reactors-debugger/src/main/resources/io/reactors/debugger/js/animation.js:119-141 | What the closures around `onComplete` do |
| `SmoothStep.FramesRise` | reactors-debugger/src/main/resources/io/reactors/debugger/js/animation.js:54-62 | With from <= end the frames never go down, stay in [from, end], begin at from and arrive at end |
| `SmoothStep.FactorIsMonotone` | reactors-debugger/src/main/resources/io/reactors/debugger/js/animation.js:54-62 | The quintic factor is monotone |
| `SmoothStep.FactorRises` | reactors-debugger/src/main/resources/io/reactors/debugger/js/animation.js:54-62 | The rise of the factor over d is 30 * d times a mean of squares, as an exact polynomial identity |
| `SmoothStep.FactorStaysInside` | reactors-debugger/src/main/resources/io/reactors/debugger/js/animation.js:54-62 | On [0, 1] the factor stays in [0, 1] |
| `SmoothStep.FactorIsSymmetric` | reactors-debugger/src/main/resources/io/reactors/debugger/js/animation.js:54-62 | f(1 - x) = 1 - f(x) |
| `SmoothStep.FramesMirror` | reactors-debugger/src/main/resources/io/reactors/debugger/js/animation.js:54-62 | Frames equally far from the two ends lie equally far from the two values |

## Left out

- Parsing: regular expressions, `tokenize` and the compiler cache; a selector is a list of tokens, and a simple
  selector is a predicate on nodes.
- Native paths of the browser (`querySelectorAll`, `compareDocumentPosition`), IE's `sourceIndex`, attribute nodes,
  `innerText` and the quirks probed by feature tests.
- The `next: "legend"` skip of combinators, nested runs from `:has` and `:not`, post-finders, and positional selectors
  nested in post-filters.
- The search for a context in `superMatcher` (`outermost`, `checkContext`): the context is fixed per run.
- Sizzle.Engine.Select: covers groups without positions; groups with positions are `Positional.SelectGroup`. The
  compiler cache is not modelled.
- Sizzle.Engine.MatcherFromTokens: the branch for a position is `Positional.CompileParts`.
- Sizzle.Engine.SuperMatcher: covers element matchers; together with set matchers they are `SuperMatcher.SuperMatch`.
- Positional.CompileParts: tokens after the next combinator (a post-finder, as in `li:first > a`) are not modelled.
- SuperMatcher.SuperMatch: a run without a seed, which fetches all elements and sorts in the end, and seeds with holes,
  which only nested runs produce, are not modelled.
- DocumentOrder.Sorter.UniqueSort: the JavaScript engine's own sort is given by the comparisons it makes and the order
  it leaves, which must follow from them; nodes that are not in the document are not compared.
- DocumentOrder.SiblingCheck: two absent siblings do not occur.
- SetMatcher.SetMatch: the unseeded case, which first finds all elements of the document, is not modelled.
- ChildFilter.ChildCounter.NthLastChildFilter: types (`:nth-of-type`) are not modelled.
- ChildFilter.SeekForward: works on the marks of one parent's children rather than on the cache objects by node name.
- Callbacks.ExactlyOnceInOrder: callbacks that throw are not modelled, and contexts are part of the arguments.
- Deferred: `then` with its asynchronous chain and exceptions, and the handler lists that `then` fires.
- When.MasterFollows: zero or one argument and foreign thenables are not modelled; several arguments of one settlement
  count as one value.
- Subordinates.MasterFollowsItsArguments: the arguments are different Deferreds; one Deferred given twice, as in
  `when(d, d)`, is not covered.
- HashTable: how keys are hashed (any fixed function to shard numbers), reactor scheduling and channel internals.
- CBuffer.Buffer.Push: what an overflow callback does is not modelled, only what it is called with.
- CBuffer: `sort`, `sum`, `avg`, `fill` and the iteration methods; slots count as unbounded integers, so `>>> 1` is
  halving.
- CBuffer.Buffer.Slice: an end of `null` counts as absent, as in the code, where an array would take it as 0; bounds
  that are not integers are not modelled.
- Timer.Timer.Schedule: `Date` overloads and argument checks are not modelled; there is one monotonic clock for
  `currentTimeMillis` and `nanoTime`, and integers are unbounded.
- Timer.Timer.Leave: one method for the three callbacks; the thrown exception itself is not passed on.
- Animator.Animator.StartBudgeted: animations are fresh with both callbacks set, and their callbacks do not call the
  animator; linear interpolation and `map` on interpolators are left out as easy.
- SmoothStep.FramesRise: real numbers instead of floating point.
- The Java wrappers, other tutorials, uid helpers, terminal formatting and the remainder of jQuery.
