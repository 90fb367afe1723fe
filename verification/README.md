# hspaas: a verified model of its selector engine, callback machinery, data bookkeeping and check digits

The repository ships jQuery 1.11.0 with the Sizzle selector engine, a Java helper for Chinese resident identity
numbers, two JavaScript checks of the same numbers, and a credit card check. This project models the algorithms in
those files that are hard to see through, and proves what they are for.

- **Selectors.** `Tokenizer` is the lexer, with its recursive call for unquoted pseudo arguments; `TokenizerMeaning`
  says what it recognises. `MemoCache` and `SelectorSource` are the bounded caches and the part of `select` that works
  on cached token lists, and `SelectorSeeds` shows that what `select` hands on still means the selector.
  `SelectorMatchers` says what a chain of compounds and combinators means (section 8 of Selectors Level 3), models the
  closures the compiler builds, and proves when the two agree. `DirCaches` runs these closures with the per-run answers
  that the walks leave on the nodes: the arrays are heap objects, one array is shared by all nodes of a walk, and any
  closure, and any nested run that a filter starts, may overwrite any slot. `NthChild` does the same for the resumable
  sibling searches and the test of section 6.6.5.2. `SetMatchers` is `setMatcher` with all it may be built from,
  `SetMatcherMeaning` says entry by entry what it moves, `SuperMatcher` merges element matches and set matches back into
  seed order, and `DocumentOrder` relates the comparator and `uniqueSort` to preorder traversal. `DomTree` is the tree
  they share.
- **Callbacks, Deferred, when.** `Callbacks` is the list with its closure variables. A function called by the list
  may perform any finite script of operations on that very list; the methods equal a recursive specification for
  every script. `CallbackPasses` shows that specification to be a plain worklist, and derives who runs, how often and
  in which order; `CallbackOutside` is about the operations between passes. `Deferreds` is a step machine of three such
  lists with a stack of walks under way, `WhenAll` the counter behind `jQuery.when`, and `WhenDeferreds` puts that
  counter on real deferreds. `DeferredProgress` follows notifications, and `DeferredRest` and `WhenAnswers` show that
  nothing gets stuck.
- **Bookkeeping.** `DataIds` is the id allocator with its free list, and the handler lists of all elements; `cleanData`,
  `event.remove` and `removeData` run hooks that may call them again, to any depth. `DataRoundTrips` is about what these
  operations undo. `EventHandlers` is the handler list with the delegated prefix and the dispatch over a queue copied
  from it, `EventDispatch` says who is in the queue and where the calls end, and `FxQueue` is the queue with the
  "inprogress" sentinel.
- **Check digits.** `ResidentId` proves the Java and the JavaScript code against the check equation of ISO/IEC 7064
  for MOD 11-2 (the system GB 11643-1999 uses), and `Luhn` the digit-string construction against ISO/IEC 7812-1,
  Annex B. `Digits` and `Wrappers` hold what several modules use.

Code that changes state is a class with methods proved against pure functions; the laws are lemmas about those
functions. `dafny verify dfyconfig.toml` checks everything.

## Main results

- The compiled closures mean what the selector says: `SelectorMatchers.CompilerExactly`, and with the caches on the
  nodes, shared, overwritten and left behind, `DirCaches.Engine.Run` and `DirCaches.Engine.MatchAll`.
- What `select` cuts off, searches first or widens does not change what is selected: `SelectorSeeds.SelectIsRight`.
- Resuming a sibling search at a cached index gives the true rank: `NthChild.ChildFilter.FindRank`,
  `NthChild.ChildFilter.Nth`, `NthChild.AcceptsExactly`, `NthChild.RankMeans`.
- What a set matcher moves: `SetMatcherMeaning.PreFiltered`, `SetMatcherMeaning.Direct`,
  `SetMatcherMeaning.FinderAsked`; and their order: `SetMatchers.ContractExactly`, `SuperMatcher.Run`,
  `SuperMatcher.SafeAfterFirst`.
- The comparator is preorder traversal, exactly when: `DocumentOrder.OrderExactly`; duplicates go:
  `DocumentOrder.UniqueSortCorrect`.
- Lexing loses nothing: `Tokenizer.TokensMakeUpTheSelector`; it splits at commas: `TokenizerMeaning.CommaSplits`; the
  token cache is never spoilt:
  `SelectorSource.Source.Select`; the bounded cache keeps the last calls: `MemoCache.QueueIsTheLastCalls`.
- A callback list, changed by its own functions while it runs: `Callbacks.CallbackList.Perform` equals the
  specification, and for whatever the functions do that is a plain worklist: `CallbackPasses.RunIsRounds`,
  `CallbackPasses.FiresRunInOrder`, `CallbackPasses.EveryTurnOnce`, `CallbackPasses.LateAddRunsNewOnly`. What is removed
  between passes is not called: `CallbackOutside.RemovedIsNotCalled`.
- A deferred runs each handler once, with the first outcome: `Deferreds.HandlersRunOnce`,
  `Deferreds.FirstSettlementDecides`; `when` follows its promises: `WhenDeferreds.MasterIsRight`,
  `WhenDeferreds.MasterAtRest`, `WhenDeferreds.FirstRejectionCounts`. And both get there:
  `DeferredRest.EveryHandlerRuns`, `WhenAnswers.WhenAnswers`.
- Ids survive every run, whatever hooks clean, unbind and remove meanwhile: `DataIds.AlwaysValid`,
  `DataIds.CleanedKeeps`; which hooks a clean runs: `DataIds.HookRunsExactly`; binding and unbinding leaves nothing
  behind: `DataRoundTrips.BindUnbind`.
- A dispatch runs the handlers there were, from the inside out, up to the one that stops it:
  `EventHandlers.HandlerList.Dispatch`, `EventDispatch.QueueExactly`, `EventDispatch.DispatchEnds`,
  `EventHandlers.GroupsAreAlive`.
- Queued animations run one at a time: `FxQueue.OneAtATime`.
- The identity check accepts exactly the numbers of the standard, in both languages: `ResidentId.IdentityExactly`,
  `ResidentId.IsCardId`, `ResidentId.JavaScriptAgreesExactly`; the card check is the Luhn sum: `Luhn.CreditCard`.

## What the code does not do

These properties one would expect hold only under a condition. The first lemmas named give the condition, the last one
an input for which the property fails.

- In XML, in nested runs, and in runs whose context is the document itself, the context test is not made: the leftmost
  compound of a selector may lie outside the context, and a detached element is never tested against the document
  (`SelectorMatchers.CompilerExactly`, `SelectorMatchers.XmlSkipsContext`).
- The loops of `:lt(Infinity)` and `:gt(-Infinity)` do not end; for all other arguments they do, the input being part
  of the lemma (`SetMatchers.EndsExactly`).
- A set matcher that begins with its matching function filters matches of earlier groups away
  (`SetMatchers.ContractExactly`, `SuperMatcher.ContractThroughout`, `SetMatchers.LostMatch`).
- The comparator puts the root of a detached tree behind its descendants (`DocumentOrder.OrderExactly`,
  `DocumentOrder.DetachedRoot`).
- Ids are safe with teardown hooks that allocate nothing (`DataIds.CleanedKeeps`, `DataIds.AlwaysValid`), and with those
  that only store (`DataIds.StoringKeeps`). An id can be freed under a new owner when a hook cleans an element and
  another one takes the id (`DataIds.CleanedExactly`, `DataIds.StolenId`).
- Cleaning an element does not run the teardown hook of a type with handlers bound under another name, as `focus` with a
  selector is under `focusin` (`DataIds.HookRunsExactly`, `DataIds.FocusInside`). When handlers are unbound by namespace
  and selector, it can depend on the order of binding (`DataIds.OrderMatters`).
- A function added by a running function is called in the same pass, unless the list has been emptied meanwhile and is
  still shorter than the walk is far (`CallbackPasses.LateExactly`, `CallbackPasses.EmptyHidesAdds`).
- A list that is disabled stays silent until it is emptied; then one that was not fired before takes functions and calls
  them again (`CallbackOutside.DisableOutside`, `CallbackOutside.EmptyRevives`).
- Blanks in front of 15 digits pass the length test of the upgrade and make it fail as no number; behind the digits they
  pass (`ResidentId.FixPadded`).
- A function that calls `next` twice breaks the serialisation of the queue (`FxQueue.SecondCallExactly`,
  `FxQueue.TwiceBreaksIt`).
- With a cache length of zero nothing is ever evicted (`MemoCache.BoundExactly`, `MemoCache.NothingLeaves`).
- A 15-character string with a sign passes `isIdentity`, and then the upgrade throws (`ResidentId.FixedExactly`,
  `ResidentId.SignPasses`).
- The Java class accepts, and completes, numbers in digits that are not ASCII, which the JavaScript checks reject
  (`ResidentId.JavaScriptAgreesExactly`, `ResidentId.FullWidthDigits`).

## Model

| member | source | states |
|---|---|---|
| `DomTree.Tree.AxisStep` | hspaas/hsboss/src/main/webapp/resources/js/jquery-1.11.0.js:1555-1560 | following `parentNode` or `previousSibling` pointers enumerates exactly the ancestors, or the earlier siblings, and the walk ends |
| `SelectorMatchers.CompilerExactly` | hspaas/hsboss/src/main/webapp/resources/js/jquery-1.11.0.js:2281-2334 | compiler correctness, with its exact condition: all closures built from non-positional groups select exactly what the chains mean, context test included, if and only if the context test is made or would pass for every element |
| `SelectorMatchers.CompilerCorrect` | hspaas/hsboss/src/main/webapp/resources/js/jquery-1.11.0.js:2281-2334 | with a leading combinator, or in an outermost run over HTML whose context is not the document, the closure selects exactly what the chain means |
| `SelectorMatchers.XmlSkipsContext` | hspaas/hsboss/src/main/webapp/resources/js/jquery-1.11.0.js:2290 | in XML `a b` selects an element of the context although the only `a` lies above the context |
| `SelectorMatchers.RootContext` | hspaas/hsboss/src/main/webapp/resources/js/jquery-1.11.0.js:2288-2300 | searching a whole document never suffers from that |
| `SelectorMatchers.CompilerAnswers` | hspaas/hsboss/src/main/webapp/resources/js/jquery-1.11.0.js:2281-2334 | what the closure answers in all cases, the unmade context test included |
| `SelectorMatchers.CompiledMeaning` | hspaas/hsboss/src/main/webapp/resources/js/jquery-1.11.0.js:2302-2333 | for every token list the compiled closure answers true exactly when some assignment of nodes to all compounds satisfies every filter and combinator, and the leftmost one is reachable or taken to be |
| `SelectorMatchers.FoundationMeaning` | hspaas/hsboss/src/main/webapp/resources/js/jquery-1.11.0.js:2288-2300 | the first closure tests that a context node is reached by the leading combinator, or by an implied descendant one; without a leading combinator the test is skipped for XML, for nested runs, and when the context is the document itself |
| `SelectorMatchers.WalkMeaning` | hspaas/hsboss/src/main/webapp/resources/js/jquery-1.11.0.js:2100-2151 | a walk answers true exactly when some node the combinator relates to the element satisfies the inner closure: the closest one for `>` and `+`, any one for the others, with full backtracking |
| `SelectorMatchers.RelativeTable` | hspaas/hsboss/src/main/webapp/resources/js/jquery-1.11.0.js:1555-1560 | the table of axes and `first` flags is right about every combinator: on its axis, the closest node that qualifies for `>` and `+`, and any one for a space and `~`, are the nodes section 8 of Selectors Level 3 relates |
| `SelectorMatchers.AdjacentIsNext` | hspaas/hsboss/src/main/webapp/resources/js/jquery-1.11.0.js:1555-1560 | `+` relates an element to the element before it under the same parent: only text and comments stand between them |
| `SelectorMatchers.ChildIsParent` | hspaas/hsboss/src/main/webapp/resources/js/jquery-1.11.0.js:1556 | `>` relates an element to its parent only, provided no node between two elements is a non-element |
| `DirCaches.Engine.Run` | hspaas/hsboss/src/main/webapp/resources/js/jquery-1.11.0.js:2116-2150 | a closure run with the caches on the nodes answers what it means without them, whatever slots earlier queries left and whatever nested runs write while it is under way, and leaves all slots sound |
| `DirCaches.Engine.RunCachedWalk` | hspaas/hsboss/src/main/webapp/resources/js/jquery-1.11.0.js:2116-2150 | the caching walk answers like the plain one after any sequence of queries of the run |
| `DirCaches.Engine.Climb` | hspaas/hsboss/src/main/webapp/resources/js/jquery-1.11.0.js:2130-2148 | its loop: every slot is right or holds the shared array of this walk |
| `DirCaches.Engine.VisitNode` | hspaas/hsboss/src/main/webapp/resources/js/jquery-1.11.0.js:2131-2147 | one node of the loop: its slot is believed, or receives the shared array before the inner closure runs, which may overwrite slots itself |
| `DirCaches.Engine.RunPlainWalk` | hspaas/hsboss/src/main/webapp/resources/js/jquery-1.11.0.js:2107-2128 | the uncached walks answer as specified |
| `DirCaches.Engine.RunAll` | hspaas/hsboss/src/main/webapp/resources/js/jquery-1.11.0.js:2153-2163 | `elementMatcher` runs its closures from the last to the first and keeps the slots sound |
| `DirCaches.Engine.NestedRun` | hspaas/hsboss/src/main/webapp/resources/js/jquery-1.11.0.js:2347-2349 | a closure that a filter runs on its own account draws a new run number, which stays in force, and overwrites any slots; nothing the outer run believes becomes wrong |
| `DirCaches.Engine.MatchAll` | hspaas/hsboss/src/main/webapp/resources/js/jquery-1.11.0.js:2360-2372 | all queries of one run together return exactly the seed elements that some group selects, in seed order |
| `DirCaches.Engine.MatchAny` | hspaas/hsboss/src/main/webapp/resources/js/jquery-1.11.0.js:2362-2368 | an element is accepted exactly when some group of the selector selects it |
| `DirCaches.Engine.NewRun` | hspaas/hsboss/src/main/webapp/resources/js/jquery-1.11.0.js:2347-2370 | a new run, with closures compiled at any time, makes all old slots stale, so document and context may change between runs; nested runs may use every closure kept in the compiler cache but those of this run |
| `DirCaches.Engine.Compile` | hspaas/hsboss/src/main/webapp/resources/js/jquery-1.11.0.js:2435-2460 | one closure per group, each meaning its group in every document and context, so that it can be kept |
| `DirCaches.Engine.MatcherFromTokens` | hspaas/hsboss/src/main/webapp/resources/js/jquery-1.11.0.js:2281-2334 | the loop that compiles a group builds the specified closure with fresh walk names |
| `DirCaches.Engine.AddCombinator` | hspaas/hsboss/src/main/webapp/resources/js/jquery-1.11.0.js:2100-2103 | each walk gets a name of its own, larger than those inside it |
| `DirCaches.SelectedStrictly` | hspaas/hsboss/src/main/webapp/resources/js/jquery-1.11.0.js:2362-2368 | in an outermost run over HTML whose context is not the document, selected means matched by what a group declares |
| `NthChild.AcceptsExactly` | hspaas/hsboss/src/main/webapp/resources/js/jquery-1.11.0.js:1764-1766 | the closing test accepts a rank exactly when a*n + b equals it for some n >= 0; a may be zero or negative, and `%` is the one of the source language |
| `NthChild.ChildFilter.Nth` | hspaas/hsboss/src/main/webapp/resources/js/jquery-1.11.0.js:1687-1692 | `:nth-*` accepts exactly the ranks of the progression, for every history of cached entries, of this run and of runs nested in it, shortcut included |
| `NthChild.ChildFilter.FindRank` | hspaas/hsboss/src/main/webapp/resources/js/jquery-1.11.0.js:1718-1762 | whichever branch is taken, the number found is the rank from the chosen end |
| `NthChild.NextNode` | hspaas/hsboss/src/main/webapp/resources/js/jquery-1.11.0.js:1729-1732 | the step both loops share: the next sibling with its rank, or the first node once, and then the end; no sibling is skipped |
| `NthChild.ChildFilter.SeekForward` | hspaas/hsboss/src/main/webapp/resources/js/jquery-1.11.0.js:1720-1739 | the loop resumed at the cached index, falling back to the first child once, ends at the element with its true rank and caches its index |
| `NthChild.ChildFilter.Resume` | hspaas/hsboss/src/main/webapp/resources/js/jquery-1.11.0.js:1723-1727 | a cached index is used only if it is of this run, and then lies on the element's own sibling list |
| `NthChild.ChildFilter.SeekFromStart` | hspaas/hsboss/src/main/webapp/resources/js/jquery-1.11.0.js:1745-1762 | the loop from one end finds the rank and leaves true ranks on the elements it passes |
| `NthChild.ChildFilter.IsSimple` | hspaas/hsboss/src/main/webapp/resources/js/jquery-1.11.0.js:1703-1716 | `:first-`, `:last-` and `:only-child` and the `of-type` forms say that no other counting sibling stands on the side or sides in question |
| `NthChild.RankMeans` | hspaas/hsboss/src/main/webapp/resources/js/jquery-1.11.0.js:1718-1762 | the rank is the number of siblings from the chosen end, the element included, that are elements, or for `of-type` have its name |
| `NthChild.SimpleMeaning` | hspaas/hsboss/src/main/webapp/resources/js/jquery-1.11.0.js:1703-1716 | that is the same as having rank 1 from that side or both sides |
| `NthChild.ChildFilter.NewRun` | hspaas/hsboss/src/main/webapp/resources/js/jquery-1.11.0.js:2347-2349 | entries of earlier outermost runs are ignored |
| `NthChild.ChildFilter.NestedRun` | hspaas/hsboss/src/main/webapp/resources/js/jquery-1.11.0.js:2349 | a nested run hides the entries left so far behind a number of its own, and loses none |
| `NthChild.ChildFilter.Restore` | hspaas/hsboss/src/main/webapp/resources/js/jquery-1.11.0.js:2370-2372 | when the outermost number comes back its entries count again, and those of nested runs do no harm |
| `SetMatchers.ContractExactly` | hspaas/hsboss/src/main/webapp/resources/js/jquery-1.11.0.js:2225-2237 | a set matcher that starts with its matching function and has a post filter, be it a closure or a set matcher itself, only moves entries to the result exactly when everything matched before passes its filter |
| `SetMatchers.LostMatch` | hspaas/hsboss/src/main/webapp/resources/js/jquery-1.11.0.js:2225-2237 | otherwise it does not: with `:first.foo, :last` on two elements of which only the first has the class, the match of `:last` is lost |
| `SetMatchers.SafeKeepsContract` | hspaas/hsboss/src/main/webapp/resources/js/jquery-1.11.0.js:2239-2263 | set matchers with a pre filter, a post finder or no post filter only move entries from `unmatched` to the result at the same index |
| `SetMatchers.ApplyStays` | hspaas/hsboss/src/main/webapp/resources/js/jquery-1.11.0.js:2195-2264 | in any case no entry leaves its index or is duplicated, over any sequence of set matchers |
| `SetMatchers.ElementPost` | hspaas/hsboss/src/main/webapp/resources/js/jquery-1.11.0.js:2225-2237 | a post filter over one element rejects exactly the entries it does not hold of |
| `SetMatchers.FetchedExactly` | hspaas/hsboss/src/main/webapp/resources/js/jquery-1.11.0.js:2250-2262 | with a post finder only found elements of the seed move, and every one of them moves from some position |
| `SetMatchers.RunSet` | hspaas/hsboss/src/main/webapp/resources/js/jquery-1.11.0.js:2195-2264 | every seeded set matcher, nested ones included, does to both arrays what `Apply` specifies; `SetMatcherMeaning` says what that is, entry by entry |
| `SetMatchers.RunFiltered` | hspaas/hsboss/src/main/webapp/resources/js/jquery-1.11.0.js:2204-2249 | with a pre filter the condensed copy is matched and filtered and its matches are moved through the position map; without one the result array is filtered in place |
| `SetMatchers.MatchCore` | hspaas/hsboss/src/main/webapp/resources/js/jquery-1.11.0.js:1811-1837 | a positional pseudo, a negation with set matchers of its own, or a user function moves exactly what it picks |
| `SetMatchers.RunLeft` | hspaas/hsboss/src/main/webapp/resources/js/jquery-1.11.0.js:2339-2419 | what a negated selector leaves unmatched |
| `SetMatchers.MatchPosition` | hspaas/hsboss/src/main/webapp/resources/js/jquery-1.11.0.js:1005-1016 | a positional pseudo moves exactly the picked entries that are there, each at its own index |
| `SetMatchers.MatchIndexes` | hspaas/hsboss/src/main/webapp/resources/js/jquery-1.11.0.js:1962-2004 | the indexes each positional pseudo names are exactly those its argument and the length pick, fractions included |
| `SetMatchers.EndsExactly` | hspaas/hsboss/src/main/webapp/resources/js/jquery-1.11.0.js:1990-2004 | the loop of `:lt` ends unless the argument is plus infinity, and that of `:gt` unless it is minus infinity; the other infinity picks nothing |
| `SetMatchers.PostFilter` | hspaas/hsboss/src/main/webapp/resources/js/jquery-1.11.0.js:2225-2237 | the post filter moves exactly the failing matches back |
| `SetMatchers.CrossOut` | hspaas/hsboss/src/main/webapp/resources/js/jquery-1.11.0.js:2225-2231 | a set matcher as post filter works on the matches as its seed |
| `SetMatchers.Condense` | hspaas/hsboss/src/main/webapp/resources/js/jquery-1.11.0.js:2167-2186 | condensing keeps exactly the entries that are there and pass the filter, in order, with their positions |
| `SetMatcherMeaning.PreFiltered` | hspaas/hsboss/src/main/webapp/resources/js/jquery-1.11.0.js:2204-2249 | with a pre filter and no post finder an entry moves, at its own index, exactly when it is present and passes the pre filter, is picked at its rank among those that do, and passes the post filter |
| `SetMatcherMeaning.FirstIsRejected` | hspaas/hsboss/src/main/webapp/resources/js/jquery-1.11.0.js:2204-2249 | `div:first.foo` on two divs of which only the second has the class matches nothing |
| `SetMatcherMeaning.FinderAsked` | hspaas/hsboss/src/main/webapp/resources/js/jquery-1.11.0.js:2250-2262 | with a post finder it is asked for exactly those elements, the last one first, and what it finds moves |
| `SetMatcherMeaning.Direct` | hspaas/hsboss/src/main/webapp/resources/js/jquery-1.11.0.js:2225-2237 | without both, what is picked or was matched before is matched exactly if it passes the post filter |
| `SetMatcherMeaning.MarkedMoves` | hspaas/hsboss/src/main/webapp/resources/js/jquery-1.11.0.js:2195-2264 | a function a user has marked moves what it picks and nothing else |
| `SetMatcherMeaning.FailingExactly` | hspaas/hsboss/src/main/webapp/resources/js/jquery-1.11.0.js:2225-2237 | the post filter rejects exactly the matches its closure does not hold of, or that its set matcher does not move |
| `SetMatcherMeaning.NotExactly` | hspaas/hsboss/src/main/webapp/resources/js/jquery-1.11.0.js:1811-1837 | `:not` picks exactly what no closure of its argument accepts and no set matcher of it moves |
| `SetMatcherMeaning.PositionsMean` | hspaas/hsboss/src/main/webapp/resources/js/jquery-1.11.0.js:1962-2004 | each positional pseudo in arithmetic: negative arguments count from the end, fractions and NaN pick nothing |
| `SuperMatcher.Run` | hspaas/hsboss/src/main/webapp/resources/js/jquery-1.11.0.js:2339-2419 | seeded `superMatcher`: it appends to the earlier results exactly the seed elements accepted by an element matcher or moved by a set matcher, once each and in seed order, and blanks them in `unmatched` |
| `SuperMatcher.ContractThroughout` | hspaas/hsboss/src/main/webapp/resources/js/jquery-1.11.0.js:2391-2394 | over a whole run all set matchers keep the contract exactly when none filters away what an earlier one matched |
| `SuperMatcher.AnyonesMatchStays` | hspaas/hsboss/src/main/webapp/resources/js/jquery-1.11.0.js:2391-2394 | under that condition everything any set matcher matched is matched at the end |
| `SuperMatcher.SafeAfterFirst` | hspaas/hsboss/src/main/webapp/resources/js/jquery-1.11.0.js:2391-2394 | it is enough that every set matcher after the first has a pre filter, a post finder or no post filter |
| `SuperMatcher.RunElements` | hspaas/hsboss/src/main/webapp/resources/js/jquery-1.11.0.js:2356-2386 | the element loop appends the element matches in seed order and leaves the others in `unmatched` |
| `SuperMatcher.Reintegrate` | hspaas/hsboss/src/main/webapp/resources/js/jquery-1.11.0.js:2397-2404 | popping the results back puts every element match at its own seed index |
| `DocumentOrder.BeforeIsPathLess` | hspaas/hsboss/src/main/webapp/resources/js/jquery-1.11.0.js:1390-1403 | preorder traversal of a tree visits one node before another exactly when its path of child indexes is smaller, and two nodes are always comparable |
| `DocumentOrder.SiblingCheck` | hspaas/hsboss/src/main/webapp/resources/js/jquery-1.11.0.js:953-974 | the sibling test answers by the order of siblings, and treats a missing node as coming first |
| `DocumentOrder.Ancestors` | hspaas/hsboss/src/main/webapp/resources/js/jquery-1.11.0.js:1381-1388 | the upward loop collects the ancestors from the root down |
| `DocumentOrder.SortOrder` | hspaas/hsboss/src/main/webapp/resources/js/jquery-1.11.0.js:1351-1403 | the comparator ends and computes the case analysis of `Order` |
| `DocumentOrder.OrderExactly` | hspaas/hsboss/src/main/webapp/resources/js/jquery-1.11.0.js:1351-1403 | for two nodes of one tree the comparator agrees with preorder traversal in both directions exactly when the tree is the current document's or neither node is its root; a detached root is put behind its descendants |
| `DocumentOrder.DifferentTrees` | hspaas/hsboss/src/main/webapp/resources/js/jquery-1.11.0.js:1364-1403 | of two nodes of different trees: the current document, when preferred, comes first with all its nodes; then a node with a parent before one without, and a node of the preferred document before others; the rest is left unordered; the sign turns when the two are exchanged |
| `DocumentOrder.DetachedRoot` | hspaas/hsboss/src/main/webapp/resources/js/jquery-1.11.0.js:1355-1371 | a root in no document, and its child: the comparator says that the root comes later |
| `DocumentOrder.OrderIsStrictTotal` | hspaas/hsboss/src/main/webapp/resources/js/jquery-1.11.0.js:1351-1403 | in the current document it is a strict total order |
| `DocumentOrder.UniqueSort` | hspaas/hsboss/src/main/webapp/resources/js/jquery-1.11.0.js:1489-1497 | recording repeats and splicing from the last one removes exactly the entries that equal their predecessor |
| `DocumentOrder.UniqueSortCorrect` | hspaas/hsboss/src/main/webapp/resources/js/jquery-1.11.0.js:1478-1505 | after sorting, the list is strictly in document order and has the same elements |
| `Callbacks.CallbackList.Fire` | hspaas/hsboss/src/main/webapp/resources/js/jquery-1.11.0.js:3091-3116 | firing, with every add, remove, fire, lock, disable and empty that its functions perform on the list meanwhile, computes the recursive specification `Run`; it is never entered while it runs |
| `Callbacks.CallbackList.Finish` | hspaas/hsboss/src/main/webapp/resources/js/jquery-1.11.0.js:3104-3115 | the end of a pass: the next pass, or what `once` and locking leave |
| `Callbacks.Inside` | hspaas/hsboss/src/main/webapp/resources/js/jquery-1.11.0.js:3120-3215 | whatever operation a running function performs, `firingLength` stays the length of the list and `firingIndex` within it |
| `Callbacks.CallbackList.DoAdd` | hspaas/hsboss/src/main/webapp/resources/js/jquery-1.11.0.js:3120-3149 | `add` appends, stretches a running pass, or fires late functions at once with the remembered data |
| `Callbacks.CallbackList.DoRemove` | hspaas/hsboss/src/main/webapp/resources/js/jquery-1.11.0.js:3151-3170 | `remove` deletes all occurrences and pulls the firing index back by exactly those at or before it |
| `Callbacks.CallbackList.DoFireWith` | hspaas/hsboss/src/main/webapp/resources/js/jquery-1.11.0.js:3204-3215 | `fireWith` is queued during a pass, starts one between passes, and is ignored when the list is spent |
| `Callbacks.CallbackList.DoLock` | hspaas/hsboss/src/main/webapp/resources/js/jquery-1.11.0.js:3192-3198 | `lock` |
| `Callbacks.CallbackList.DoDisable` | hspaas/hsboss/src/main/webapp/resources/js/jquery-1.11.0.js:3183-3186 | `disable` |
| `Callbacks.CallbackList.DoEmpty` | hspaas/hsboss/src/main/webapp/resources/js/jquery-1.11.0.js:3177-3181 | `empty` |
| `Callbacks.CallbackList.Perform` | hspaas/hsboss/src/main/webapp/resources/js/jquery-1.11.0.js:3118-3225 | each operation, from a running function or from outside, has the specified effect on all closure variables |
| `CallbackPasses.RunIsRounds` | hspaas/hsboss/src/main/webapp/resources/js/jquery-1.11.0.js:3091-3116 | `fire` on the list mutated by index is one pass of a plain worklist per datum, each over the whole list, for all options and whatever the functions do: add, remove, fire, lock, disable, empty, or stop the walk; the list, stack and memory left are those of the worklist too |
| `CallbackPasses.FiresRunInOrder` | hspaas/hsboss/src/main/webapp/resources/js/jquery-1.11.0.js:3091-3116 | for all options and whatever the functions do: every fire call made during a run gets exactly one pass, in call order, after those that waited before it, unless a function locks or disables the list; then the pass it is called in is the last one |
| `CallbackPasses.LateAddRunsNewOnly` | hspaas/hsboss/src/main/webapp/resources/js/jquery-1.11.0.js:3139-3146 | for all options and whatever the functions do: the pass that a late `add` starts runs newly added functions only, all with the remembered data |
| `CallbackPasses.PassRefines` | hspaas/hsboss/src/main/webapp/resources/js/jquery-1.11.0.js:3098-3103 | one pass over the list mutated by index is one pass over a plain worklist, for every behaviour of the functions |
| `CallbackPasses.EveryTurnOnce` | hspaas/hsboss/src/main/webapp/resources/js/jquery-1.11.0.js:3098-3103 | for every behaviour of the functions: those run, removed before their turn or cut off are exactly those scheduled plus those added ahead of the walk meanwhile, each with its multiplicity; they run in list order; nothing is cut off unless a function stops the walk, locks, disables or empties the list |
| `CallbackPasses.CutShort` | hspaas/hsboss/src/main/webapp/resources/js/jquery-1.11.0.js:3098-3103 | a walk that is stopped, or whose list is locked or disabled, runs a prefix of what would have run otherwise |
| `CallbackPasses.LateExactly` | hspaas/hsboss/src/main/webapp/resources/js/jquery-1.11.0.js:3133-3138 | what a function adds has its turn in the same pass exactly if the walk is not behind the end of the list |
| `CallbackPasses.EmptyHidesAdds` | hspaas/hsboss/src/main/webapp/resources/js/jquery-1.11.0.js:3176-3180 | a function that empties the list and adds another one hides that one from the pass |
| `CallbackPasses.QueueStays` | hspaas/hsboss/src/main/webapp/resources/js/jquery-1.11.0.js:3204-3209 | fire calls made during a pass wait in the order they are made, until the list is locked or disabled |
| `CallbackPasses.NeverInterleaved` | hspaas/hsboss/src/main/webapp/resources/js/jquery-1.11.0.js:3091-3116 | the log is in the order of its pass numbers, each call with the data of its pass; `Run` gives the numbers, and `Callbacks.CallbackList.Perform` and `Fire` tie the real list to it |
| `CallbackPasses.FireIsRounds` | hspaas/hsboss/src/main/webapp/resources/js/jquery-1.11.0.js:3202-3213 | a fire call from outside that is heard runs the worklist over the whole list, and then what is fired meanwhile |
| `CallbackPasses.LateAdd` | hspaas/hsboss/src/main/webapp/resources/js/jquery-1.11.0.js:3139-3146 | a late `add` runs the worklist of the new functions with the remembered data, and then what is fired meanwhile, whatever the functions do |
| `CallbackPasses.LateAddOnce` | hspaas/hsboss/src/main/webapp/resources/js/jquery-1.11.0.js:3139-3146 | on a list that cannot be fired again that one pass is all |
| `CallbackOutside.RemoveOutside` | hspaas/hsboss/src/main/webapp/resources/js/jquery-1.11.0.js:3151-3170 | between passes `remove` takes every occurrence of the function, leaves all others as they stand and changes nothing else |
| `CallbackOutside.RemovedIsNotCalled` | hspaas/hsboss/src/main/webapp/resources/js/jquery-1.11.0.js:3151-3170 | a function removed is not called by the next fire call, unless another one adds it again meanwhile |
| `CallbackOutside.CallsListed` | hspaas/hsboss/src/main/webapp/resources/js/jquery-1.11.0.js:3091-3116 | a run calls only functions on the list at its start or added during it |
| `CallbackOutside.FreshMeans` | hspaas/hsboss/src/main/webapp/resources/js/jquery-1.11.0.js:3120-3149 | without `unique` all functions are added; with it each that is not there yet, once, in the order given |
| `CallbackOutside.LockOutside` | hspaas/hsboss/src/main/webapp/resources/js/jquery-1.11.0.js:3192-3198 | after `lock` no fire call is heard, and the list survives exactly if data are remembered |
| `CallbackOutside.DisableOutside` | hspaas/hsboss/src/main/webapp/resources/js/jquery-1.11.0.js:3183-3186 | after `disable` every operation but `empty` leaves everything as it is |
| `CallbackOutside.EmptyOutside` | hspaas/hsboss/src/main/webapp/resources/js/jquery-1.11.0.js:3177-3181 | after `empty` the next fire call calls nothing, and what is remembered and may be fired is as before |
| `CallbackOutside.EmptyRevives` | hspaas/hsboss/src/main/webapp/resources/js/jquery-1.11.0.js:3177-3186 | a list disabled and then emptied before it is fired takes functions and calls them again |
| `CallbackOutside.FiresOnce` | hspaas/hsboss/src/main/webapp/resources/js/jquery-1.11.0.js:3204-3215 | a list with `once`, or a locked one, hears one fire call at most |
| `Deferreds.StepInv` | hspaas/hsboss/src/main/webapp/resources/js/jquery-1.11.0.js:3233-3317 | every step of user code, handlers and walks keeps the invariant that ties the three lists, the state and the log together |
| `Deferreds.HandlersRunOnce` | hspaas/hsboss/src/main/webapp/resources/js/jquery-1.11.0.js:3282-3305 | on the winning list the handlers run in order of registration, each once, whether registered before, during or after, several at a time or one by one; when nothing is running all have run; no handler of the other outcome ever runs |
| `Deferreds.SettlesOnce` | hspaas/hsboss/src/main/webapp/resources/js/jquery-1.11.0.js:3289-3297 | the state is set before any handler of its outcome runs and never changes again |
| `Deferreds.FirstSettlementDecides` | hspaas/hsboss/src/main/webapp/resources/js/jquery-1.11.0.js:3299-3305 | the first resolve or reject decides: all later calls on that list get its arguments, and the other list stays silent, over every continuation |
| `Deferreds.FiringIsOver` | hspaas/hsboss/src/main/webapp/resources/js/jquery-1.11.0.js:3289-3305 | once settled, resolve, reject and notify change nothing, even from inside handlers |
| `Deferreds.VerdictStays` | hspaas/hsboss/src/main/webapp/resources/js/jquery-1.11.0.js:3289-3305 | which list was fired first, and with what, is settled by the first resolve or reject and by nothing else |
| `WhenDeferreds.MasterIsRight` | hspaas/hsboss/src/main/webapp/resources/js/jquery-1.11.0.js:3320-3370 | at every moment of every run, over real deferreds that user code settles at any time: the master has resolved only if every promise has, with each value at its own position; it has been rejected only if a promise has, and with the first rejection `when` is told |
| `WhenDeferreds.FirstRejectionCounts` | hspaas/hsboss/src/main/webapp/resources/js/jquery-1.11.0.js:3356 | at every moment of every run the master stands rejected with some data exactly if the first rejection that a deferred tells `when` has these data |
| `WhenDeferreds.MasterAtRest` | hspaas/hsboss/src/main/webapp/resources/js/jquery-1.11.0.js:3320-3370 | when the scan is over and no walk is under way, the master has resolved exactly if all promises have, and has been rejected exactly if one has |
| `WhenDeferreds.StepRefines` | hspaas/hsboss/src/main/webapp/resources/js/jquery-1.11.0.js:3320-3370 | every step, of user code or of `when`, is a step of the machine of the closure variables or none; that a promise calls at most once, and that a settled master ignores calls, follows from the deferreds |
| `WhenDeferreds.RunsRefine` | hspaas/hsboss/src/main/webapp/resources/js/jquery-1.11.0.js:3320-3370 | so is every run |
| `WhenDeferreds.CallIsNew` | hspaas/hsboss/src/main/webapp/resources/js/jquery-1.11.0.js:3332-3356 | a handler of `when` is called by the promise it was registered with, for the first time, and that promise has called no other of its handlers |
| `DeferredProgress.NotifyIsHeard` | hspaas/hsboss/src/main/webapp/resources/js/jquery-1.11.0.js:3299-3305 | at every moment before settling every notification is heard: it starts a walk over the progress list, or waits for the one under way |
| `DeferredProgress.ProgressCalls` | hspaas/hsboss/src/main/webapp/resources/js/jquery-1.11.0.js:3098-3103 | the walk calls the handler at its index with the data of the notification |
| `DeferredProgress.ProgressEnds` | hspaas/hsboss/src/main/webapp/resources/js/jquery-1.11.0.js:3104-3109 | at its end the notification that waits longest has its walk over the whole list |
| `DeferredProgress.ProgressRegisters` | hspaas/hsboss/src/main/webapp/resources/js/jquery-1.11.0.js:3286-3287 | a progress handler registered late is called with the last notification |
| `DeferredProgress.ProgressIsPassedOn` | hspaas/hsboss/src/main/webapp/resources/js/jquery-1.11.0.js:3331-3337 | when a deferred calls a progress handler of `when`, a master that is not settled is notified |
| `DeferredRest.EveryHandlerRuns` | hspaas/hsboss/src/main/webapp/resources/js/jquery-1.11.0.js:3233-3317 | once resolved or rejected, at whatever moment of whatever run, a deferred reaches the state by itself and calls every handler registered for the outcome, in order, once for each time it was registered, with these data, and none of the other outcome |
| `DeferredRest.Unwinds` | hspaas/hsboss/src/main/webapp/resources/js/jquery-1.11.0.js:3091-3116 | from every moment of every run all walks come to an end when handlers do no more than return |
| `WhenAnswers.WhenAnswers` | hspaas/hsboss/src/main/webapp/resources/js/jquery-1.11.0.js:3320-3370 | at whatever moment of whatever run, the library alone comes to rest with the master resolved exactly if all promises among the arguments have been resolved, and rejected exactly if one has been rejected |
| `WhenAnswers.AlwaysFree` | hspaas/hsboss/src/main/webapp/resources/js/jquery-1.11.0.js:3320-3370 | in every run at most one deferred, the master included, is between handlers, so one can always go on |
| `WhenAnswers.ComesToRest` | hspaas/hsboss/src/main/webapp/resources/js/jquery-1.11.0.js:3351-3367 | the scan is finished, every walk ends, and no promise is settled meanwhile |
| `WhenAll.MasterFollows` | hspaas/hsboss/src/main/webapp/resources/js/jquery-1.11.0.js:3320-3370 | `remaining` is the scanned promises not yet resolved plus the arguments not yet scanned; the master resolves exactly when all promises have, each value at its own position; it rejects exactly when one has, with what a promise was rejected with |
| `WhenAll.StepInv` | hspaas/hsboss/src/main/webapp/resources/js/jquery-1.11.0.js:3320-3370 | every interleaving of the scan with settlements keeps `remaining` right |
| `WhenAll.MasterSettlesOnce` | hspaas/hsboss/src/main/webapp/resources/js/jquery-1.11.0.js:3339-3341 | the outcome is final; the first rejection settles the master at once and later ones change nothing |
| `WhenAll.WhenCall.ScanOne` | hspaas/hsboss/src/main/webapp/resources/js/jquery-1.11.0.js:3352-3361 | one argument is scanned |
| `WhenAll.WhenCall.FinishScan` | hspaas/hsboss/src/main/webapp/resources/js/jquery-1.11.0.js:3364-3367 | the check after the loop |
| `WhenAll.WhenCall.OnDone` | hspaas/hsboss/src/main/webapp/resources/js/jquery-1.11.0.js:3332-3343 | a promise resolves: its value is stored, and the last one resolves the master |
| `WhenAll.WhenCall.OnFail` | hspaas/hsboss/src/main/webapp/resources/js/jquery-1.11.0.js:3356 | a promise rejects |
| `DataIds.CleanedKeeps` | hspaas/hsboss/src/main/webapp/resources/js/jquery-1.11.0.js:5649-5690 | however cleaning, unbinding, storing on data already there and the removal of data are nested in teardown hooks, as long as no hook allocates or names the private key events: cleaning an element frees its id once, keeps all ids valid, touches only elements that hooks act on, and runs no hook twice for one handler list |
| `DataIds.HookRunsExactly` | hspaas/hsboss/src/main/webapp/resources/js/jquery-1.11.0.js:4405-4435 | cleaning an element runs the hook of a special type exactly once if all handlers of its list were bound under that type, and not at all otherwise, whatever the hooks clean, remove and unbind elsewhere meanwhile |
| `DataIds.FocusInside` | hspaas/hsboss/src/main/webapp/resources/js/jquery-1.11.0.js:4405-4435 | a handler bound by `.on("focus", selector, f)` is stored under focusin with another original type: neither cleaning the element nor `.off` runs the hook of focusin |
| `DataIds.OrderMatters` | hspaas/hsboss/src/main/webapp/resources/js/jquery-1.11.0.js:4388-4402 | with a direct and a delegated focus handler, `.off(".a", selector)` for the delegated one runs the hook of focusin if focusin was bound first, and does not if focus was |
| `DataIds.OwnHooksAreSilent` | hspaas/hsboss/src/main/webapp/resources/js/jquery-1.11.0.js:5038-5138 | the teardown hooks of the file itself, the counter that focusin writes back included, are among those covered |
| `DataIds.AlwaysValid` | hspaas/hsboss/src/main/webapp/resources/js/jquery-1.11.0.js:3664-3841 | in every run of binding, unbinding, storing, removing and cleaning, with whatever hooks that allocate nothing and do not name the private key events, ids stay valid; every number drawn is an id, live or on the free list once, or was drawn elsewhere |
| `DataIds.CleanedExactly` | hspaas/hsboss/src/main/webapp/resources/js/jquery-1.11.0.js:5669-5687 | with hooks of any kind the end of a clean keeps the ids valid exactly when the id it frees is not live or still the element's |
| `DataIds.StoringKeeps` | hspaas/hsboss/src/main/webapp/resources/js/jquery-1.11.0.js:5649-5690 | hooks that only store data do no harm either: an id freed early is freed after the last hook |
| `DataIds.StolenId` | hspaas/hsboss/src/main/webapp/resources/js/jquery-1.11.0.js:5652-5686 | ids do break when a teardown hook cleans the element and then stores data on another one, which takes the id before the outer clean goes on |
| `DataIds.ReleaseExactly` | hspaas/hsboss/src/main/webapp/resources/js/jquery-1.11.0.js:5669-5687 | freeing an id keeps the ids distinct exactly when it is not live or is still this element's |
| `DataIds.AllocateKeeps` | hspaas/hsboss/src/main/webapp/resources/js/jquery-1.11.0.js:3693-3694 | an allocated id is nobody else's and no longer on the free list; ids stay distinct, below `guid`, and apart from the free list |
| `DataIds.UnboundKeeps` | hspaas/hsboss/src/main/webapp/resources/js/jquery-1.11.0.js:4374-4444 | the same for `event.remove` of one type, with any type, namespace, selector and handler to match |
| `DataIds.UnboundAllKeeps` | hspaas/hsboss/src/main/webapp/resources/js/jquery-1.11.0.js:4388-4402 | and for `event.remove` without type, as the hooks of submit and change call it, which maps each type it visits once more when there is a selector |
| `DataIds.UnboundFate` | hspaas/hsboss/src/main/webapp/resources/js/jquery-1.11.0.js:4396-4435 | unbinding leaves a handler list as it was, without the handlers of its own type, or gone, and its hook has run once if it is gone and all handlers were of its own type, and otherwise not |
| `DataIds.RemovedKeeps` | hspaas/hsboss/src/main/webapp/resources/js/jquery-1.11.0.js:3753-3841 | ids are kept by the removal of data, through the nested clean; the element's own id goes exactly when nothing is left |
| `DataIds.ReduceExactly` | hspaas/hsboss/src/main/webapp/resources/js/jquery-1.11.0.js:3771-3825 | the entry is destroyed exactly when nothing but an empty public object would be left; otherwise exactly the named data go |
| `DataIds.AskedKeeps` | hspaas/hsboss/src/main/webapp/resources/js/jquery-1.11.0.js:3664-3751 | reading a name that is not there allocates nothing; a value, or an object to be merged, goes into the element's own entry and into no other |
| `DataIds.BoundKeeps` | hspaas/hsboss/src/main/webapp/resources/js/jquery-1.11.0.js:4283-4289 | binding gives an id only to an element that has none, and touches no other element |
| `DataIds.BoundExactly` | hspaas/hsboss/src/main/webapp/resources/js/jquery-1.11.0.js:4330-4357 | of the element itself it adds the type, and the handler to the list of this type only |
| `DataIds.DataStore.Perform` | hspaas/hsboss/src/main/webapp/resources/js/jquery-1.11.0.js:3664-3841 | each operation takes the step specified for it, and keeps the ids valid when no hook allocates |
| `DataIds.DataStore.Data` | hspaas/hsboss/src/main/webapp/resources/js/jquery-1.11.0.js:3664-3751 | the method stores what `Asked` specifies; a name is looked up as it is and in camel case |
| `DataIds.DataStore.Identify` | hspaas/hsboss/src/main/webapp/resources/js/jquery-1.11.0.js:3690-3704 | an element without id gets one and an empty entry, from the free list first |
| `DataIds.DataStore.EventAdd` | hspaas/hsboss/src/main/webapp/resources/js/jquery-1.11.0.js:4283-4357 | the method takes the step that `Bound` specifies |
| `DataIds.DataStore.RemoveData` | hspaas/hsboss/src/main/webapp/resources/js/jquery-1.11.0.js:3753-3841 | the method takes the step that `Removed` specifies |
| `DataIds.DataStore.CleanData` | hspaas/hsboss/src/main/webapp/resources/js/jquery-1.11.0.js:5649-5690 | the method takes the step that `Cleaned` specifies, entered again by hooks and by the removal of data |
| `DataIds.DataStore.Sweep` | hspaas/hsboss/src/main/webapp/resources/js/jquery-1.11.0.js:5656-5666 | the loop over event types takes the step that `Swept` specifies; types removed meanwhile are not visited |
| `DataIds.DataStore.EventRemove` | hspaas/hsboss/src/main/webapp/resources/js/jquery-1.11.0.js:4396-4444 | the method takes the step that `Unbound` specifies: matching handlers go, an emptied list runs the hook of the type named in the call, and the last type takes handle and events along |
| `DataIds.DataStore.RemoveEvents` | hspaas/hsboss/src/main/webapp/resources/js/jquery-1.11.0.js:4388-4402 | the method takes the step that `UnboundAll` specifies: every type on the element is unbound, under its delegate type when there is a selector |
| `DataIds.DataStore.RunHook` | hspaas/hsboss/src/main/webapp/resources/js/jquery-1.11.0.js:4425-4431 | a hook cleans, unbinds, removes and stores by the very methods it is called from; what it stores on data already there allocates nothing |
| `DataRoundTrips.BindUnbind` | hspaas/hsboss/src/main/webapp/resources/js/jquery-1.11.0.js:4283-4444 | binding a handler to an element without data and unbinding it leaves nothing behind: no entry, no id, no list; an id drawn for it is on the free list |
| `DataRoundTrips.BindUnbindData` | hspaas/hsboss/src/main/webapp/resources/js/jquery-1.11.0.js:4283-4444 | on an element with other data the two leave everything as it was |
| `DataRoundTrips.BindMeans` | hspaas/hsboss/src/main/webapp/resources/js/jquery-1.11.0.js:4344-4363 | binding appends the handler to its group; a new type comes behind the others, and none is listed twice |
| `DataRoundTrips.UnbindMeans` | hspaas/hsboss/src/main/webapp/resources/js/jquery-1.11.0.js:4405-4435 | `event.remove` of one type, whatever the hooks do: exactly the matching handlers of this type are gone |
| `DataRoundTrips.OffMeans` | hspaas/hsboss/src/main/webapp/resources/js/jquery-1.11.0.js:4388-4402 | `event.remove` without type and selector, with hooks that leave data and handlers alone: of every type of the element exactly the matching handlers are gone, and other elements keep theirs |
| `DataRoundTrips.FreedIsReused` | hspaas/hsboss/src/main/webapp/resources/js/jquery-1.11.0.js:3693-3694 | the id given back last is the next one taken |
| `DataRoundTrips.RemoveMeans` | hspaas/hsboss/src/main/webapp/resources/js/jquery-1.11.0.js:3753-3841 | the data named are gone, and of an element that keeps an entry all others stay |
| `DataRoundTrips.WriteThenRead` | hspaas/hsboss/src/main/webapp/resources/js/jquery-1.11.0.js:3729-3748 | a datum is stored in camel case and found by the name it was written with |
| `DataRoundTrips.MergeThenRead` | hspaas/hsboss/src/main/webapp/resources/js/jquery-1.11.0.js:3706-3713 | the names of an object are stored as they are, and found |
| `DataRoundTrips.NothingElseFound` | hspaas/hsboss/src/main/webapp/resources/js/jquery-1.11.0.js:3664-3751 | on an element that had no data nothing else is found, and private data are not public ones |
| `EventHandlers.HandlerList.Dispatch` | hspaas/hsboss/src/main/webapp/resources/js/jquery-1.11.0.js:4585-4642 | a dispatch calls the handlers of the queue as it was built, whatever handlers add to the list and remove from it meanwhile, until one stops the event; the list ends as the changes made leave it |
| `EventHandlers.HandlerList.RunEntry` | hspaas/hsboss/src/main/webapp/resources/js/jquery-1.11.0.js:4609-4631 | the handlers of one element, from an array that no change of the list reaches, skipping those outside the namespace |
| `EventHandlers.GroupsAreAlive` | hspaas/hsboss/src/main/webapp/resources/js/jquery-1.11.0.js:4358-4425 | over any sequence of add and remove each group holds exactly the handlers added and not removed since, in insertion order |
| `EventHandlers.GroupsAreSplit` | hspaas/hsboss/src/main/webapp/resources/js/jquery-1.11.0.js:4358-4363 | over any sequence of changes the first group has only handlers with a selector and the second only those without |
| `EventHandlers.HandlerList.Add` | hspaas/hsboss/src/main/webapp/resources/js/jquery-1.11.0.js:4358-4363 | splicing at `delegateCount` appends to the delegated group, pushing to the direct group, and the counter stays the boundary |
| `EventHandlers.HandlerList.Remove` | hspaas/hsboss/src/main/webapp/resources/js/jquery-1.11.0.js:4406-4425 | the backward loop deletes exactly the matching handlers of both groups and keeps the counter the boundary |
| `EventHandlers.HandlerList.Handlers` | hspaas/hsboss/src/main/webapp/resources/js/jquery-1.11.0.js:4644-4691 | the queue of a dispatch, in new arrays: delegated matches first, direct handlers last |
| `EventHandlers.HandlerList.DelegatedQueue` | hspaas/hsboss/src/main/webapp/resources/js/jquery-1.11.0.js:4656-4682 | the walk from the target up to the element itself |
| `EventHandlers.HandlerList.MatchSelectors` | hspaas/hsboss/src/main/webapp/resources/js/jquery-1.11.0.js:4661-4679 | the handlers whose selector matches, and which selectors were tried |
| `EventHandlers.TriedOnce` | hspaas/hsboss/src/main/webapp/resources/js/jquery-1.11.0.js:4661-4679 | no selector is tried twice on an element, and none is left out |
| `EventHandlers.DelegationsInnerFirst` | hspaas/hsboss/src/main/webapp/resources/js/jquery-1.11.0.js:4656-4682 | inner elements come before outer ones, each with exactly its matching handlers, none empty |
| `EventHandlers.NoneSkipped` | hspaas/hsboss/src/main/webapp/resources/js/jquery-1.11.0.js:4656-4682 | no enabled element on the way with a matching delegated handler is passed over |
| `EventDispatch.DispatchEnds` | hspaas/hsboss/src/main/webapp/resources/js/jquery-1.11.0.js:4609-4631 | the calls of a dispatch are a prefix of the queue, less handlers outside the namespace; all of it if no turn stops the event; behind a turn that stops it only calls on the same element follow, and behind one that stops it at once none |
| `EventDispatch.QueueExactly` | hspaas/hsboss/src/main/webapp/resources/js/jquery-1.11.0.js:4644-4690 | exactly these handlers are queued: the direct ones, and unless it is a click with another than the left button the delegated ones for every enabled element on the way up from the target that their selector matches |
| `EventDispatch.QueueOrder` | hspaas/hsboss/src/main/webapp/resources/js/jquery-1.11.0.js:4644-4690 | direct handlers come last, and each element has one entry, with its handlers in list order |
| `FxQueue.OneAtATime` | hspaas/hsboss/src/main/webapp/resources/js/jquery-1.11.0.js:3957-3991 | if every function calls `next` at most once: functions start in order, each once; the sentinel stands at the head exactly while one is running; none starts before its predecessor called `next` |
| `FxQueue.StartsInTurn` | hspaas/hsboss/src/main/webapp/resources/js/jquery-1.11.0.js:3957-3991 | a queued function starts at once when nothing is running, and otherwise with the `next` call that reaches it |
| `FxQueue.EmptyMeansEmpty` | hspaas/hsboss/src/main/webapp/resources/js/jquery-1.11.0.js:3987-3999 | the empty hook fires only when every queued function has started and the last has called `next` |
| `FxQueue.AfterInv` | hspaas/hsboss/src/main/webapp/resources/js/jquery-1.11.0.js:3957-3991 | every run keeps the queue equal to the sentinel, if a function is running, followed by what has not started, in order |
| `FxQueue.SecondCallExactly` | hspaas/hsboss/src/main/webapp/resources/js/jquery-1.11.0.js:3963-3985 | a `next` call by a function that has used its call starts nothing and leaves the queue in order exactly when no function is running |
| `FxQueue.TwiceBreaksIt` | hspaas/hsboss/src/main/webapp/resources/js/jquery-1.11.0.js:3963-3985 | a function that calls `next` twice lets the two after it run at the same time |
| `FxQueue.Fx.DoDequeue` | hspaas/hsboss/src/main/webapp/resources/js/jquery-1.11.0.js:3957-3991 | `dequeue`: the sentinel is removed, the next function taken and the sentinel put back, or the data removed |
| `FxQueue.Fx.DoQueue` | hspaas/hsboss/src/main/webapp/resources/js/jquery-1.11.0.js:4020-4028 | `queue` appends and starts when no sentinel stands in front |
| `Tokenizer.TokensMakeUpTheSelector` | hspaas/hsboss/src/main/webapp/resources/js/jquery-1.11.0.js:2023-2088 | token values and consumed separators concatenate to the consumed input, and what `parseOnly` counts is the unconsumed rest |
| `Tokenizer.OnlyGroup` | hspaas/hsboss/src/main/webapp/resources/js/jquery-1.11.0.js:2090-2098 | `toSelector` of the only group gives the selector back |
| `Tokenizer.NoEmptyGroup` | hspaas/hsboss/src/main/webapp/resources/js/jquery-1.11.0.js:2036-2076 | a selector that lexes has no empty group: no trailing and no doubled comma |
| `Tokenizer.Filter` | hspaas/hsboss/src/main/webapp/resources/js/jquery-1.11.0.js:1608-1634 | the pseudo pre-filter ends: it lexes a strictly shorter argument |
| `Tokenizer.Filters` | hspaas/hsboss/src/main/webapp/resources/js/jquery-1.11.0.js:2060-2071 | the loop over filter types consumes text exactly when something matched |
| `TokenizerMeaning.CommaSplits` | hspaas/hsboss/src/main/webapp/resources/js/jquery-1.11.0.js:2036-2046 | the text behind a comma is lexed as a selector of its own, and its groups follow those before the comma; it fails or leaves text exactly when that does |
| `TokenizerMeaning.TrailingComma` | hspaas/hsboss/src/main/webapp/resources/js/jquery-1.11.0.js:2036-2046 | a comma with nothing behind it opens a group but is not consumed |
| `TokenizerMeaning.TwoGroups` | hspaas/hsboss/src/main/webapp/resources/js/jquery-1.11.0.js:2036-2046 | `a,b` is two groups of one token |
| `TokenizerMeaning.CombinatorTaken` | hspaas/hsboss/src/main/webapp/resources/js/jquery-1.11.0.js:2048-2058 | without comma, a combinator at the front of the text is the next token of the open group |
| `TokenizerMeaning.FilterTaken` | hspaas/hsboss/src/main/webapp/resources/js/jquery-1.11.0.js:2060-2071 | without comma and combinator, the first expression that matches gives the next token |
| `TokenizerMeaning.NothingTaken` | hspaas/hsboss/src/main/webapp/resources/js/jquery-1.11.0.js:2073-2076 | where nothing matches the scan ends and leaves the text |
| `TokenizerMeaning.PseudoTaken` | hspaas/hsboss/src/main/webapp/resources/js/jquery-1.11.0.js:1604-1632 | an unquoted argument that looks like a selector is taken as far as it lexes as one, up to the next closing parenthesis; when its lexing fails, so does the whole |
| `TokenizerMeaning.OtherPseudos` | hspaas/hsboss/src/main/webapp/resources/js/jquery-1.11.0.js:1604-1632 | a child filter is left to its own expression, a quoted argument is taken without quotes, and other arguments as they are |
| `MemoCache.QueueIsTheLastCalls` | hspaas/hsboss/src/main/webapp/resources/js/jquery-1.11.0.js:889-901 | for a limit of at least one: the queue is the keys of the last calls in order, so the oldest goes first; live keys are queued keys; there are never more than the limit |
| `MemoCache.LatestValue` | hspaas/hsboss/src/main/webapp/resources/js/jquery-1.11.0.js:898 | a live key has the value stored with it last |
| `MemoCache.LastOnesAreLive` | hspaas/hsboss/src/main/webapp/resources/js/jquery-1.11.0.js:889-901 | used on misses only, exactly the keys of the last calls are live, each queued once |
| `MemoCache.BoundExactly` | hspaas/hsboss/src/main/webapp/resources/js/jquery-1.11.0.js:894 | the bound holds in every run exactly when the limit is at least one |
| `MemoCache.NothingLeaves` | hspaas/hsboss/src/main/webapp/resources/js/jquery-1.11.0.js:894-898 | with a limit of zero nothing is ever removed |
| `MemoCache.KeyCache.Store` | hspaas/hsboss/src/main/webapp/resources/js/jquery-1.11.0.js:892-899 | the cache function |
| `SelectorSource.Source.Tokenize` | hspaas/hsboss/src/main/webapp/resources/js/jquery-1.11.0.js:2023-2088 | for every state of the cache the answer is what lexing afresh gives, as a new outer list |
| `SelectorSource.Source.ParseOnly` | hspaas/hsboss/src/main/webapp/resources/js/jquery-1.11.0.js:2028-2030 | a hit answers zero, which is what lexing afresh gives |
| `SelectorSource.Source.Parse` | hspaas/hsboss/src/main/webapp/resources/js/jquery-1.11.0.js:2032-2076 | the main loop computes the lexer function |
| `SelectorSource.Source.NewGroup` | hspaas/hsboss/src/main/webapp/resources/js/jquery-1.11.0.js:2038-2045 | comma and first run |
| `SelectorSource.Source.TakeCombinator` | hspaas/hsboss/src/main/webapp/resources/js/jquery-1.11.0.js:2049-2058 | combinators |
| `SelectorSource.Source.FilterAll` | hspaas/hsboss/src/main/webapp/resources/js/jquery-1.11.0.js:2060-2071 | the filter loop |
| `SelectorSource.Source.Filtered` | hspaas/hsboss/src/main/webapp/resources/js/jquery-1.11.0.js:1608-1634 | pre-filters, with the recursive call |
| `SelectorSource.Source.Remember` | hspaas/hsboss/src/main/webapp/resources/js/jquery-1.11.0.js:2086-2087 | a stored list spells its key and belongs to the cache alone |
| `SelectorSource.Source.Select` | hspaas/hsboss/src/main/webapp/resources/js/jquery-1.11.0.js:2471-2519 | whatever `select` takes out of the tokens, every cached list still spells its key |
| `SelectorSource.NarrowOnly` | hspaas/hsboss/src/main/webapp/resources/js/jquery-1.11.0.js:2476-2506 | `shift` and `splice` act on a copy; the string handed to `compile` always spells the tokens handed over with it; a seed is searched only if what is left of the selector does not need its context, with the last searchable token behind the last combinator, in the context the ID shortcut has left, widened for a leading sibling combinator |
| `SelectorSource.LastSeed` | hspaas/hsboss/src/main/webapp/resources/js/jquery-1.11.0.js:2492-2515 | the search goes from the last token back to the nearest combinator |
| `SelectorSeeds.SelectIsRight` | hspaas/hsboss/src/main/webapp/resources/js/jquery-1.11.0.js:2471-2531 | whatever `select` does with the only group of a selector: final results are exactly the elements it selects, and the tokens handed on, matched against the seed set or against all below the widened context, select the same elements |
| `SelectorSeeds.SeedIsRight` | hspaas/hsboss/src/main/webapp/resources/js/jquery-1.11.0.js:2492-2519 | the seed set and the tokens left select together exactly what all tokens select |
| `SelectorSeeds.ShortcutIsRight` | hspaas/hsboss/src/main/webapp/resources/js/jquery-1.11.0.js:2476-2488 | behind an element identified by its id the rest of the selector, searched from there, selects the same |
| `SelectorSeeds.ExpandedIsWide` | hspaas/hsboss/src/main/webapp/resources/js/jquery-1.11.0.js:2525-2531 | everything selected lies below the context handed on, which is the parent when a sibling combinator leads |
| `ResidentId.IdentityExactly` | hspaas/hsapi/src/main/java/com/huashi/util/IDCardUtil.java:126-149 | 18 characters pass exactly when they are 17 digits, of any script, and a digit of ASCII or a capital X, with century 19, an accepted date and a valid check equation |
| `ResidentId.FixedExactly` | hspaas/hsapi/src/main/java/com/huashi/util/IDCardUtil.java:93-106 | a complete number comes out exactly for what `isIdentity` accepts, unless a 15-character input starts with a sign, and completing it again changes nothing |
| `ResidentId.SignPasses` | hspaas/hsapi/src/main/java/com/huashi/util/IDCardUtil.java:137-144 | 15 characters with a sign pass `isIdentity`, and then the upgrade throws |
| `ResidentId.FixWithoutCheck` | hspaas/hsapi/src/main/java/com/huashi/util/IDCardUtil.java:46-65 | for every string and every reading of digits the parser may have, the result is the number with its century and the check character of ISO/IEC 7064 MOD 11-2, or the failure the source throws |
| `ResidentId.FixPadded` | hspaas/hsapi/src/main/java/com/huashi/util/IDCardUtil.java:46-57 | blanks behind 15 digits make no difference, blanks in front make it fail as no number, and any other length between the blanks is the wrong one |
| `ResidentId.UpgradeRoundTrip` | hspaas/hsapi/src/main/java/com/huashi/util/IDCardUtil.java:50-64 | deleting positions 6, 7 and 17 of the upgraded number gives the 15 digits back, and it satisfies the check equation |
| `ResidentId.SameAnswer` | hspaas/hsapi/src/main/java/com/huashi/util/IDCardUtil.java:126-149 | both forms of a number get the same answer |
| `ResidentId.CheckValueIsTheOne` | hspaas/hsapi/src/main/java/com/huashi/util/IDCardUtil.java:60-64 | exactly one check value completes 17 digits |
| `ResidentId.FactorEntry` | hspaas/hsapi/src/main/java/com/huashi/util/IDCardUtil.java:20 | the weight table is the powers of two modulo 11 |
| `ResidentId.CodeIsCheckChar` | hspaas/hsapi/src/main/java/com/huashi/util/IDCardUtil.java:19 | the code table is the completing values |
| `ResidentId.IsCardId` | hspaas/hsweb/src/main/webapp/assets/js/validator/formValidatorRegex.js:76-95 | each answer is given exactly when its test is the first that fails, and the number is accepted exactly by format, region, date and check equation |
| `ResidentId.LastCharacter` | hspaas/hsweb/src/main/webapp/assets/js/validator/formValidatorRegex.js:76-95 | behind 17 characters exactly one last character is accepted, or none; for the check value ten the letter in either case |
| `ResidentId.WeightedSum` | hspaas/hsweb/src/main/webapp/assets/js/validator/formValidatorRegex.js:90-93 | the loop over powers of two reduced modulo 11 computes the sum of the standard modulo 11 |
| `ResidentId.OneCharacterChanged` | hspaas/hsweb/src/main/webapp/assets/js/validator/formValidatorRegex.js:90-93 | changing the value of one character of an accepted number always leads to rejection |
| `ResidentId.CharactersSwapped` | hspaas/hsweb/src/main/webapp/assets/js/validator/formValidatorRegex.js:90-93 | swapping two unequal characters is rejected when their distance is no multiple of ten, and keeps the check equation when it is |
| `ResidentId.SwapFoundExactly` | hspaas/hsweb/src/main/webapp/assets/js/validator/formValidatorRegex.js:90-93 | on values: a swap goes unnoticed exactly for equal values or a distance that is a multiple of ten |
| `ResidentId.JavaScriptAgreesExactly` | hspaas/hsweb/src/main/webapp/assets/js/validator/formValidatorRegex.js:76-95 | of 18 characters that the Java class accepts, format and sum of the JavaScript checks hold exactly when all of them are ASCII |
| `ResidentId.FullWidthDigits` | hspaas/hsweb/src/main/webapp/assets/js/validator/formValidatorRegex.js:76-95 | they do not for full-width digits, which the Java class accepts and completes |
| `ResidentId.CidInfo` | hspaas/hsweb/src/main/webapp/assets/js/form.js:42-62 | the flag-accumulating form accepts exactly what the early-return form accepts |
| `Luhn.CreditCard` | hspaas/hsboss/src/main/webapp/resources/js/jquery.validationEngine.js:1380-1399 | a field is accepted exactly when, without spaces and dashes, it is 14 to 16 digits, not all zero, with a Luhn sum of ISO/IEC 7812-1 Annex B divisible by ten |
| `Luhn.StripMeans` | hspaas/hsboss/src/main/webapp/resources/js/jquery.validationEngine.js:1382 | spaces and dashes go, all other characters stay, in order |
| `Luhn.LengthsAccepted` | hspaas/hsboss/src/main/webapp/resources/js/jquery.validationEngine.js:1384-1385 | there are accepted numbers of 14, 15 and 16 digits, and of no other length |
| `Luhn.ZerosAreRejected` | hspaas/hsboss/src/main/webapp/resources/js/jquery.validationEngine.js:1385 | zeros alone would pass the sum, but are rejected |
| `Luhn.Written` | hspaas/hsboss/src/main/webapp/resources/js/jquery.validationEngine.js:1387-1391 | the do-while loop writes the alternately doubled digits |
| `Luhn.AddUp` | hspaas/hsboss/src/main/webapp/resources/js/jquery.validationEngine.js:1393-1395 | the second loop adds up characters; NaN stays NaN |
| `Luhn.RestIsLuhnSum` | hspaas/hsboss/src/main/webapp/resources/js/jquery.validationEngine.js:1387-1395 | building the string and adding its characters is the sum of the standard, and not a number for other text |
| `Luhn.OneCharacterChanged` | hspaas/hsboss/src/main/webapp/resources/js/jquery.validationEngine.js:1396 | no valid number with one character changed is valid |
| `Luhn.NeighboursSwapped` | hspaas/hsboss/src/main/webapp/resources/js/jquery.validationEngine.js:1396 | two different neighbours swapped go unnoticed exactly when they are 0 and 9 |

## Left out

- SelectorMatchers.CompilerExactly: groups without positional filters; positional groups become set matchers, which `SetMatchers` models with their parts as given closures.
- SelectorMatchers.ChildIsParent: `>` takes the closest element ancestor, as the code does; the lemma says when that is the parent.
- SuperMatcher.Run: the seeded mode; without a seed set matchers append what they find, and the order is left to `uniqueSort`. The results array of the set matchers has its full length instead of growing on assignment.
- SetMatchers.RunSet: the post finder is a given function from elements to elements, and a function a user has marked a given choice of positions.
- SetMatchers.MatchIndexes: arguments are finite or not a number, and exact; `SetMatchers.EndsExactly` says for which infinite ones the loops end. Beyond 2 to the 53rd, subtracting one can leave a number of the source as it is, and then its loops do not end either.
- DocumentOrder.UniqueSort: the sort itself is any sort that leaves the list ordered by the comparator.
- DocumentOrder.SortOrder: the native comparison, `sourceIndex` and `sortInput`, which only some browsers use.
- DirCaches.Engine.NestedRun: the numbers drawn at random for nested runs are taken to be new, and nested runs not to use the closures of the outermost run they happen in, though any others the compiler cache has kept; a user function that runs the outer selector again in another context would break the second.
- Callbacks.CallbackList.Perform: nested arrays of functions are flattened before `add`; a function that throws is not modelled. Every finite script of what the functions do is covered.
- CallbackPasses.CutShort: functions that do not empty the list; a walk whose list is emptied goes on with what is added behind its place.
- Deferreds.StepInv: `then`, `pipe` and `always`, which are built from the three registrations, and the context object.
- SelectorSeeds.SelectIsRight: element searches are given, and taken to find exactly what lies below a node and passes the filter; `getElementById` likewise. The context's parent is taken to be searchable. Only roots contain nodes without being elements.
- DeferredProgress.ProgressIsPassedOn: of the array the master is handed, the model keeps the entry just written.
- WhenAnswers.WhenAnswers: handlers return, and meanwhile nobody registers or fires anything else; those who do are covered by `WhenDeferreds.MasterIsRight`.
- DataRoundTrips.OffMeans: hooks that do not touch data or handlers; for others `DataIds.UnboundFate` says what may become of a list.
- WhenDeferreds.MasterIsRight: two or more arguments; with fewer the source hands out the argument's own promise or resolves at once. Contexts and the array of progress values are left out; progress calls are passed on.
- DataIds.CleanedKeeps: teardown hooks that bind handlers, which need not end, hooks that store or remove the private key "events" by name, and what `setup`, `add` and `special.remove` hooks do. A type in a handler list is already mapped, so `bindType` plays no part in `cleanData`. Plain objects keep their data on themselves and have no id.
- DataIds.HookRunsExactly: hooks that unbind handlers of the very list; for those `DataIds.CleanedKeeps` says that the hook runs at most once.
- DataIds.DataStore.RemoveData: names come as the list the deletions go through; splitting at spaces and the camel-cased doubles are string handling.
- EventHandlers.HandlerList.Remove: one event type; hooks of special event types do not touch the list, and removing the last handler's native listener is I/O.
- EventHandlers.HandlerList.Dispatch: a handler that triggers the same event again, `preDispatch` and `postDispatch`.
- FxQueue.Fx.DoDequeue: the queue named "fx"; other queues have no sentinel, and `hooks.stop` belongs to animations.
- Tokenizer.Filter: each regular expression is a function that says how long a non-empty prefix it takes; the pre-filters of attributes and `:nth-*` rewrite captures only, or throw.
- SelectorSource.Source.Select: element searches are given functions of token and context; the compiler cache maps selectors to closures and adds nothing to the token cache.
- SelectorSource.Source.Parse: the groups are values until they are stored; nothing else refers to them while they grow.
- ResidentId.FixWithoutCheck: null arguments, which are rejected at once, and characters outside the basic plane, which are two for the source.
- ResidentId.IdentityExactly: the date test is one given predicate per language; the Java one is lenient and fixes the century at 19, so the two languages need not accept the same dates.
- Luhn.CreditCard: `parseInt` of text that is not all digits is a given predicate; the outcome does not depend on it.
- `querySelectorAll`, feature detection, old browser branches, CSS measurement, ajax, transports, animation numbers and DOM manipulation: foreign calls and rendering.
- Application classes, controllers and user interface scripts of the repository: plumbing.
