# Verified models of the search and page scripts

The documentation site of this repository ships with jQuery 3.2.1 (and the Sizzle selector engine in it),
Underscore 1.3.1 and Sphinx's search tools. This project models the parts of them that carry state across
calls, and proves what they are for:

- **Selectors** (`Dom`, `DomListing`, `SizzleMatcher`, `SizzleEngine`, `SizzleSelect`, `SizzleTokenize`,
  `SizzleSelectTokens`, `SizzleReread`, `SizzleCompile`, `SizzleSearch`).
  Sizzle turns a selector into tokens, the tokens into nested closures that run right to left, caches the
  climbs of those closures on the DOM nodes, and narrows the search by an ID and a seed set. A compiled
  selector is shown to accept an element exactly when the selector, read as Selectors Level 3 (section 8)
  does, selects it; the cached climbs and the token cache are shown not to change any answer, and it is shown
  exactly when the seed and the cache of compiled selectors do not.
- **Callback lists and promises** (`Callbacks`, `CallbackList`, `NotifyList`, `Deferred`, `DeferredSteps`, `DeferredNotify`,
  `DeferredObject`, `ThenResolution`, `DerivedDeferred`).
  `jQuery.Callbacks` is a list whose callbacks may add, remove and fire on the very list that calls them.
  It is a step machine whose runs are all the ways code can interleave, and a class with the source's own
  loops that is shown to take only such runs. Six lists make up a deferred, as a machine and as an object of six list
  objects that fire each other; `then` adds the resolution procedure of Promises/A+ and a second such object.
- **Other algorithms of jQuery** (`NthChild`, `DocumentOrder`, `EventHandlers`, `AjaxConvert`).
- **Throttling** (`Throttle`) and **deep equality** (`HeapStructure`, `DeepEqual`) of Underscore.
- **Search** (`PorterMeasure`, `PorterStemmer`, `PorterRules`, `PorterTables`, `SearchIndex`): the stemmer's regular
  expressions against Porter's measure, the stemmer against his algorithm, and the index query against brute force.

The document is a finite tree whose nodes are named by their paths from the root; simple selectors are
uninterpreted tests on nodes; the clock, the event loop and callbacks' bodies are inputs.

## What the code does not do

- A seed is fetched by a browser's lookup, and the token it was fetched for is not tested any more. Where lookup
  and filter differ, so do seeded and unseeded answers: in XML `getElementsByTagName` minds the case of names and
  Sizzle's TAG filter does not (`SizzleSelect.XmlTagCase`); in quirks mode `getElementsByClassName` ignores case and
  the CLASS filter does not (`SizzleSelect.QuirksClassCase`). In XML there is a second difference: a selector
  whose text has a `+` or `~` is tried on everything below the context's parent unless it is seeded
  (`SizzleSelect.XmlSeedNarrows`). `SizzleSelect.AnsweredIsQuery` is exact: select answers the query if and only
  if no element below the context that passes the rest of the selector is fetched without holding or holds
  without being fetched, and nothing outside the context is selected. With lookups that agree with their filters
  it therefore always does in HTML, and in XML, whatever the filters, exactly when the combinators alone reach no
  element outside the context (`SizzleSelect.XmlAnswersQueryForAllFilters`). From the document, all selectors are
  answered right exactly when every filter that can seed a search is fetched where it holds and nowhere else
  (`SizzleSelect.DocumentIsAnsweredRight`).
- compile keeps its results under the selector's text alone, and select compiles what its edits left under the text of
  that. A pattern that looks far ahead can read that text otherwise. `:contains(()x\:y.c\).d` in an XML document is
  `:contains(()`, `x\:y`, `.c\)` and `.d`, as the `:y` makes the prefilter give back what lies behind the first
  parenthesis; the tag becomes the seed, and `:contains(().c\).d` is left, which by itself is `:contains(().c\)` and
  `.d`. After a search for that text the first selector gets its matchers and is answered wrong
  (`SizzleCompile.ContainsAnsweredWrong`). What is left reads as the tokens left exactly when the patterns still find
  each token in front of the one taken out where it now stands (`SizzleReread.EditsReread`); so it always does without
  a seed, or with the seed in front. A search gets matchers of its own tokens, whatever was compiled before by text,
  exactly when that is so or the text left cannot be read at all (`SizzleCompile.SearchGetsItsOwn`); for all searches
  of a page together, those that leave the same unreadable text must also leave the same tokens
  (`SizzleCompile.OwnTokensExactly`). `SizzleSearch.Search` puts both together, from the text to the elements: a search
  whose seed is faithful and whose matchers were compiled from tokens that select the same of the elements run finds
  what it should, and one that finds what it should has both or neither. Neither is possible, as matchers of other
  tokens can drop what a seed brought wrongly (`SizzleSearch.TwoWrongs`).
- A callback that throws leaves its list firing for good: later additions and values are taken, and no callback of the
  list is ever called again (`CallbackLists.ThrowSilences`). A memory list without lock, disable and empty has given an
  entry all its values exactly if no callback threw, or the one that did was that entry's or behind it and no event was
  waiting or came later (`CallbackLists.MemoryListDelivers`).
- A deferred that is resolved or rejected inside a progress callback drops the notifications that wait behind it: its
  list for them is locked, which empties the queue. All handlers are sent all that was accepted exactly if none waits
  then (`DeferredNotices.ResolveDropsWaiting`).
- The document-order comparator puts the root of a tree that is not Sizzle's current document, be it an element,
  a fragment or the document of another frame, behind its own descendants (`DocumentOrder.ForeignRootSortsLast`).
  It follows document order on a pair exactly when the root is the current document or neither node is the root,
  and is a strict total order on every tree.
- `ajaxConvert` can go round for ever on a falsy converter (`AjaxConvert.FalsyEntryLoops`, as long as the
  converters it applies do not throw), but need not (`AjaxConvert.FalsyEntryPassed`). It ends on all lists of data
  types exactly when no target has a cycle of detours (`AjaxConvert.EndsExactlyWithoutCycles`): a cycle of types
  joined by converter functions, each with a falsy entry for the target, or with a key for it that has further words
  behind (`AjaxConvert.CycleIsFalsy`). A key with a space at its end is such a one: the search for pairs reads it, the
  lookup never finds it (`AjaxConvert.LongKeyLoops`). And the loop stops at a type whose name is empty, which it
  reports as success (`AjaxConvert.EmptyNameStops`); that the response has the type asked for is claimed of lists and
  converters whose names are not.
- The stemmer's pattern for a positive measure misreads a word that begins with y exactly when its measure is 0
  and its second letter is not one of a, e, i, o, u (`PorterMeasure.LeadingYIsMisread`). The stemmer writes such a
  word with Y, which is shown to change nothing else (`PorterStemmer.SameSteps`).
- The stemmer's patterns want at least one letter in front of a suffix, Porter's rules none. Of all words the stems
  differ for four: ies, sses, eed and eeds (`PorterRules.StemIsPorter`).
- The index search counts postings. A word posted for both the title and the text of a file loses the file when it
  is asked for alone (`SearchIndex.PostedTwiceIsLost`), and can make up for a word that is nowhere
  (`SearchIndex.OverlapCountsTwice`).
- The index tables are plain objects, so a word like "constructor" is found on their prototype too: such a value
  counts as one more file, and reading its scores throws. An index that lists file 0 for that word cannot be asked
  for it (`SearchIndex.InheritedNameThrows`). If no word's postings name a file twice, a query is answered as by
  brute force exactly when no inherited value counts (`SearchIndex.AnswersAreBruteForce`). Among distinct words, as
  `query` passes them, one that is looked up counts exactly when there are as many words as indexes without an entry
  of that name, so one or two (`SearchIndex.StrayCounts`). All
  queries are counted right exactly when no word's postings name a file twice and every inherited name has entries
  of its own in both indexes (`SearchIndex.AgreesExactlyWhenWellIndexed`).
- An excluded word keeps out the files it occurs in exactly when each index lists at most one file for it
  (`SearchIndex.ExclusionIsExact`): files are compared as strings with an array of numbers. `query` never passes an
  excluded word anyway, as its splitting takes the minus sign away (searchtools.js:226-300 and 447).
- `_.isEqual` ends on every heap. It is false exactly when some path from the two values ends in a difference
  without opening an object of the first twice (`DeepEqual.IsEqual`); so it never calls values of the same
  structure unequal, and is exactly structural equality if no path from the first value comes back to an object,
  whatever the second is. On cycles it can call different structures equal: x = [x] and [[]]
  (`DeepEqual.CycleCutShort`).

## Model

| member | source | states |
|---|---|---|
| SizzleMatcher.CompilationPreservesMeaning | docs/_static/jquery-3.2.1.js:2448-2504 | for every tree, context and list of tokens, the compiled matcher accepts an element exactly when elements can be assigned to the compounds with it rightmost, each adjacent pair related by its combinator and the leftmost rightly placed to the context |
| SizzleMatcher.ClimbIsRelated | docs/_static/jquery-3.2.1.js:2247-2309 | a climb accepts exactly when some node that stands in the combinator's relation is accepted by the inner matcher |
| SizzleMatcher.AboveIsRelated | docs/_static/jquery-3.2.1.js:2271-2278 | visiting every ancestor or elder sibling finds one exactly when one related by descendant or general sibling exists |
| SizzleMatcher.ClosestIsRelated | docs/_static/jquery-3.2.1.js:2254-2263 | stopping at the first visited node tests exactly the parent, or the next elder element |
| SizzleMatcher.GateChecksContext | docs/_static/jquery-3.2.1.js:2451-2470 | the first matcher checks the context exactly when there is a leading combinator or the context is not the outermost one |
| SizzleMatcher.RelatedMeans | docs/_static/jquery-3.2.1.js:2247-2309 | what the combinators relate, on paths: one level down or any number, the next element of the same parent or any later one; a document or fragment counts as parent and ancestor where the context is looked for |
| SizzleMatcher.LeadMeans | docs/_static/jquery-3.2.1.js:2451-2470 | where the leftmost compound may stand for a context of any kind, document and fragment included: its children after a leading child combinator, below it after descendant, its later siblings after the others; without one below it, where that is checked |
| SizzleEngine.Sizzle.MatcherFromTokens | docs/_static/jquery-3.2.1.js:2448-2504 | the loop over the tokens builds the closures the compiled form stands for, each climb under a name of its own |
| SizzleEngine.Sizzle.Match | docs/_static/jquery-3.2.1.js:2311-2323 | running a matcher's closures, whatever the cells hold from earlier in the run, answers as the uncached meaning does and leaves only right entries |
| SizzleEngine.Sizzle.MatchClosest | docs/_static/jquery-3.2.1.js:2254-2263 | the uncached climb of child and adjacent-sibling combinators |
| SizzleEngine.Sizzle.MatchAboveXml | docs/_static/jquery-3.2.1.js:2266-2278 | the uncached climb on XML documents |
| SizzleEngine.Sizzle.MatchAbove | docs/_static/jquery-3.2.1.js:2266-2308 | the cached climb, stacked on others that share its cell per node and direction, answers as without the cache |
| SizzleEngine.Sizzle.Visit | docs/_static/jquery-3.2.1.js:2281-2304 | one visit: a hit settles the climb; otherwise the node shares the climb's entry, and every cell aliasing it will hold the answer that is right for its own node |
| SizzleEngine.Sizzle.Compile | docs/_static/jquery-3.2.1.js:2617-2645 | the matchers compiled for a group accept what one of its selectors selects |
| SizzleEngine.Sizzle.SuperMatcher | docs/_static/jquery-3.2.1.js:2506-2549 | the results are the accepted candidates, in order |
| SizzleEngine.Sizzle.Run | docs/_static/jquery-3.2.1.js:2506-2549 | a compiled group run over candidates keeps, in order, those that one of its selectors selects |
| SizzleSelect.RunOne | docs/_static/jquery-3.2.1.js:2714-2722 | the compiled selector run over its candidates keeps those it selects |
| SizzleSelect.QueryFinds | docs/_static/jquery-3.2.1.js:2714-2722 | what testing every candidate finds: in document order the elements in reach that the selector selects, in an HTML document all that it selects |
| SizzleSelect.SelectedWithinReach | docs/_static/jquery-3.2.1.js:2506-2519 | in an HTML document nothing selected lies out of reach, which is below the context, or below its parent if some group has a plus or tilde |
| SizzleSelect.LeadSelects | docs/_static/jquery-3.2.1.js:2251-2257 | a combinator in front of one simple selector selects, from a context of any kind, the elements that stand so to it and for which the test holds |
| SizzleSelect.ChildrenOfRoot | docs/_static/jquery-3.2.1.js:2251-2257 | from the root, be it a document, a fragment or an element, a leading child combinator selects exactly its element children for which the test holds |
| SizzleSelect.Select | docs/_static/jquery-3.2.1.js:2656-2724 | with unique ids, the result is the elements, in document order, that the full selector selects among all candidates, if and only if the seeding run is faithful; so it is whenever lookups agree with their filters and, in XML, the context is checked or nothing is seeded |
| SizzleSelect.FetchSeed | docs/_static/jquery-3.2.1.js:2684-2711 | the seed is what is fetched for the last token of the last compound that can be looked up, and the rest of the tokens run on it are what select answers |
| SizzleSelect.SeedIndexMeans | docs/_static/jquery-3.2.1.js:2684-2711 | the seeding token: there is one exactly if no other combinator than descendant leads and no positional pseudo occurs, and it is the last token that can be looked up, with no combinator behind it |
| SizzleSelect.FoundMeans | docs/_static/jquery-3.2.1.js:1654-1766 | tags are looked up everywhere, IDs from nodes with getElementById and classes from elements and documents, both in HTML only; what comes back is in document order all that is fetched below the context, of an ID the first |
| SizzleSelect.ShortcutKeepsQuery | docs/_static/jquery-3.2.1.js:2667-2682 | starting from the element with the leading ID, without that token, answers the same query; if there is none the answer is empty |
| SizzleSelect.IdShortcut | docs/_static/jquery-3.2.1.js:2667-2682 | with one element of that ID, an element is selected from the document exactly when the rest selects it from there |
| SizzleSelect.SelectedLiesUnder | docs/_static/jquery-3.2.1.js:2451-2470 | what a selector selects lies below the context, or below its parent after a leading sibling combinator |
| SizzleSelect.AnsweredIsQuery | docs/_static/jquery-3.2.1.js:2684-2722 | the seeded run equals the query exactly when no element below the context that the rest selects is fetched without its filter holding or the other way round, and nothing outside the context is selected |
| SizzleSelect.AgreeingLookupsAnswerQuery | docs/_static/jquery-3.2.1.js:2684-2722 | with agreeing lookups it does in HTML always, in XML where the context bounds the query |
| SizzleSelect.XmlAnswersQueryForAllFilters | docs/_static/jquery-3.2.1.js:2684-2722 | for a fixed XML tree, selector and context it does for all filters exactly when there is no seed or the combinators alone reach no element outside the context |
| SizzleSelect.DocumentIsAnsweredRight | docs/_static/jquery-3.2.1.js:2656-2724 | from the document every selector is answered as by testing all elements exactly when each filter that can seed a search is fetched where it holds and nowhere else |
| SizzleSelect.CompoundReachesAll | docs/_static/jquery-3.2.1.js:2716-2722 | without combinators that is: there is no element below the outermost node and outside the context |
| SizzleSelect.BoundedStaysBelow | docs/_static/jquery-3.2.1.js:2451-2470 | what the first matcher checks keeps the selection below the context in HTML, and in XML after a leading combinator |
| SizzleSelect.XmlTagCase | docs/_static/jquery-3.2.1.js:1747-1756 | a page whose tag filter holds where the lookup fetches nothing |
| SizzleSelect.QuirksClassCase | docs/_static/jquery-3.2.1.js:1758-1766 | a page whose lookup fetches where the class filter does not hold |
| SizzleSelect.XmlSeedNarrows | docs/_static/jquery-3.2.1.js:2684-2722 | a page where lookups agree and the seeded run still loses a match outside the context |
| SizzleTokenize.TokensPrintBack | docs/_static/jquery-3.2.1.js:2170-2245 | the groups printed and joined by the comma texts read, with what is left over, are the input; a selector read whole has no empty group or token, and a failure stops where no pattern matches |
| SizzleTokenize.PassConsumes | docs/_static/jquery-3.2.1.js:2183-2224 | every pass that goes on has consumed some text |
| SizzleTokenize.Tokenizer.ReadPass | docs/_static/jquery-3.2.1.js:2193-2220 | a combinator and then each filter once, appended to the group's array |
| SizzleTokenize.Tokenizer.OpenGroup | docs/_static/jquery-3.2.1.js:2185-2192 | the first pass and every comma open a group, a trailing comma staying unread |
| SizzleTokenize.Tokenizer.Read | docs/_static/jquery-3.2.1.js:2179-2224 | the loop leaves in fresh arrays what reading the selector means |
| SizzleTokenize.Tokenizer.Remember | docs/_static/jquery-3.2.1.js:893-905 | the cache keeps the 50 latest selectors and gives up the oldest, and all it keeps is still what a fresh reading gives |
| SizzleTokenize.Tokenizer.Tokenize | docs/_static/jquery-3.2.1.js:2170-2235 | hit or miss, the result, the excess length or the error is that of a fresh reading; the outer array is the caller's own, the groups are the cache's |
| SizzleTokenize.Tokenizer.Reduce | docs/_static/jquery-3.2.1.js:2656-2712 | select shifts and splices only its own copy: the cache stays true to fresh readings, and the selector text it goes on with is that of the tokens left |
| SizzleTokenize.EditOwn | docs/_static/jquery-3.2.1.js:2667-2712 | which tokens are left: without a leading ID that became the context and without the last seeding token of the last compound |
| SizzleTokenize.SpliceSeed | docs/_static/jquery-3.2.1.js:2684-2711 | the seeding token is the last one before any combinator that can be looked up; an empty seed, or no token left, ends the search |
| SizzleTokenize.ToSelector | docs/_static/jquery-3.2.1.js:2237-2245 | prints the tokens one after the other |
| SizzleSelectTokens.EditIsSeeding | docs/_static/jquery-3.2.1.js:2684-2712 | the tokens select leaves in its array stand for the rest of the selector on the seeding side, and it stops at the seed when that is empty or nothing is left |
| SizzleSelectTokens.ShortcutIsStart | docs/_static/jquery-3.2.1.js:2667-2682 | the ID shortcut is taken on the tokens and on their meaning alike |
| SizzleReread.ReadingIsChain | docs/_static/jquery-3.2.1.js:2183-2224 | where no two patterns match the same text, a lone group read whole is a chain: each token is what its place in the text starts with |
| SizzleReread.ChainIsRead | docs/_static/jquery-3.2.1.js:2183-2224 | and reading the text of a chain gives it back, however the passes fall |
| SizzleReread.RereadExactly | docs/_static/jquery-3.2.1.js:2183-2224 | tokens are what reading their own text gives exactly when they are a chain |
| SizzleReread.WithoutIsChain | docs/_static/jquery-3.2.1.js:2690-2703 | a chain without one of its tokens is a chain exactly when each token in front of it is still found where it now stands |
| SizzleReread.EditsReread | docs/_static/jquery-3.2.1.js:2667-2722 | the tokens select leaves of a lone group are what reading the text it compiles them under gives, exactly when taking out the seed disturbs no token in front of it |
| SizzleCompile.ServedExactly | docs/_static/jquery-3.2.1.js:2617-2645 | in all histories of calls, each gets matchers compiled from tokens that agree with its own, exactly when any two calls under one text agree |
| SizzleCompile.OwnTokensExactly | docs/_static/jquery-3.2.1.js:2617-2722 | on a page, all calls get matchers of their own tokens exactly when edits of readable texts leave what their text reads as, and those that leave one unreadable text leave the same tokens |
| SizzleCompile.SearchGetsItsOwn | docs/_static/jquery-3.2.1.js:2656-2722 | a search gets matchers of its own tokens, whatever texts were compiled before, exactly when the text left cannot be read or its edit disturbs no token |
| SizzleCompile.SearchIsAnsweredRight | docs/_static/jquery-3.2.1.js:2656-2722 | and matchers that select what its own do, exactly when the text left cannot be read or what it reads as selects the same elements |
| SizzleCompile.ContainsAnsweredWrong | docs/_static/jquery-3.2.1.js:1711-1745 | with the readings of :contains(()x\:y.c\).d and of what a search of an XML document leaves of it, some history has the search answered wrong |
| SizzleCompile.Compiler.Compile | docs/_static/jquery-3.2.1.js:2617-2645 | the matchers accept what the tokens select that were compiled under the text first, those given if there are none; what is kept stays right while the engine gives out more names |
| SizzleCompile.Compiler.CompileText | docs/_static/jquery-3.2.1.js:2617-2645 | without tokens a text not kept is read first, and an unreadable one fails |
| SizzleCompile.Compiler.Remember | docs/_static/jquery-3.2.1.js:893-905 | the compiler cache keeps the 50 latest texts and gives up the oldest |
| SizzleCompile.Compiler.Run | docs/_static/jquery-3.2.1.js:2714-2722 | the candidates kept, in order, are those that the tokens select that were compiled under the text first |
| SizzleCompile.CompileReduced | docs/_static/jquery-3.2.1.js:2656-2722 | through both caches and the edits: a selector that is to run calls compile with the text and the tokens it was cut down to |
| SizzleSearch.Search | docs/_static/jquery-3.2.1.js:2656-2724 | from the selector's text through both caches, the shortcut, the seed and the run to the elements found; of one group, right exactly if the seed is faithful where nothing is run, and else if also the tokens first compiled under the text left select the same of the elements run, not with one of the two alone; of several, in document order exactly the elements in reach that the tokens of some group select, if those first compiled under the text select the same |
| SizzleSearch.PlanFor | docs/_static/jquery-3.2.1.js:2656-2712 | up to compile: of one group the elements run are those fetched for the seeding token from where the shortcut led, or all in question, and the tokens left mean the rest of the selector; of several they are all in reach |
| SizzleSearch.RunIsRight | docs/_static/jquery-3.2.1.js:2714-2722 | for a run by matchers of any origin: a faithful seed and an origin that selects alike give the query's answer, and the query's answer is given with both or neither |
| SizzleSearch.GroupsAreRight | docs/_static/jquery-3.2.1.js:2714-2722 | for several groups and matchers of any origin that selects alike, what is found is ascending and holds exactly the elements that some group selects: all of the document in HTML, and in XML those in reach |
| SizzleSearch.FoundInReach | docs/_static/jquery-3.2.1.js:2506-2549 | whatever the matchers were compiled from, what a run for several groups finds is, in order, what they select in reach |
| SizzleSearch.SeedDecides | docs/_static/jquery-3.2.1.js:2656-2724 | where the origin selects alike on every page, the search is right exactly if the seed is faithful |
| SizzleSearch.SeedIsFound | docs/_static/jquery-3.2.1.js:2684-2711 | the seed the loop over the tokens ends with is what the page's lookup finds for the seeding token |
| SizzleSearch.TwoWrongs | docs/_static/jquery-3.2.1.js:2684-2722 | a page, an unfaithful seed and matchers of other tokens that together give the query's answer |
| Callbacks.GapFreeAlways | docs/_static/jquery-3.2.1.js:3304-3396 | in every run of a memory list, inside callbacks too, each registration has had consecutive values from its birth on, and those in the list have missed none |
| Callbacks.GapFreeDelivery | docs/_static/jquery-3.2.1.js:3304-3396 | at rest, each registration in the list has been called with exactly the values from the one being or last delivered when it was added, in order; while a callback runs, with those up to the one the loops have brought it, which are all exactly if they have come to it and nothing is queued |
| Callbacks.BornWithLast | docs/_static/jquery-3.2.1.js:3351-3377 | the value a registration begins with: inside a callback the one being delivered, outside the last one sent, or the first if there is none yet |
| Callbacks.NeverRemovedDelivers | docs/_static/jquery-3.2.1.js:3304-3396 | at rest, a registration whose function no later removal names has been called with exactly those values |
| Callbacks.ExactlyOnce | docs/_static/jquery-3.2.1.js:3304-3380 | a once-memory list that has fired and come to rest has called the functions added, in order of addition, each once and with the first value |
| Callbacks.RemoveKeeps | docs/_static/jquery-3.2.1.js:3383-3396 | removing functions, while firing or not, skips or repeats no survivor |
| Callbacks.RemoveRemoves | docs/_static/jquery-3.2.1.js:3383-3396 | in every state an entry is in the list after remove exactly if it was before and its function is not among those removed; the order is kept and nothing but the firing index changes besides |
| Callbacks.RemovedIsSilent | docs/_static/jquery-3.2.1.js:3383-3396 | whatever is done then, in or out of callbacks and with any options, a function removed and not added again is never called |
| Callbacks.UniqueAlways | docs/_static/jquery-3.2.1.js:3362-3368 | with unique no function is ever in the list twice |
| Callbacks.OnceTakesOne | docs/_static/jquery-3.2.1.js:3298-3342 | a once list takes at most one value in its life, and without memory is empty and disabled once it has delivered it |
| Callbacks.FalseStops | docs/_static/jquery-3.2.1.js:3316-3325 | with stopOnFalse a callback that returns false ends its event and has it forgotten; without, it is as if it had returned anything else |
| Callbacks.DisableIsForGood | docs/_static/jquery-3.2.1.js:3413-3420 | after disable nothing is ever called or added again |
| Callbacks.LockTakesNothing | docs/_static/jquery-3.2.1.js:3422-3431 | after lock no value is taken and those waiting are dropped; a list that has nothing to remember is disabled |
| CallbackLists.CallbackList.RemoveOne | docs/_static/jquery-3.2.1.js:3383-3394 | the loop of searches and splices removes every occurrence and moves the firing index by those it had passed |
| CallbackLists.SpliceKeepsRemoval | docs/_static/jquery-3.2.1.js:3386-3392 | one splice with its index adjustment leaves the outcome of the removal unchanged |
| CallbackLists.CallbackList.Body | docs/_static/jquery-3.2.1.js:3351-3451 | add, remove, empty, disable, lock and fireWith change the list's fields as one step of the machine, and say whether to fire |
| CallbackLists.CallbackList.CallEach | docs/_static/jquery-3.2.1.js:3312-3326 | the inner loop of fire, with whatever its callbacks do to the list, runs as the machine does |
| CallbackLists.CallbackList.FireAll | docs/_static/jquery-3.2.1.js:3304-3349 | fire from first to last statement runs as the machine does, and ends |
| CallbackLists.CallbackList.Do | docs/_static/jquery-3.2.1.js:3348-3461 | an operation from outside, with what its callbacks do, leaves the list at rest or, if one throws, in that call for good, as the machine says |
| CallbackLists.LifeIsRun | docs/_static/jquery-3.2.1.js:3274-3461 | every life of a list object is a run of the step machine |
| CallbackLists.MemoryListDelivers | docs/_static/jquery-3.2.1.js:3304-3396 | gap-free delivery for every life of a memory list object; if a callback threw, up to that call, and in full exactly where the call was not before the entry's turn and no event waited or came later |
| CallbackLists.NeverRemovedIsServed | docs/_static/jquery-3.2.1.js:3304-3396 | in every life of a memory list object, a registration whose function is never removed is in the list at the end and has had every value due from its birth on |
| CallbackLists.RemovedIsNeverCalled | docs/_static/jquery-3.2.1.js:3383-3396 | in every life of a list object a function that is removed from outside and not added again, by callbacks either, is never called after |
| CallbackLists.OnceMemoryListDelivers | docs/_static/jquery-3.2.1.js:3304-3380 | exactly-once delivery for every life of a once-memory list object; if a callback threw, to the functions up to it |
| CallbackLists.LifeRests | docs/_static/jquery-3.2.1.js:3304-3349 | a life in which no callback throws leaves the list idle |
| CallbackLists.ThrowSilences | docs/_static/jquery-3.2.1.js:3304-3349 | once a callback has thrown, no callback of the list is called again, whatever is done to it |
| Deferreds.InvAlways | docs/_static/jquery-3.2.1.js:3511-3800 | the wiring of the six lists stays intact in every interleaving, from inside callbacks too |
| Deferreds.StateIsFinal | docs/_static/jquery-3.2.1.js:3751-3767 | the state leaves "pending" at most once, to what the first resolve or reject call says, and never changes again |
| Deferreds.OneOutcome | docs/_static/jquery-3.2.1.js:3741-3786 | done and fail callbacks never both run, nor do their handlers, and all get the first call's arguments |
| Deferreds.NoLateNotification | docs/_static/jquery-3.2.1.js:3764-3765 | once user code runs after the first resolve or reject, no notification is accepted any more |
| Deferreds.LateSettleIsIgnored | docs/_static/jquery-3.2.1.js:3751-3767 | a resolve, reject or notify then changes nothing at all |
| Deferreds.EachCallbackRunsOnce | docs/_static/jquery-3.2.1.js:3751-3772 | at rest after settling, every callback and handler of the winning side has run exactly once, in the order added and with the first call's arguments, and none of the other side |
| DeferredNotices.NotificationsArrive | docs/_static/jquery-3.2.1.js:3751-3786 | in every interleaving, at rest: the progress handlers have been sent, in order, what the progress list passed on, all it took as long as nothing was resolved or rejected; each progress callback and handler has been called with exactly these values from its registration on, each once and in order |
| DeferredNotices.ResolveDropsWaiting | docs/_static/jquery-3.2.1.js:3757-3766 | the handlers are sent all that was accepted but for what waits in the progress list when resolve or reject is first called |
| NotifyLists.RestDelivers | docs/_static/jquery-3.2.1.js:3304-3431 | a memory list that may be locked while it fires: at rest each registration has had all values delivered from its birth on, and unlocked these are all |
| NotifyLists.LockOk | docs/_static/jquery-3.2.1.js:3422-3431 | lock, in or out of callbacks, leaves what has been delivered as it is and lets the value on its way come to all |
| DeferredObjects.DeferredObject.FireAll | docs/_static/jquery-3.2.1.js:3304-3349 | fire of one of a deferred's six list objects, with the fires its callbacks start inside it on that and the other lists, takes acts of the machine, ends, and leaves the lists that were firing where they were |
| DeferredObjects.DeferredObject.RunUser | docs/_static/jquery-3.2.1.js:3304-3461 | a user callback calls the deferred as the script says, each call with all it starts, until it returns |
| DeferredObjects.DeferredObject.RunWiring | docs/_static/jquery-3.2.1.js:3751-3772 | the wiring callbacks' bodies and the handlers they fire are the machine's act |
| DeferredObjects.DeferredObject.Act | docs/_static/jquery-3.2.1.js:3741-3786 | resolving, rejecting, notifying or adding callbacks, from user code anywhere, is the machine's act and what follows from it |
| DeferredObjects.DeferredObject.Call | docs/_static/jquery-3.2.1.js:3511-3800 | a call from outside runs until all is at rest, took what user code did from the script in order, and leaves a settled state as it was |
| DeferredObjects.DeferredObject.CallbacksRunOnce | docs/_static/jquery-3.2.1.js:3511-3800 | at rest a settled deferred object has called all its winning callbacks and handlers once, in order and with the same arguments, and none of the others |
| DeferredObjects.DeferredObject.NotificationsCame | docs/_static/jquery-3.2.1.js:3511-3800 | the same of notifications for the object: what the progress handlers were sent and what every progress callback and handler was called with |
| ThenResolution.CounterImplementsFlags | docs/_static/jquery-3.2.1.js:3567-3692 | for all calls, repeated or nested, and throws, maxDepth gives the outcome that one first-call flag per pair of resolvers gives (Promises/A+ section 2.3.3.3.3) |
| ThenResolution.Fence | docs/_static/jquery-3.2.1.js:3574-3581 | after a resolver of depth d adopted a thenable, no call at depth at most d and no late throw below d changes anything |
| ThenResolution.FirstTerminalDecides | docs/_static/jquery-3.2.1.js:3634-3673 | the derived deferred settles with the first terminal call or throw not fenced off, and not otherwise |
| ThenResolution.NotesAre | docs/_static/jquery-3.2.1.js:3634-3642 | only progress handlers pass notifications on, each plain value they return in time, while nothing is decided |
| DerivedDeferreds.CallIsAccepted | docs/_static/jquery-3.2.1.js:3751-3786 | a resolve, reject or notify at rest is accepted exactly if nothing was resolved or rejected before, whatever its callbacks add, and nothing else is |
| DeferredNotices.NotifiedUntilSettled | docs/_static/jquery-3.2.1.js:3751-3772 | the progress list is not locked before the first resolve or reject |
| DerivedDeferreds.Resolution.CallResolver | docs/_static/jquery-3.2.1.js:3646-3674 | a call with its catch is one step of the resolution machine, and its resolveWith or rejectWith one of the derived deferred object |
| DerivedDeferreds.Resolution.CallNotifier | docs/_static/jquery-3.2.1.js:3607-3614 | a progress call is one step of it, and notifies the derived deferred |
| DerivedDeferreds.Resolution.ThenEnds | docs/_static/jquery-3.2.1.js:3650-3673 | the end of a then method, by a throw or not, is one step of it |
| DerivedDeferreds.Resolution.Listen | docs/_static/jquery-3.2.1.js:3741-3749 | callbacks added to the derived deferred leave the resolution as it was |
| DerivedDeferreds.Resolution.FirstTerminalSettles | docs/_static/jquery-3.2.1.js:3567-3731 | the derived deferred object is pending until the first terminal call or throw not fenced off; a value returned resolves it with that value; the deferred itself rejects it with the self-resolution error, an unreadable then, a throwing handler or a throwing then method with what was thrown; all its callbacks of that side have been called once, with that, and none of the other |
| DerivedDeferreds.Resolution.NotesCame | docs/_static/jquery-3.2.1.js:3603-3642 | the derived deferred object has accepted just the values that progress handlers returned in time, in order |
| DerivedDeferreds.Then | docs/_static/jquery-3.2.1.js:3694-3730 | then gives a fresh derived deferred and adds one handler to each of the parent's handler lists |
| DerivedDeferreds.OneHandlerRuns | docs/_static/jquery-3.2.1.js:3694-3730 | of a then call's two handlers exactly one is called once the parent is settled and at rest, once, with what the parent was settled with |
| NthChild.FormulaIsSeries | docs/_static/jquery-3.2.1.js:1913-1915 | the final test holds exactly when index = a*n+b for some n >= 0, for all signs of a and for 0 (Selectors Level 3, section 6.6.5.2) |
| NthChild.ElementIndexMeans | docs/_static/jquery-3.2.1.js:1843-1862 | the index is the number of its parent's element children up to and including the element |
| NthChild.NthChildFilter.Seek | docs/_static/jquery-3.2.1.js:1831-1862 | whatever children were queried before in the run, resuming or starting over yields the 1-based element index, and the loop ends |
| NthChild.NthChildFilter.NewRun | docs/_static/jquery-3.2.1.js:2518-2519 | a new run forgets every cached position, so the tree may have changed |
| NthChild.NthChildFilter.Matches | docs/_static/jquery-3.2.1.js:1791-1915 | the filter accepts exactly the elements whose index is in the series |
| DocumentOrder.SiblingCheck | docs/_static/jquery-3.2.1.js:957-977 | the walk along nextSibling tells which of two siblings comes first |
| DocumentOrder.SortOrder | docs/_static/jquery-3.2.1.js:1455-1507 | the comparator is 0 exactly on equal nodes, negative exactly for the order below, and reports duplicates |
| DocumentOrder.FollowsDocumentOrder | docs/_static/jquery-3.2.1.js:1469-1477 | that order is document order on a pair exactly when the root is the current document or neither node is the root |
| DocumentOrder.ForeignRootSortsLast | docs/_static/jquery-3.2.1.js:1469-1477 | the smallest tree where it is not, whatever kind of root it has |
| DocumentOrder.StrictTotalOrder | docs/_static/jquery-3.2.1.js:1455-1507 | on the nodes of any tree it is a strict total order |
| DocumentOrder.TraversalOrder | docs/_static/jquery-3.2.1.js:1455-1507 | in the current document it is the order of a depth-first traversal |
| DocumentOrder.FindDuplicates | docs/_static/jquery-3.2.1.js:1599-1603 | the saved indices are those that repeat their predecessor |
| DocumentOrder.SpliceDuplicates | docs/_static/jquery-3.2.1.js:1604-1606 | splicing them out last to first leaves each run of equals once |
| DocumentOrder.UniqueSort | docs/_static/jquery-3.2.1.js:1587-1614 | the result is strictly ascending and has the same nodes |
| EventHandlers.Element.AddOne | docs/_static/jquery-3.2.1.js:5017-5080 | a registration goes to its type's list, delegated ones in front, and every list keeps its shape |
| EventHandlers.Element.RemoveOne | docs/_static/jquery-3.2.1.js:5104-5155 | exactly the registrations the arguments select are gone from the type's list, and an emptied list is deleted |
| EventHandlers.OffLeaves | docs/_static/jquery-3.2.1.js:5124-5132 | what off leaves: exactly the handlers with another origType, guid, namespace or selector than asked for |
| EventHandlers.Element.RemoveMatching | docs/_static/jquery-3.2.1.js:5124-5142 | the splice loop keeps the others, their order and the delegate count |
| EventHandlers.Element.RemoveFromAll | docs/_static/jquery-3.2.1.js:5108-5114 | without a type exactly those lists are filtered that a type is directed to which for-in still meets: its list keeps a handler, or no type met before it is directed to it |
| EventHandlers.SweptAnyOrder | docs/_static/jquery-3.2.1.js:5108-5114 | whatever the order, lists of types directed to themselves or with handlers left are swept, and none that no type is directed to |
| EventHandlers.OrderMatters | docs/_static/jquery-3.2.1.js:5108-5114 | of two types directed to each other the one met first keeps its handlers |
| EventHandlers.ListShape | docs/_static/jquery-3.2.1.js:5071-5076 | exactly the first delegateCount handlers carry a selector, each part in registration order; a list is empty only without registrations |
| EventHandlers.Element.HandlerQueue | docs/_static/jquery-3.2.1.js:5226-5282 | the queue is the delegated matches from the target upward, then the direct handlers, all in registration order |
| EventHandlers.QueueMeans | docs/_static/jquery-3.2.1.js:5226-5282 | which handlers an event calls and where: at every enabled element on the way up the delegated ones whose selector it matches, deepest element first, then at the bound element the direct ones, at each all that are due in order of registration |
| EventHandlers.Element.ClimbFromTarget | docs/_static/jquery-3.2.1.js:5246-5272 | the climb collects at each enabled element between target and bound element the handlers whose selector matches it |
| AjaxConvert.Search | docs/_static/jquery-3.2.1.js:8715-8745 | the direct converter, else the first usable pair |
| AjaxConvert.ChoiceIsFirst | docs/_static/jquery-3.2.1.js:8715-8745 | the converter under the two types comes before the one from any type, and both before a pair; of the pairs it is the first in the order of the keys whose second half is there; there is none exactly if no key serves |
| AjaxConvert.NamedTypes | docs/_static/jquery-3.2.1.js:8704-8710 | the type asked for is the last one named and the response has the first, "*" naming none |
| AjaxConvert.GoalIsRequested | docs/_static/jquery-3.2.1.js:8704-8710 | the type the loop heads for is the last one asked for, "*" standing for the one before |
| AjaxConvert.Convert | docs/_static/jquery-3.2.1.js:8674-8768 | whenever the loop ends: on success the response came through converters that each got what their keys say and accepted it, and, if no type's name is empty, has the final requested type; on failure there was no way, or the converter threw |
| AjaxConvert.RunLoop | docs/_static/jquery-3.2.1.js:8691-8766 | the loop follows the step function and keeps the response typed |
| AjaxConvert.ConvertStep | docs/_static/jquery-3.2.1.js:8713-8764 | one iteration does what the search chose and keeps the response typed, or names the failure |
| AjaxConvert.ChoiceIsTyped | docs/_static/jquery-3.2.1.js:8715-8745 | what an iteration applies is well typed, whatever the map holds; it applies nothing only if there is no way |
| AjaxConvert.EndsExactlyWithoutCycles | docs/_static/jquery-3.2.1.js:8691-8766 | the loop ends for all lists of data types exactly when no target has a cycle of detours |
| AjaxConvert.CycleIsFalsy | docs/_static/jquery-3.2.1.js:8718-8745 | the types of a cycle are joined by converter functions, and each begins a key for the target without a direct converter to it: a falsy entry, or a key of more than two words |
| AjaxConvert.CycleGoesOn | docs/_static/jquery-3.2.1.js:8735-8738 | from a cycle every later state of the loop is on it |
| AjaxConvert.ProperHasNoCycle | docs/_static/jquery-3.2.1.js:8691-8766 | with functions and true only, and keys of two words that do not repeat, there is no cycle |
| AjaxConvert.FalsyEntryLoops | docs/_static/jquery-3.2.1.js:8735-8738 | a map with a falsy entry on which the loop makes the same detour for ever |
| AjaxConvert.LongKeyLoops | docs/_static/jquery-3.2.1.js:8720-8745 | a map of functions only, one of them under a key with a space at its end, on which the loop makes the same detour for ever |
| AjaxConvert.FalsyEntryPassed | docs/_static/jquery-3.2.1.js:8715-8716 | and one on which it always ends |
| AjaxConvert.EmptyNameStops | docs/_static/jquery-3.2.1.js:8688-8691 | with converters from a to the empty name and on to c, the loop stops in between |
| Throttle.RunsAreSpaced | docs/_static/underscore-1.3.1.js:528-563 | for every schedule of calls, runs of the function are at least wait apart and get ever newer arguments |
| Throttle.EveryCallIsServed | docs/_static/underscore-1.3.1.js:528-563 | a call at time t is followed by a run in [t, t+wait] with its own or newer arguments |
| Throttle.QuietCallRunsAtOnce | docs/_static/underscore-1.3.1.js:531-545 | the first call, and each call more than twice wait after the one before, runs the function at once, with its own arguments |
| Throttle.Throttled.RunsKeepDistance | docs/_static/underscore-1.3.1.js:528-563 | the same distance between the runs of any throttled object |
| Throttle.Throttled.CallsAreServed | docs/_static/underscore-1.3.1.js:528-563 | and the same delay for each of its calls |
| Throttle.Throttled.Call | docs/_static/underscore-1.3.1.js:531-545 | the function throttle returns is the machine's call step |
| Throttle.Throttled.Fire | docs/_static/underscore-1.3.1.js:533-537 | the two timers' callbacks are its timer step |
| Throttle.Throttled.Debounced | docs/_static/underscore-1.3.1.js:552-563 | the debounced function replaces its pending timer by a new one |
| DeepEqual.IsEqual | docs/_static/underscore-1.3.1.js:757-759 | false exactly when some path ends in a difference without opening an object of a twice; exactly structural equality if no path from a comes back to an object; on a heap without cycles exactly equality of what the values unfold to; always true on the same structure |
| DeepEqual.Eq | docs/_static/underscore-1.3.1.js:669-754 | the same, below the objects on the stack: they are not opened again |
| DeepEqual.EqArrays | docs/_static/underscore-1.3.1.js:721-730 | arrays differ by length, by holes or by an element |
| DeepEqual.EqRecords | docs/_static/underscore-1.3.1.js:734-750 | objects differ by their keys, the countdown finding extra keys in b, or by a value |
| DeepEqual.CycleCutShort | docs/_static/underscore-1.3.1.js:709-715 | x = [x] and [[]] are called equal but have different structure |
| HeapStructure.DifferMeans | docs/_static/underscore-1.3.1.js:709-717 | what the recursion finds is what some path shows that opens no object twice |
| HeapStructure.StructureIsNoDifference | docs/_static/underscore-1.3.1.js:669-754 | two values are related by a bisimulation exactly when no path tells them apart |
| HeapStructure.WithoutCycle | docs/_static/underscore-1.3.1.js:709-715 | if no path from a comes back to an object, the shortcut for cycles never fires |
| HeapStructure.UnfoldsDifferently | docs/_static/underscore-1.3.1.js:669-754 | on a heap without cycles values differ exactly when they unfold differently |
| HeapStructure.RecordsAlike | docs/_static/underscore-1.3.1.js:734-750 | comparing one object's keys and the two counts is enough for equality both ways |
| PorterMeasure.Mgr0IsMeasure | docs/_static/searchtools.js:53-61 | mgr0 accepts exactly the words of measure > 0 |
| PorterMeasure.Mgr1IsMeasure | docs/_static/searchtools.js:53-61 | mgr1 accepts exactly the words of measure > 1 |
| PorterMeasure.Meq1IsMeasure | docs/_static/searchtools.js:53-61 | meq1 accepts exactly the words of measure 1 |
| PorterMeasure.SvIsVowel | docs/_static/searchtools.js:53-61 | s_v accepts exactly the words with a vowel, y being one after a consonant |
| PorterMeasure.CvcMeans | docs/_static/searchtools.js:109-109 | the pattern of steps 1b and 5 accepts exactly the words of measure 1 that end in consonant, vowel, consonant other than w, x, y |
| PorterMeasure.LeadingYIsMisread | docs/_static/searchtools.js:77-79 | a word with a leading y passes mgr0 exactly when its measure is > 0 or its second letter is not a, e, i, o or u |
| PorterMeasure.MisreadWord | docs/_static/searchtools.js:53-61 | yb has measure 0 and passes mgr0 |
| PorterStemmer.StemWord | docs/_static/searchtools.js:63-193 | the stemmer's rewriting by patterns is Porter's steps by their rules and measure conditions, on stems of one letter or more and with y itself at the start; the stem is no longer than the word and keeps its first letter |
| PorterStemmer.SameSteps | docs/_static/searchtools.js:77-79 | words that differ in a leading y and Y go through all steps alike |
| PorterStemmer.StepOne | docs/_static/searchtools.js:81-129 | step 1 |
| PorterStemmer.StepOneB | docs/_static/searchtools.js:90-119 | step 1b, the branch for -eed taken whatever the measure |
| PorterStemmer.StepsTwoAndThree | docs/_static/searchtools.js:131-151 | steps 2 and 3 |
| PorterStemmer.StepFour | docs/_static/searchtools.js:153-169 | step 4 |
| PorterStemmer.StepFive | docs/_static/searchtools.js:171-187 | step 5 |
| PorterStemmer.StemTrims | docs/_static/searchtools.js:63-193 | over all steps the word is never lengthened and keeps its first letter |
| PorterStemmer.SplitIsLongest | docs/_static/searchtools.js:132-132 | a lazy stem leaves the longest listed suffix, the one Porter's algorithm names |
| PorterTables.Step1aMeans | docs/_static/searchtools.js:81-88 | step 1a: sses and ies lose their es behind a letter, and any other s that no s precedes goes |
| PorterTables.Step1bMeans | docs/_static/searchtools.js:90-119 | step 1b: eed loses its d behind a stem of positive measure, and is not taken for ed; ed and ing go behind a stem with a vowel |
| PorterTables.TidyDouble | docs/_static/searchtools.js:106-117 | of two like letters at the end one goes, but for vowels, y, l, s and z |
| PorterTables.Step2Replaces | docs/_static/searchtools.js:131-140 | step 2, suffix by suffix: behind a stem of positive measure each listed one is replaced by its entry, ational before tional and ization before ation |
| PorterTables.Step3Replaces | docs/_static/searchtools.js:142-151 | step 3 likewise |
| PorterTables.Step4Drops | docs/_static/searchtools.js:153-162 | step 4, suffix by suffix: behind a stem of measure > 1 it goes, ement before ment before ent |
| PorterTables.Step4DropsIon | docs/_static/searchtools.js:163-169 | ion goes behind s or t, which counts for the measure |
| PorterTables.Step5aMeans | docs/_static/searchtools.js:171-181 | step 5: a final e goes behind a stem of measure > 1, or 1 unless that ends in consonant, vowel, consonant |
| PorterRules.StemIsPorter | docs/_static/searchtools.js:63-193 | of all words without line ends the stem is Porter's, whose stems may be empty, except for ies, sses, eed and eeds |
| PorterRules.SameFrom2 | docs/_static/searchtools.js:131-187 | from step 2 on, a word that is nothing but a suffix comes to the same with and without its empty stem, ization in two different ways |
| PorterRules.EedDiffers | docs/_static/searchtools.js:90-104 | eed is kept by the rules and cut to e by the source, which takes it for e and ed |
| SearchIndex.CountingIsBruteForce | docs/_static/searchtools.js:660-708 | with duplicate-free, disjoint postings a file counts exactly when some word was asked for and every word occurs in its title or text |
| SearchIndex.RightExactlyWithoutStrays | docs/_static/searchtools.js:660-708 | what counts then are exactly the files with all words if and only if no inherited value counts |
| SearchIndex.StrayCounts | docs/_static/searchtools.js:664-708 | among distinct words an inherited value counts exactly when it is looked up before an unknown word and as many of the two indexes lack an entry of that name as the query has words |
| SearchIndex.AnswersAreBruteForce | docs/_static/searchtools.js:650-730 | then a search returns each file with all words once, scored by the best, if and only if no inherited value counts |
| SearchIndex.PerformTermsSearch | docs/_static/searchtools.js:650-730 | a search throws exactly when a function inherited under a word asked for is picked; otherwise each thing picked is returned once, a file with the highest of its scores; picked is what no excluded word equals and whose postings for the words before the first unknown one are as many as there are words |
| SearchIndex.AgreesExactlyWhenWellIndexed | docs/_static/searchtools.js:660-708 | all queries are counted as by brute force exactly when no word's postings name a file twice and every inherited name has an entry of its own in both indexes |
| SearchIndex.InheritedNameThrows | docs/_static/searchtools.js:664-727 | the index with file 0 for constructor is well made, and searching it for that word throws |
| SearchIndex.ExclusionIsExact | docs/_static/searchtools.js:710-719 | an excluded word keeps out exactly the files it occurs in if and only if each index lists at most one file for it |
| SearchIndex.PostedTwiceIsLost | docs/_static/searchtools.js:706-708 | a file posted twice for a word is not returned for that word alone |
| SearchIndex.OverlapCountsTwice | docs/_static/searchtools.js:673-699 | and a file is returned that lacks a word |
| SearchIndex.ScoreIsOverAllWords | docs/_static/searchtools.js:721-727 | and the score is the highest over all words asked for |
| SearchIndex.TitleOutscores | docs/_static/searchtools.js:664-667 | a file whose title has one of the words scores 15, one that has them in the text alone 5 |
| SearchIndex.BreakChangesNothing | docs/_static/searchtools.js:669-672 | then stopping at an unknown word gives the same files as going on |
| SearchIndex.RecordTerms | docs/_static/searchtools.js:660-700 | fileMap lists each file's postings in word order, scoreMap the scores, the title's over the text's |

## Left out

Weaker than the source:

- Deferreds.InvAlways: the lists are list objects in DeferredObjects only; that the deferred's methods are the lists' own is not captured, and callbacks that throw are not modelled there.
- CallbackLists.CallbackList.Do: what callbacks do is a script of operations on the list and a return or a throw; `has`, `disabled`, `locked` and `fired`, which only read fields, are not modelled.
- SizzleEngine.Sizzle.MatcherFromTokens: without the branch that makes a set matcher of positional pseudos.
- SizzleEngine.Sizzle.Compile: without set matchers; the cache around it is SizzleCompile.Compiler.Compile.
- SizzleReread.EditsReread: patterns are functions of the text ahead; what is asked of them is that no other matches where a filter does, as Sizzle's, which begin with different characters or reject each other, do not. A prefilter that throws, as CHILD's does on an nth without argument, is not modelled.
- SizzleEngine.Sizzle.SuperMatcher: without the part that runs set matchers on what is left.
- SizzleSelect.Select: one selector at a time, its tokens given; from the text, and for groups, it is SizzleSearch.Search. Precompiled selectors, seeds given by the caller and the native querySelectorAll path are not modelled.
- SizzleTokenize.Tokenizer.Tokenize: patterns and prefilters are abstract prefix matchers that match some text or nothing; preFilter's own nested tokenize call, which stores nothing, is inside them.
- SizzleSearch.Search: what tokens stand for on the page is a parameter, and the tests on the selector's text (`needsContext`, `rsibling`) are taken to come to those on its tokens.
- DerivedDeferreds.Resolution.CallResolver: callbacks of the derived deferred only add callbacks to it; a resolver they call is taken to be called after them.
- ThenResolution.CounterImplementsFlags: what resolvers are handed and results they bring are events; setTimeout, exceptionHook, contexts and multiple arguments are not modelled, nor a getter `then` that calls resolvers while being read.
- EventHandlers.Element.RemoveFromAll: the order for-in takes is an input.
- EventHandlers.Element.AddOne: one word of `types` at a time, looked up among the element's own lists (`events[type]`, jquery-3.2.1.js:5047, would also find what a plain object inherits); data, special events' setup, add, remove and teardown hooks and addEventListener are not modelled.
- DocumentOrder.UniqueSort: the native sort is an input that is sorted by the comparator and a permutation.
- DocumentOrder.SortOrder: two nodes of one tree; nodes of different trees, where the comparator falls back on the order of the input, are not modelled.
- Throttle.Throttled.Call: a function that calls its own wrapper, or throws, is not modelled; timers fire on time, and in the order they were set when due together.
- DeepEqual.IsEqual: plain data: wrappers, dates, regular expressions, custom isEqual methods and _chain are not modelled.
- AjaxConvert.Convert: data types are words without spaces; asks that the loop ends with converters that do not throw; one that throws can also stop a loop that would not end. responseFields and dataFilter are not modelled.
- NthChild.NthChildFilter.Matches: the forward, cached branch; type, only, last-child and XML variants are not modelled.
- SearchIndex.PerformTermsSearch: files are numbers; the arrays docnames, titles and filenames only label them. What objects inherit under a name is a parameter; different inherited values are taken to print differently, and the index literals to own no `__proto__`.

Not modelled:

- Positional pseudos, set matchers, the text of `:has`, `:not` and all other simple selectors' meaning.
- The optional legend combinator used for disabled fieldsets.
- jQuery.when, and thenables adopted by it.
- The search page's object search, its summaries and its query parsing.
- The C++ search engine of the repository, its bindings and its benchmarks.
