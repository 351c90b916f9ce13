# Verified models of jQuery 1.11.1, jQuery Cookie 1.4.1 and the failover watcher

This project models, in Dafny, the three pieces of stateful code kept in this repository whose
behaviour is hardest to see from any one function, and proves what each of them is for.

* **Sizzle, jQuery's selector engine.** A document is a finite rooted tree; a node is named by its
  path from the root (`Dom`). `DocumentOrder` treats the comparator that works from ancestor chains,
  and `uniqueSort`. `Tokenizer` treats the tokenizing loop over an arbitrary table of prefix matchers,
  with its bounded cache. `Selector` and `Compiler` treat the compiled right-to-left matchers, with the
  slots they write on nodes and the array that all nodes of one walk share; `Select` treats the
  matching loop, seeding and the id short cut. `SetMatch` treats positional groups matched against a
  seed. `NthChild` treats the cached seek of `:nth-child`.
* **jQuery's callback machinery, data and text.** `Callbacks`, `CallbackRuns` and `CallbackBatches`
  treat a callback list that is changed and fired again while it is firing; `Deferred` builds the
  three-list state machine on it (with `DeferredCalls`, `DeferredLoop`, `DeferredRuns` and `DeferredNotes`); `When` joins
  deferreds. `DataIds` treats the allocator of data ids and its clean-up, which tear-down hooks re-enter
  (with `DataHooks`, `DataOthers`, `DataKeys`, `DataRuns` and `DataStores`), `Delegation` the handler list
  with its delegate count and the dispatch queue, `FxQueue` the fx queue with its sentinel, and `ClassNames` the string editing behind
  `addClass`, `removeClass` and `hasClass`.
* **jQuery Cookie.** `Percent` is `encodeURIComponent` and `decodeURIComponent` (ECMA-262 edition 5.1,
  sections 15.1.3.1 to 15.1.3.4) on UTF-16 code units; `Cookie` is the plugin in its default mode over
  a cookie jar that stores and prints as sections 5.2 and 5.4 of RFC 6265 describe.
* **The failover watcher.** `Failover` is the shell script's loop against a cluster that changes on
  its own between any two commands.

`Seqs` (filtering of sequences) and `Wrappers` (an option type) serve the rest.

Code that updates state in place is a class or a method with loops, and its contract ties the new state
to a specification function of the old one; what the code is for is then proved about that function.
Code that user callbacks can re-enter (`CallbackRuns`, `Deferred`) is a step machine: a callback is
whatever sequence of calls happens before it returns. In `DataIds` a hook is a script of operations,
which may call further hooks.

## Results that go beyond the documentation

The code is modelled as it is, so a property that fails for it is stated with the exact condition
under which it holds.

* `DocumentOrder.BeforeIsDocumentOrder`: the comparator is document order exactly when the tree's root
  is the document or has no children. In a detached tree the root is sorted after its descendants.
* `Select.SelectAll`, `Select.FragmentSiblings`: a selector that starts with a sibling combinator finds
  nothing when the context's parent cannot be searched; the result is the whole answer exactly when such
  a group selects nothing anyway.
* `SetMatch.NoneLostIff`, `SetMatch.LostMatch`: with a seed, a group such as `:first.foo` gives back what
  other positional groups had already matched.
* `Cookie.ReadAfterWrite`, `Cookie.ShadowedWrite`: a cookie set by others whose name spells a key
  differently hides what the plugin writes under that key later.
* `DataHooks.CleanedConsistent`, `DataRuns.HookMayBreakIds`: a tear-down hook that cleans the element being
  cleaned, and then stores data for another one, makes an id both free and in use. Hooks that spare the
  elements being cleaned, as the library's own do, are safe whatever else they clean
  (`DataRuns.EveryRunSound`, `DataRuns.LibraryHooksSpare`).
* `DeferredNotes.NotifiesInOrder`, `DeferredNotes.DroppedNote`: every notification reaches its handlers except those
  that are waiting for another one to end when the deferred is settled; they are dropped.
* `ClassNames.TrimKeepsWords`, `ClassNames.OddSpaceLost`: class strings act as word lists exactly when
  the first word does not start, and the last does not end, with white space other than the space (a
  no-break space, say), because trimming uses a wider notion of white space than splitting.
* `Failover.Cluster.Watch`, `Failover.LostService`: the watcher is safe exactly when every failing poll that
  leads to a promotion finds no pod that accepts writes. A round without a slave loses the service for
  good, and from then on every poll fails.

## Model

| member | source | states |
|---|---|---|
| Dom.BeyondUp | docs/htmldoc/javascripts/jquery.js:2118-2133 | the nodes met by following parentNode are exactly the proper ancestors |
| Dom.BeyondBack | docs/htmldoc/javascripts/jquery.js:2118-2133 | the nodes met by following previousSibling are exactly the earlier siblings |
| Dom.PreorderComplete | docs/htmldoc/javascripts/jquery.js:1480-1507 | the reference enumeration of document order holds every node of the tree and no other |
| Dom.PreorderAscending | docs/htmldoc/javascripts/jquery.js:1480-1507 | preorder is strictly ascending in the lexicographic order of paths, so it lists no node twice |
| Dom.PrecedesIsLex | docs/htmldoc/javascripts/jquery.js:1353-1405 | coming earlier in preorder is the same as being lexicographically smaller |
| DocumentOrder.SiblingCheck | docs/htmldoc/javascripts/jquery.js:952-973 | walking nextSibling decides which of two siblings comes first; an absent node sorts before a present one |
| DocumentOrder.Ancestors | docs/htmldoc/javascripts/jquery.js:1382-1390 | unshifting parents yields the chain from the root down to the node |
| DocumentOrder.SortOrder | docs/htmldoc/javascripts/jquery.js:1353-1405 | the result is 0 for identical nodes, which raises the duplicate flag, negative exactly when the specification order puts the first node before the second, and positive otherwise |
| DocumentOrder.DiscrepancyDecides | docs/htmldoc/javascripts/jquery.js:1392-1399 | the first discrepancy of two ancestor chains, checked as siblings, decides the order of the nodes themselves |
| DocumentOrder.BeforeStrict | docs/htmldoc/javascripts/jquery.js:1353-1405 | the order is irreflexive and total: of two different nodes exactly one precedes |
| DocumentOrder.BeforeTransitive | docs/htmldoc/javascripts/jquery.js:1353-1405 | the order is transitive |
| DocumentOrder.BeforeIsDocumentOrder | docs/htmldoc/javascripts/jquery.js:1367-1376 | the order is preorder for all pairs of nodes if and only if the root is the document or the tree has one node |
| DocumentOrder.Sort | docs/htmldoc/javascripts/jquery.js:1489 | sorting with the comparator gives a sorted permutation, and the duplicate flag is up whenever an entry is repeated |
| DocumentOrder.FindDuplicates | docs/htmldoc/javascripts/jquery.js:1491-1496 | the positions recorded are exactly those whose entry equals its successor |
| DocumentOrder.Splice | docs/htmldoc/javascripts/jquery.js:1497-1499 | splicing from the back leaves the same elements, still sorted, with no equal neighbours |
| DocumentOrder.UniqueSort | docs/htmldoc/javascripts/jquery.js:1480-1507 | the result has the same set of elements, is strictly ascending, and is in strict preorder unless it holds a detached root |
| Tokenizer.ToSelector | docs/htmldoc/javascripts/jquery.js:2092-2100 | the token values put together spell the group |
| Tokenizer.TokenizedReads | docs/htmldoc/javascripts/jquery.js:2038-2079 | by offsets in the selector: a new group starts at the beginning and exactly where the comma matcher matches at the start of a turn, and the comma is skipped unless it ends the text; every token is what the first matcher that matches there takes, the matchers of a round being tried once each in order; a turn that reads nothing ends the reading, and only then is text left unread |
| Tokenizer.TokenizePartitions | docs/htmldoc/javascripts/jquery.js:2038-2079 | the groups read, with the consumed comma texts between them, followed by the unread rest, are exactly the selector |
| Tokenizer.GroupsSpellSelector | docs/htmldoc/javascripts/jquery.js:2084-2099 | groups that are returned spell the whole selector, so toSelector of a group is its exact source text |
| Tokenizer.LexPartition | docs/htmldoc/javascripts/jquery.js:2038-2079 | whatever the loop has read, and what it leaves unread, together make up the text; the unread rest is a suffix |
| Tokenizer.RoundPartition | docs/htmldoc/javascripts/jquery.js:2051-2074 | one round of combinator and filters moves text from the front of the rest to the end of the group |
| Tokenizer.Lexer.ReadGroups | docs/htmldoc/javascripts/jquery.js:2038-2079 | the loop ends and computes the reading that TokenizedReads describes |
| Tokenizer.Lexer.ReadPass | docs/htmldoc/javascripts/jquery.js:2040-2079 | one pass: comma or first run, then a round; it reports whether anything matched |
| Tokenizer.Lexer.OpenGroup | docs/htmldoc/javascripts/jquery.js:2041-2047 | a comma is dropped from the text unless nothing follows it, and a new group starts |
| Tokenizer.Lexer.ReadFilters | docs/htmldoc/javascripts/jquery.js:2063-2074 | every filter of the table is tried once, in order, each on what the one before left |
| Tokenizer.Lexer.Tokenize | docs/htmldoc/javascripts/jquery.js:2025-2090 | with or without a cached entry the answer is the specification one: groups that are a full reading of the selector, an error when a reading leaves text over, or for parse-only calls the length of what is left (0 when cached) |
| Tokenizer.Lexer.Store | docs/htmldoc/javascripts/jquery.js:888-900 | a full cache drops its oldest key and no other, and every entry is the right tokenization of its key |
| Selector.Engine.Run | docs/htmldoc/javascripts/jquery.js:2102-2167 | a matcher run with node memory answers what it would answer without, and leaves the memory sound |
| Selector.Engine.RunFirst | docs/htmldoc/javascripts/jquery.js:2107-2115 | the closest-node walk asks the inner matcher about the nearest node that counts |
| Selector.Engine.RunWalk | docs/htmldoc/javascripts/jquery.js:2117-2152 | the walk over all nodes beyond answers whether one of them satisfies the inner matcher; every slot written in this run then holds the right outcome, through the array shared by the whole walk |
| Selector.Engine.Probe | docs/htmldoc/javascripts/jquery.js:2133-2148 | one node of a walk: an outcome remembered under the same run and name is adopted and is right for all nodes passed; otherwise the shared array is left there and the inner matcher decides |
| Selector.Engine.Attach | docs/htmldoc/javascripts/jquery.js:2141-2147 | while the inner matcher runs, nested walks may overwrite slots, and the outer walk stays consistent |
| Selector.Engine.SetOutcome | docs/htmldoc/javascripts/jquery.js:2145 | writing the shared array makes every slot that holds it right at once |
| Selector.Engine.RunAll | docs/htmldoc/javascripts/jquery.js:2155-2167 | a compound accepts exactly when each of its matchers does |
| Selector.SemStep | docs/htmldoc/javascripts/jquery.js:2131-2148 | what holds beyond a node follows from what holds at or beyond the next one |
| Selector.SoundFrame | docs/htmldoc/javascripts/jquery.js:2117-2152 | memory soundness of a matcher survives writes made under other names |
| Selector.SoundFresh | docs/htmldoc/javascripts/jquery.js:2359-2360 | when a new run starts, old slots cannot mislead it |
| Compiler.AddCombinator | docs/htmldoc/javascripts/jquery.js:2102-2105 | every walk gets a new name |
| Compiler.MatcherFromTokens | docs/htmldoc/javascripts/jquery.js:2292-2345 | the compiled matcher is well named, uses only fresh names, and accepts exactly the elements the left-to-right reading of the tokens selects |
| Compiler.CompiledMeaning | docs/htmldoc/javascripts/jquery.js:2292-2345 | for every tree, context and token list, compiled right-to-left matching agrees with left-to-right reading |
| Compiler.BuiltMeaning | docs/htmldoc/javascripts/jquery.js:2313-2342 | after every token the matcher built so far agrees with the reading so far |
| Compiler.BuiltNames | docs/htmldoc/javascripts/jquery.js:2102-2105 | names inside a walk are smaller than its own, and parts of a compound share none |
| Compiler.WalkReaches | docs/htmldoc/javascripts/jquery.js:2102-2152 | a walk whose inner matcher recognises a set steps along the combinator from that set |
| Compiler.FoundationMeaning | docs/htmldoc/javascripts/jquery.js:2299-2311 | the foundational matcher accepts the elements reachable from the context, or everything where the context check is skipped |
| Select.SuperMatcher | docs/htmldoc/javascripts/jquery.js:2347-2397 | the outermost loop appends, in order, exactly the elements some matcher accepts, carrying node memory from element to element |
| Select.MatchAny | docs/htmldoc/javascripts/jquery.js:2372-2379 | the first accepting matcher ends the search; all matchers stay sound |
| Select.Compile | docs/htmldoc/javascripts/jquery.js:2446-2474 | the group matchers have disjoint names and accept exactly the union of what the groups select |
| Select.PickSeed | docs/htmldoc/javascripts/jquery.js:2513-2541 | the seed is what the last compound's first lookup token finds below the context, and that token alone is removed; a combinator, or a selector that needs its context, prevents seeding |
| Select.SelectGroup | docs/htmldoc/javascripts/jquery.js:2492-2552 | one group, with id short cut and seeding: the selected elements in document order, each once, or nothing when leading siblings cannot be searched |
| Select.RunGroup | docs/htmldoc/javascripts/jquery.js:2513-2552 | the seeded, the exhausted and the unseeded run give the same answer |
| Select.SelectAll | docs/htmldoc/javascripts/jquery.js:2485-2553 | any number of groups: the part of the answer below the searched node, in document order, each element once; it is the whole answer if and only if every group that leads to siblings which cannot be searched selects nothing |
| Select.MissedIff | docs/htmldoc/javascripts/jquery.js:2543-2551 | searching below the outer scope gives the whole answer if and only if no group misses anything |
| Select.AnswerOrdered | docs/htmldoc/javascripts/jquery.js:2485-2553 | the answer is a set of elements listed strictly in preorder |
| Select.ServableAnswer | docs/htmldoc/javascripts/jquery.js:2545-2551 | searching only below the outer scope loses nothing unless leading siblings cannot be searched |
| Select.RemoveFilter | docs/htmldoc/javascripts/jquery.js:2529-2531 | within the last compound a filter may be read at the end instead of in its place |
| Select.SelectedRemoveFilter | docs/htmldoc/javascripts/jquery.js:2529-2531 | dropping a filter of the last compound and testing it on the candidates selects the same elements |
| Select.SeededRun | docs/htmldoc/javascripts/jquery.js:2513-2552 | an element is selected exactly when it is in the seed and the remaining tokens select it |
| Select.SeedSuffices | docs/htmldoc/javascripts/jquery.js:2529-2535 | when the seed is empty or no token remains, the seed is the answer |
| Select.UnseededRun | docs/htmldoc/javascripts/jquery.js:2543-2551 | without a seed, filtering everything below the outer scope gives the answer |
| Select.IdShortcut | docs/htmldoc/javascripts/jquery.js:2495-2511 | with unique ids, reading the rest of the tokens at the element with the id selects the same elements |
| Select.SelectedBelow | docs/htmldoc/javascripts/jquery.js:2550 | everything a selector selects is below its context, or below the context's parent if it starts with a sibling combinator |
| Select.SiblingsNotBelow | docs/htmldoc/javascripts/jquery.js:2550 | what a leading sibling combinator selects is never below the context |
| Select.FragmentSiblings | docs/htmldoc/javascripts/jquery.js:2550 | under a fragment "+ *" selects an element that no search below the context can reach |
| SetMatch.Condense | docs/htmldoc/javascripts/jquery.js:2178-2197 | condensing lists exactly the entries that are there and pass, in order, each with where it came from |
| SetMatch.Pick | docs/htmldoc/javascripts/jquery.js:1001-1017 | exactly the picked entries still there move from seed to matches, at their index |
| SetMatch.FilterOut | docs/htmldoc/javascripts/jquery.js:2199-2273 | a plain filter wrapped as a set matcher removes exactly the passing entries from its seed |
| SetMatch.Unmatch | docs/htmldoc/javascripts/jquery.js:2236-2248 | exactly the matches that fail the rest of the compound move back |
| SetMatch.Apply | docs/htmldoc/javascripts/jquery.js:2199-2275 | a whole set matcher moves exactly the entries picked among those passing what precedes it and passing what follows it; no index ends on both sides |
| SetMatch.MoveBack | docs/htmldoc/javascripts/jquery.js:2265-2273 | final matches reach the results at the seed index they came from |
| SetMatch.EarlierMatchSurvives | docs/htmldoc/javascripts/jquery.js:2220-2248 | an earlier match survives a later set matcher if and only if that one has something before its positional filter or accepts the match in what follows |
| SetMatch.NeverGivesBackIff | docs/htmldoc/javascripts/jquery.js:2220-2248 | a set matcher never gives back a match, whatever came before it, if and only if it has something before its positional filter or accepts everything in what follows |
| SetMatch.NoneLostIff | docs/htmldoc/javascripts/jquery.js:2402-2405 | over a whole list of set matchers no match is lost if and only if each of them has something before its positional filter or accepts every match it finds |
| SetMatch.MatchesStay | docs/htmldoc/javascripts/jquery.js:2402-2405 | then whatever is matched at some point stays matched to the end |
| SetMatch.LostMatch | docs/htmldoc/javascripts/jquery.js:2220-2248 | a concrete seed on which ":first.foo, :last" loses the match of ":last" |
| SetMatch.SuperMatcher | docs/htmldoc/javascripts/jquery.js:2347-2439 | on a seed of elements, each set matcher is applied in its turn to what the one before it left, the first to what the element matchers left; the results gain exactly the elements matched one way or the other, each once, in seed order; a single set matcher matches exactly the elements it chooses |
| SetMatch.ApplyAll | docs/htmldoc/javascripts/jquery.js:2402-2405 | from first to last, every set matcher is applied once to what the one before it left, and every index stays in exactly one place |
| SetMatch.EachAppliedIff | docs/htmldoc/javascripts/jquery.js:2402-2405 | two arrays come from applying the set matchers one after the other if and only if they are the ones computed by recursion over the list |
| SetMatch.OneSetMatcher | docs/htmldoc/javascripts/jquery.js:2199-2275 | a single set matcher starts from no matches, so what it matches is what it chooses |
| SetMatch.NothingToDo | docs/htmldoc/javascripts/jquery.js:2399-2401 | when every element is matched already the set matchers would change nothing, so not calling them is right |
| SetMatch.Reintegrate | docs/htmldoc/javascripts/jquery.js:2407-2422 | popping element matches back into their seed positions and condensing gives the matched elements in seed order |
| SetMatch.CondenseIsSelection | docs/htmldoc/javascripts/jquery.js:2417-2422 | condensing the reintegrated array selects exactly the matched seed elements |
| NthChild.CycleTestCorrect | docs/htmldoc/javascripts/jquery.js:1766-1768 | for all integers the remainder and quotient test holds exactly when the position is a*n + b for some n >= 0 |
| NthChild.SeekFrom | docs/htmldoc/javascripts/jquery.js:1723-1741 | the seek from a cached index ends, falls back at most once, and arrives at the element with its true position |
| NthChild.Seeker.SeekForward | docs/htmldoc/javascripts/jquery.js:1722-1741 | the position of :nth-child is right whatever was cached, and the new cache entry is right |
| NthChild.Seeker.SeekFromEnd | docs/htmldoc/javascripts/jquery.js:1743-1764 | the end-to-end walk and the per-element cache give the true position from that end |
| NthChild.Seeker.Nth | docs/htmldoc/javascripts/jquery.js:1684-1771 | the filter answers whether the position among the counted siblings is a*n + b, false without a parent |
| NthChild.Seeker.AskAll | docs/htmldoc/javascripts/jquery.js:1684-1771 | any sequence of queries in one run, in any order over any siblings, is answered correctly |
| NthChild.KidsAreElements | docs/htmldoc/javascripts/jquery.js:1725-1727 | the children counted for :nth-child are the elements |
| NthChild.CountIsSize | docs/htmldoc/javascripts/jquery.js:1722-1741 | counting them is taking the size of that set |
| NthChild.Seeker.StartRun | docs/htmldoc/javascripts/jquery.js:2360 | a new run number invalidates every old entry, on any tree |
| Callbacks.CallbackList.AddAll | docs/htmldoc/javascripts/jquery.js:3140-3169 | adding updates the variables as specified: appended unless unique and present, firingLength kept at the list length, memory replayed from the old end |
| Callbacks.CallbackList.InArray | docs/htmldoc/javascripts/jquery.js:428-448 | the first index at or after the start that holds the value, or -1 |
| Callbacks.CallbackList.RemoveAll | docs/htmldoc/javascripts/jquery.js:3171-3190 | removing drops every occurrence and lowers firingLength and firingIndex by exactly the occurrences at or before them |
| Callbacks.CallbackList.SpliceOut | docs/htmldoc/javascripts/jquery.js:3175-3186 | one splice with its index corrections |
| Callbacks.CallbackList.DisableList | docs/htmldoc/javascripts/jquery.js:3203-3206 | disabling forgets list, stack and memory |
| Callbacks.RemoveStep | docs/htmldoc/javascripts/jquery.js:3175-3186 | one turn of the removal loop leaves the rest of the removal to do |
| Callbacks.PushAllFirsts | docs/htmldoc/javascripts/jquery.js:3138-3152 | adding appends all new handlers in order; to a unique list only those not in it yet, each at its first occurrence |
| CallbackRuns.StepRefines | docs/htmldoc/javascripts/jquery.js:3111-3235 | every step, from outside or from a running handler, keeps firingLength equal to the list's length and does to the list what a plain queue of handlers still to be called does |
| CallbackRuns.RemoveWhileCalling | docs/htmldoc/javascripts/jquery.js:3178-3185 | after a removal during a fire the part of the list still to be called is the old one without the removed handler |
| CallbackRuns.EveryRunOrderly | docs/htmldoc/javascripts/jquery.js:3086-3247 | over every run requests start in request order, none lost (unless the list is locked or disabled) or repeated, handlers only see requested data, and a once list starts at most one |
| CallbackRuns.Play | docs/htmldoc/javascripts/jquery.js:3086-3247 | a list object driven by a program, by its handlers and by its loop goes through the states of the run, and calls its handlers |
| CallbackBatches.BatchExact | docs/htmldoc/javascripts/jquery.js:3111-3123 | during one fire, apart from removed handlers, those called followed by those still due are those due at the start followed by those added: none skipped, repeated or out of order |
| CallbackBatches.BatchConserves | docs/htmldoc/javascripts/jquery.js:3111-3190 | during one fire, removed handlers included, the calls made, those a removal took away and those still due are together the handlers due at the start and those added |
| CallbackBatches.FireIsExact | docs/htmldoc/javascripts/jquery.js:3111-3190 | both, for the list with its index arithmetic |
| CallbackBatches.RemovedIsNotDue | docs/htmldoc/javascripts/jquery.js:3171-3190 | a handler removed before its turn is not called |
| CallbackBatches.FireCallsAll | docs/htmldoc/javascripts/jquery.js:3109-3134 | firing a list at rest whose handlers leave it alone calls every handler once, in order, with the data, and comes to rest again |
| CallbackBatches.RunFollowsQueue | docs/htmldoc/javascripts/jquery.js:3111-3123 | the list with its index arithmetic calls exactly the handlers the plain queue calls, all with the data of the fire |
| DeferredRuns.EveryRunKeeps | docs/htmldoc/javascripts/jquery.js:3253-3337 | the invariant of state, lists and running handlers holds over every run |
| DeferredRuns.StepKeeps | docs/htmldoc/javascripts/jquery.js:3253-3337 | every call and every step of a firing loop keeps it |
| DeferredRuns.SettlesOnce | docs/htmldoc/javascripts/jquery.js:3253-3337 | the state leaves pending at most once; only handlers of the first settlement ever run, each once, in order, with its data, whenever added; all have run once nothing is firing |
| DeferredRuns.FirstSettlingRemembered | docs/htmldoc/javascripts/jquery.js:3319-3324 | the settlement in force is the first resolve or reject user code called |
| DeferredRuns.SettledForGood | docs/htmldoc/javascripts/jquery.js:3309-3317 | after the settlement resolve, reject and notify change nothing, wherever they are called from |
| DeferredCalls.FireAfterSettlement | docs/htmldoc/javascripts/jquery.js:3309-3324 | a settled deferred ignores resolve, reject and notify |
| DeferredRuns.ProgressFrozen | docs/htmldoc/javascripts/jquery.js:3309-3317 | after the settlement progress handlers see only the last notification started before it |
| DeferredCalls.SettleStarts | docs/htmldoc/javascripts/jquery.js:3302-3325 | the first resolve or reject is remembered and starts to fire its list: the three internal reactions, then the user handlers added so far; nothing has run or changed yet |
| DeferredNotes.NotifyStarts | docs/htmldoc/javascripts/jquery.js:3321-3324 | on an unsettled deferred whose progress list is at rest, notify starts to fire it from the first handler, with all handlers added so far and the data |
| DeferredNotes.NotifyQueues | docs/htmldoc/javascripts/jquery.js:3223-3235 | while a notification is going on, the next one goes to the end of the queue and nothing else happens |
| DeferredNotes.AddMoves | docs/htmldoc/javascripts/jquery.js:3157-3166 | a progress handler added during a notification joins it; one added at rest is called with the notification in force |
| DeferredNotes.NotifiesInOrder | docs/htmldoc/javascripts/jquery.js:3253-3337 | over every run, notifications start in the order they were requested, all but those waiting when the deferred is settled; each calls the progress handlers from the first on, once each and in order, with its data; once over, it has called at least those added before it was requested, and the latest one all of them |
| DeferredNotes.SettledNotes | docs/htmldoc/javascripts/jquery.js:3309-3317 | after the settlement no notification is accepted, and none that was waiting starts |
| DeferredNotes.DroppedNote | docs/htmldoc/javascripts/jquery.js:3209-3215 | a concrete run in which a notification that waits while the deferred is resolved never reaches its handler |
| DeferredNotes.LoopCalls | docs/htmldoc/javascripts/jquery.js:3111-3123 | a firing loop with user handlers left calls the next one, with the data of its fire |
| DeferredNotes.LoopEnds | docs/htmldoc/javascripts/jquery.js:3124-3134 | a firing loop with none left ends its fire, and a waiting notification starts at once |
| DeferredNotes.AddedRemembered | docs/htmldoc/javascripts/jquery.js:3253-3337 | the handlers of a list are those user code added to it, in order |
| DeferredCalls.SettleBegins | docs/htmldoc/javascripts/jquery.js:3302-3325 | and it keeps the invariant |
| Deferred.WinnerGrows | docs/htmldoc/javascripts/jquery.js:3157-3160 | a handler added while the winning list fires joins the batch |
| Deferred.WinnerReplays | docs/htmldoc/javascripts/jquery.js:3161-3166 | a handler added after the winning list fired runs at once with the remembered data |
| DeferredLoop.ReactsInOrder | docs/htmldoc/javascripts/jquery.js:3309-3317 | the internal reactions happen one after the other, each once: the state is set, the other list disabled, progress locked; no handler runs |
| DeferredLoop.ReactKeeps | docs/htmldoc/javascripts/jquery.js:3309-3317 | and each keeps the invariant |
| When.Join.Visit | docs/htmldoc/javascripts/jquery.js:3372-3381 | a turn of the loop: a plain value counts as delivered |
| When.Join.Deliver | docs/htmldoc/javascripts/jquery.js:3352-3363 | only the first settlement of a subordinate counts |
| When.Join.DeliverDone | docs/htmldoc/javascripts/jquery.js:3352-3363 | a value lands at its own index, and the last one outstanding resolves the master |
| When.Join.DeliverFail | docs/htmldoc/javascripts/jquery.js:3376 | one failure rejects the master if it is still waiting |
| When.Join.Outcome | docs/htmldoc/javascripts/jquery.js:3345-3387 | after the call has returned, the master is at any time what the settlements so far make it, and remaining counts those not yet resolved |
| When.JoinAll | docs/htmldoc/javascripts/jquery.js:3340-3390 | for any mix of values and deferreds, settled before or after in any order, the master is rejected with the first failure or resolved with every value at its index once all are in |
| When.HappenedRecorded | docs/htmldoc/javascripts/jquery.js:3345-3387 | of all settlements the first of each subordinate counts, and of the failures among those the earliest |
| When.EarlyInOrder | docs/htmldoc/javascripts/jquery.js:3372-3381 | settlements that are there at the start are seen in the order of the arguments |
| When.JoinFew | docs/htmldoc/javascripts/jquery.js:3340-3390 | no argument and a plain value resolve at once; a lone deferred is passed through |
| When.CollectedArgs | docs/htmldoc/javascripts/jquery.js:3356 | a single argument of a settlement is kept as it is, several as an array, and none is lost |
| When.SettleOne | docs/htmldoc/javascripts/jquery.js:3345-3360 | resolving one subordinate lowers the count of outstanding ones by one |
| DataIds.AllocatedConsistent | docs/htmldoc/javascripts/jquery.js:3707-3721 | allocating from the free list or the counter keeps ids unique, below the counter and disjoint from the free list |
| DataIds.ReleasedOwn | docs/htmldoc/javascripts/jquery.js:5693-5712 | freeing an element's own id keeps them so |
| DataIds.ReleasedConsistent | docs/htmldoc/javascripts/jquery.js:5693-5712 | the last block of the clean-up keeps the ids consistent if and only if the entry it finds is gone or still the element's own |
| DataHooks.CleanedConsistent | docs/htmldoc/javascripts/jquery.js:5674-5714 | after any hooks, a clean-up leaves the ids consistent if and only if the entry under the id read at the start is gone or still belongs to the element |
| DataHooks.OpsGood | docs/htmldoc/javascripts/jquery.js:4391-4462 | whatever programs and hooks do, to any elements and nested to any depth, the ids are sound as long as every clean-up ended on its own entry or on none |
| DataRuns.EveryRunGood | docs/htmldoc/javascripts/jquery.js:3681-3858 | so over every run from an empty store |
| DataHooks.TornDownSpares | docs/htmldoc/javascripts/jquery.js:4443-4451 | while a tear-down hook runs that spares the elements being cleaned, its element keeps its id and its events object |
| DataHooks.UnboundSpares | docs/htmldoc/javascripts/jquery.js:4443-4461 | removing the last type frees the element's id exactly once, and disturbs no tear-down in progress |
| DataHooks.CleanedSpares | docs/htmldoc/javascripts/jquery.js:5666-5716 | a clean-up whose hooks spare its element keeps the ids sound and ends with its id on the free list and on no element, whatever else the hooks clean |
| DataRuns.EveryRunSound | docs/htmldoc/javascripts/jquery.js:3681-3858 | over every run whose hooks spare the elements being cleaned no two elements share an id, and the free list has no repeats and nothing in use |
| DataRuns.LibraryHooksSpare | docs/htmldoc/javascripts/jquery.js:5063-5163 | the tear-down hooks of the library itself are of that kind, even when the document itself is being cleaned |
| DataOthers.OpsAvoid | docs/htmldoc/javascripts/jquery.js:5666-5716 | if every clean-up of a run ended well, an element the run never mentions keeps its id and its data |
| DataKeys.StoredHolds | docs/htmldoc/javascripts/jquery.js:3681-3748 | storing adds the one key to the element's own data; its other keys, its events object and its id stay |
| DataKeys.RemovedHolds | docs/htmldoc/javascripts/jquery.js:3771-3858 | removing takes exactly the keys it names; everything else stays under the same id, and the element loses its id if and only if nothing is left |
| DataKeys.RemovedFrees | docs/htmldoc/javascripts/jquery.js:3847-3849 | then, and only then, its id goes to the end of the free list |
| DataKeys.BoundHolds | docs/htmldoc/javascripts/jquery.js:4294-4380 | adding a handler gives the element an events object if it has none and its type if it is new, at the end; other types and all keys stay |
| DataKeys.UnboundHolds | docs/htmldoc/javascripts/jquery.js:4423-4461 | removing the handlers of a type leaves the other types in order and all keys; the last type takes the events object and the shared handler with it |
| DataKeys.OthersHold | docs/htmldoc/javascripts/jquery.js:3681-3858 | none of these touches what another element holds |
| DataKeys.OpsLeave | docs/htmldoc/javascripts/jquery.js:5666-5716 | over whole runs, hooks included, a key stays under the same id until it is removed or its element is cleaned, if every clean-up ended well |
| DataKeys.StoredStaysStored | docs/htmldoc/javascripts/jquery.js:3681-3858 | so what is stored is there at the end of every run that neither removes it nor cleans its element |
| DataRuns.HookMayBreakIds | docs/htmldoc/javascripts/jquery.js:5674-5714 | cleaning an element whose hook cleans it again and then stores data for another one leaves an id both free and in use |
| DataStores.DataStore.CleanData | docs/htmldoc/javascripts/jquery.js:5666-5716 | the loop over the events object and the last block do to the store what the specification says, hooks included; if the hooks spare the element, the store stays sound and the id ends on the free list |
| DataStores.DataStore.Store | docs/htmldoc/javascripts/jquery.js:3681-3748 | the same on the store: one key more, nothing else changed |
| DataStores.DataStore.Remove | docs/htmldoc/javascripts/jquery.js:3771-3858 | with the early return for public data left over: exactly what is named goes, and the id only with the last key |
| DataStores.DataStore.Run | docs/htmldoc/javascripts/jquery.js:3681-3858 | any program on the store; if hooks spare the elements being cleaned it stays sound, and every key that the program leaves alone is still held |
| Delegation.Handlers.Add | docs/htmldoc/javascripts/jquery.js:4375-4380 | a delegate goes behind the other delegates, a direct handler to the end; the first delegateCount handlers stay exactly those with a selector |
| Delegation.Handlers.Remove | docs/htmldoc/javascripts/jquery.js:4423-4441 | removal filters both parts, keeps their order, and keeps the count right |
| Delegation.SpliceKeeps | docs/htmldoc/javascripts/jquery.js:4432-4436 | splicing out one matching handler changes nothing about the handlers to keep |
| Delegation.Dispatch | docs/htmldoc/javascripts/jquery.js:4661-4708 | the queue with its selector memo is the specified one: delegates along the path, then the direct handlers once |
| Delegation.QueueOrder | docs/htmldoc/javascripts/jquery.js:4661-4708 | entries on the path come deepest first and the direct handlers after all of them; a click with another button runs the direct handlers alone |
| Delegation.QueueVisits | docs/htmldoc/javascripts/jquery.js:4670-4700 | for any other event, every delegate that matches an eligible node on the path is run there |
| Delegation.PathVisits | docs/htmldoc/javascripts/jquery.js:4670-4700 | the path part holds exactly the eligible nodes from the target up to but excluding the bound one that some delegate matches, each with all its matches in order, deepest first |
| Delegation.DelegatesAt | docs/htmldoc/javascripts/jquery.js:4679-4697 | asking each selector at most once per node gives the delegates that match it, in order |
| FxQueue.Fx.Queue | docs/htmldoc/javascripts/jquery.js:4025-4050 | a function is appended, and started if nothing is in progress |
| FxQueue.Fx.Next | docs/htmldoc/javascripts/jquery.js:3984-3986 | next starts the following function, or fires the empty hook |
| FxQueue.Fx.Dequeue | docs/htmldoc/javascripts/jquery.js:3977-4010 | dequeuing removes the sentinel, starts the next function behind a new one, and fires the empty hook only on an empty queue |
| FxQueue.Run | docs/htmldoc/javascripts/jquery.js:3957-4050 | in every run functions start in the order added, each once and as soon as all before have called next; the sentinel is at the head exactly while one runs; the empty hook fires each time the last one ends |
| ClassNames.AddClass | docs/htmldoc/javascripts/jquery.js:8283-8324 | the words afterwards are the old ones with the missing words appended, if and only if trimming is harmless to that list; no value changes nothing |
| ClassNames.RemoveClass | docs/htmldoc/javascripts/jquery.js:8326-8367 | the words afterwards are the old ones without any occurrence of the given words, if and only if trimming is harmless to that list; without an argument nothing is left |
| ClassNames.RemoveWord | docs/htmldoc/javascripts/jquery.js:8351-8354 | the inner loop ends and removes every occurrence of one word, keeping the others in order |
| ClassNames.HasClass | docs/htmldoc/javascripts/jquery.js:8415-8426 | true exactly when the name is one of the words; for a text with spaces, exactly when its pieces stand side by side |
| ClassNames.TokensMakeUp | docs/htmldoc/javascripts/jquery.js:8297 | the text is its tokens with white space around them and some between any two, so none is left out or cut |
| ClassNames.SpacedOccurs | docs/htmldoc/javascripts/jquery.js:8309 | a word is in the list exactly when its spaced form occurs in the fenced text |
| ClassNames.SpacedBlock | docs/htmldoc/javascripts/jquery.js:8420 | a spaced text occurs exactly where its pieces stand inside the pieces of the whole |
| ClassNames.TrimKeepsWords | docs/htmldoc/javascripts/jquery.js:404-408 | trimming keeps the words if and only if the first does not start and the last does not end with odd white space |
| ClassNames.OddSpaceLost | docs/htmldoc/javascripts/jquery.js:404-408 | a class name ending in a no-break space loses it |
| ClassNames.AddedWords | docs/htmldoc/javascripts/jquery.js:8306-8312 | adding keeps the old words in front, brings in exactly the missing ones, and doubles nothing |
| ClassNames.RemoveUndoesAdd | docs/htmldoc/javascripts/jquery.js:8348-8355 | removing the freshly added words restores the list |
| ClassNames.AddThenRemove | docs/htmldoc/javascripts/jquery.js:8283-8367 | on class strings, adding names and then removing the new ones restores the words if and only if trimming is harmless to them |
| ClassNames.TrimmedIsTrimmable | docs/htmldoc/javascripts/jquery.js:404-408 | what has been trimmed loses nothing by trimming again |
| Percent.EncodeRoundTrip | docs/htmldoc/javascripts/jquery.cookie.js:23-29 | decoding an encoded text gives the text |
| Percent.EncodeDefined | docs/htmldoc/javascripts/jquery.cookie.js:23-25 | encoding succeeds on exactly the texts without lone surrogates |
| Percent.EncodeInjective | docs/htmldoc/javascripts/jquery.cookie.js:23-25 | different keys have different encodings |
| Percent.EncodePlain | docs/htmldoc/javascripts/jquery.cookie.js:23-25 | encoded text holds no semicolon, equals sign, space or other special character, and is empty only for the empty text |
| Percent.EncodeNext | docs/htmldoc/javascripts/jquery.cookie.js:23-25 | unescaped characters are kept and any other code point becomes the escapes of its octets, one after the other |
| Percent.UnescapedSet | docs/htmldoc/javascripts/jquery.cookie.js:23-25 | the characters that are kept, spelled out |
| Percent.EscapeDigits | docs/htmldoc/javascripts/jquery.cookie.js:23-25 | an escape is a percent sign and two capital hexadecimal digits, high one first |
| Percent.Utf8RoundTrip | docs/htmldoc/javascripts/jquery.cookie.js:27-29 | the UTF-8 octets of every scalar value decode to it |
| Percent.DecodeGroup | docs/htmldoc/javascripts/jquery.cookie.js:27-29 | one escaped UTF-8 group decodes to its scalar value's code units |
| Cookie.JoinSplit | docs/htmldoc/javascripts/jquery.cookie.js:86-88 | splitting a text and joining the parts restores it |
| Cookie.SplitJoin | docs/htmldoc/javascripts/jquery.cookie.js:83 | splitting joined parts that do not contain the separator restores the parts |
| Cookie.Plugin.Write | docs/htmldoc/javascripts/jquery.cookie.js:59-74 | writing an encodable pair puts it in the jar under its encoded name, whatever attributes follow; anything else, or an empty key, leaves the jar alone |
| Cookie.Plugin.Read | docs/htmldoc/javascripts/jquery.cookie.js:76-102 | scanning document.cookie finds the first cookie whose name decodes to the key, and throws where a name before it cannot be decoded |
| Cookie.Plugin.Remove | docs/htmldoc/javascripts/jquery.cookie.js:107-115 | removal reports false for an absent key, and otherwise drops the cookie and reports whether the key now reads as nothing |
| Cookie.CookiesAreJar | docs/htmldoc/javascripts/jquery.cookie.js:83 | splitting document.cookie recovers exactly the cookies of the jar |
| Cookie.StorePlain | docs/htmldoc/javascripts/jquery.cookie.js:67-73 | the assigned text is parsed back into the pair that was written |
| Cookie.ParseEncoded | docs/htmldoc/javascripts/jquery.cookie.js:31-53 | parsing an encoded value gives the value |
| Cookie.QuotedSame | docs/htmldoc/javascripts/jquery.cookie.js:35-48 | a value in quotes with its quotes and backslashes escaped reads as the value would without |
| Cookie.PlusIsSpace | docs/htmldoc/javascripts/jquery.cookie.js:35-48 | a text whose spaces were written as pluses reads as the text, in quotes or without |
| Cookie.ReadAfterWrite | docs/htmldoc/javascripts/jquery.cookie.js:55-103 | every well-formed value written under a key reads back if and only if no cookie of others in front of the key's own place claims the key |
| Cookie.ReadBack | docs/htmldoc/javascripts/jquery.cookie.js:55-103 | what is read back, in either case |
| Cookie.ReadAfterRemove | docs/htmldoc/javascripts/jquery.cookie.js:107-115 | after removal the key is absent unless a cookie of others claims it; then that one is read |
| Cookie.OursUnclaimed | docs/htmldoc/javascripts/jquery.cookie.js:55-103 | in a jar of the plugin's own cookies nothing claims any key, so both round trips succeed |
| Cookie.StaysOurs | docs/htmldoc/javascripts/jquery.cookie.js:55-115 | writing and removing keep it such a jar |
| Cookie.OthersUnaffected | docs/htmldoc/javascripts/jquery.cookie.js:55-115 | writing or removing one key leaves the reading of every other key as it was, in any jar |
| Cookie.ShadowedWrite | docs/htmldoc/javascripts/jquery.cookie.js:85-94 | a concrete jar in which a written value is not read back |
| Failover.Cluster.OseFailover | bin/watch/start-watch.sh:63-97 | one round, whoever is still alive and with slaves arriving at any step: the first listed slave alone is triggered and ends behind the restored service, next to any old master, and all other listed slaves are gone; every moment is safe if and only if no pod accepted writes at its start or no slave was listed; without a listed slave the service stays hidden |
| Failover.Cluster.HandleSlaves | bin/watch/start-watch.sh:77-95 | the loop over the snapshot with its firstslave flag |
| Failover.Cluster.Promote | bin/watch/start-watch.sh:80-90 | trigger, relabel, restore: every moment is safe if and only if no pod accepts writes before the trigger |
| Failover.Cluster.TakeSnapshot | bin/watch/start-watch.sh:70-76 | the service is saved and hidden before the slaves are listed; nothing becomes writable |
| Failover.Cluster.DeleteOld | bin/watch/start-watch.sh:91-94 | a further listed slave is deleted and nothing else changes hands |
| Failover.Cluster.Trigger | bin/watch/start-watch.sh:84 | promoting, with nothing checked, is safe if and only if no pod accepts writes |
| Failover.Cluster.CreateService | bin/watch/start-watch.sh:90 | the saved service comes back when every promoted pod carries the master label |
| Failover.Cluster.Watch | bin/watch/start-watch.sh:99-109 | over any sequence of arrivals, deaths and polls that may answer anything, each event makes its turn: a poll that reaches the master changes nothing, a failing one is followed by a round that promotes one slave or, finding none, loses the service; every moment is safe if and only if each promotion starts when no pod accepts writes, which is so when polls are right and the service is never lost; the service leads to exactly the pods that accept writes |
| Failover.Cluster.TakeTurn | bin/watch/start-watch.sh:99-109 | one event of the loop, and whether it adds an unsafe moment |
| Failover.FailingPoll | bin/watch/start-watch.sh:63-109 | after a failing poll exactly one slave that was not triggered before is triggered and a master, and the service is the one there was; only if there was no slave is nothing promoted, and then the service is gone |
| Failover.SucceedingPoll | bin/watch/start-watch.sh:99-104 | a poll that reaches the master changes nothing |
| Failover.LostService | bin/watch/start-watch.sh:70-90 | once the service is lost, a right poll fails whatever the master does, and the next round makes a second writer |
| Failover.TriggerSafeIff | bin/watch/start-watch.sh:84 | promoting a slave is safe if and only if no pod accepts writes |
| Failover.StaysSafe | bin/watch/start-watch.sh:63-97 | a change that makes no pod writable and exposes none is safe |
| Failover.HarmlessStep | bin/watch/start-watch.sh:63-97 | such a step adds no unsafe moment to a history |

## Left out

- The Go programs (`collectapi`, `dbaapi`, `vacuumapi`, `dnsbridge`, `badger` and the others): SQL, HTTP, Docker and Consul plumbing whose branches are easy.
- The other shell scripts, Dockerfiles, templates and the page scripts beside jQuery: provisioning and user interface.
- In jQuery: AJAX, CSS, effects arithmetic, HTML parsing and cloning, browser feature tests, native `querySelectorAll`, `matches` and `compareDocumentPosition`, IE `sourceIndex`, XML mode.
- Sizzle's regular expressions: `Tokenizer` works for any table of prefix matchers that match at least one character, and a filter is any predicate on nodes. In `Select` the two regular expressions run on selector text appear as "the first token is a combinator other than descendant" and "some token is a sibling combinator", with flags for text that only looks like it.
- `:not`, `:has` and the other pseudos that run a nested selector, and the fractional `dirruns` such runs use.
- Positional groups without a seed or followed by a combinator (`postFinder`), and seeds with falsy entries; the index functions of `:first`, `:eq` and the others are any function of the length.
- `:first-child`, `:last-child` and `:only-child`, which keep no state.
- Comparing nodes of different trees, and the sorting algorithm of the JavaScript engine: an insertion sort that calls the comparator stands for it.
- The cache of compiled selectors, which holds what compiling gives.
- Uniqueness of ids is assumed where an id lookup is used (`Select.UniqueIds`), as `getElementById` demands.
- `empty()` on a callback list, and a fire that a handler stops by returning false.
- Handlers that throw, and `then`, `pipe`, `always` and `promise()`, which add no state of their own.
- DeferredRuns.StepKeeps: the deferred is a machine on values, not an object, because its handlers re-enter it at every step; aliasing of its lists is not modelled.
- When.JoinAll: `notify` through `when`, and the contexts handed to handlers, are not modelled.
- Data of plain JavaScript objects, the values of data entries, and camel-casing of their names.
- Set-up hooks of special events, and types added to an events object while a clean-up loops over it: the loop visits the types there at its start.
- Storing private data under the key that holds the events.
- Delegation.Handlers.Remove: the parsing of event types and namespaces is an arbitrary test; the hooks of special event types are not called.
- Queues other than fx, replacing a queue by an array, `clearQueue`, `stop` and `delay`.
- `toggleClass`, callbacks as class values, elements that are not elements, and several elements at a time; the class attribute of one element is what is edited.
- The cookie plugin's raw and json modes, converters, reading all cookies at once, and the printing of dates: an assignment is either expired or not. Path, domain and secure attributes are text that does not split the jar.
- Cookie.Plugin.Read: the jar's names and values hold no semicolon and its names are distinct and hold no equals sign, as section 5.2 of RFC 6265 makes them for one path.
- In the watcher: real time, login, the standalone branch, and failing commands, except that without a saved service restoring it does nothing.
- Failover.Cluster.OseFailover: pods do not die between the commands of one round, as the script expects of its slaves; slaves may arrive at any step.
