# foma's finite-state engine, modelled and proved in Dafny

foma stores an automaton or transducer as an array of lines (state, input, output, target,
final, start). Its algorithms rewrite such arrays in place, or rebuild them through a worklist,
a hash of states and a line-by-line builder. Every one of them has to keep an exact language of
pair strings, or an exact relation between strings. This project models those algorithms loop by
loop, with their stamps, hash tables, cursors and stacks, and proves them against definitions of
acceptance that know nothing about how the algorithms work.

## How the project is organised

`Automata` holds the reference definitions: a `Machine` is an abstract transition system,
`Accepts` and `Relates` say which pair strings and which string pairs it denotes, `AcceptsErased`
reads a word up to 0:0 pairs, and `MachineOf` reads a machine off an array of lines. `Renames`
says that a net is the part of a machine that numbered states span; every worklist construction
ends in it, and `RenamingKeepsLanguage` turns it into a statement about words.

| files | what they model |
|---|---|
| `OpenAlphabet`, `OpenMachines`, `OpenLanguage` | what a net denotes over the open alphabet, where `?` and `@` stand for unlisted symbols |
| `TripletHash`, `NetBuilder`, `NetReading`, `Worklist`, `ProductBuilder` | the triplet hash, the builder with its stamps, the state pointers, and the invariants of every worklist |
| `Intersect`, `Composition`, `ComposedWords`, `OpenComposition`, `OpenFilters`, `Compose`, `Minus`, `Equivalence`, `Completion` | the product constructions, the equivalence test, completion and complement |
| `SigmaMerge`, `SigmaExpansion`, `WidenedArcs`, `MergeSigma` | merging two alphabets and expanding wildcards, against the meaning over the open alphabet |
| `Trimming`, `Coaccessible`, `Products` | the in-place removal of dead states, and the two products that end with it |
| `MergedNets`, `ComposeNets`, `BooleanNets` | composition, intersection, subtraction and the equivalence test from two nets with alphabets of their own, and complement, over the open alphabet |
| `Subsets`, `SetTable`, `TransitionLists`, `EpsilonClosure`, `SubsetBuilder`, `Determinize` | subset construction: memoised closures, the per-symbol sweep, the table of state sets |
| `Reversal`, `Reverse`, `NearMinimality` | reversal through read and construct handles, and what determinizing a reversal gives |
| `Alignment`, `Lexicon`, `LexiconEntry`, `LexiconMerge` | the lexicon compiler: aligning the two sides of an entry, the trie, merging suffixes |
| `Sigmatch`, `LookupPaths`, `LookupOrder`, `LookupMeaning`, `Lookup`, `WordLookup` | lookup: cutting the input into symbols, what a path reads and writes and means, the order of the search, the search itself |
| `ArcSearch`, `LookupSearch`, `Flags` | the three arc searches, flag checking at run time and as filters |
| `Counting`, `Chains`, `Primes`, `Wrappers` | finite sets and counts, bucket chains with a cell in place, the prime table, optional values |

## What the proofs show about the code

- `fsm_compose` is sound over the open alphabet, from two nets with alphabets of their own through
  alphabet merging, expansion, the product and trimming: whatever the result relates, the nets
  link (`NetComposition.ComposeNets`). It may relate too little. An arc ?:? stands for pairs of
  different symbols (as such `fsm_merge_sigma` expands it), and two arcs such as ?:a and a:? combine
  to ?:? although they also link every unlisted symbol to itself (`OpenComposition.DiagonalCounts`).
  Arc for arc, the product means the composition of what the nets mean exactly when both nets have
  an arc @:@ beside every such pair (`OpenComposition.OpeningCommutes`), and then the relations
  agree. The condition can be read off the two nets as they come, before their alphabets are merged
  (`NetComposition.KeepsMerged`).
- The two epsilon filters of `fsm_compose` denote one relation letter by letter, for any two nets
  (`Composition.FiltersAgree`). Over the open alphabet the tristate product relates nothing that the
  bistate one does not, and as much if beside arcs ?:0 and 0:? both nets have an arc @:@
  (`OpenFilters.FiltersOpenly`); that is exactly when the one arc ?:? which replaces the two, with
  whatever is beside it, means all that they mean (`OpenFilters.SilentPairsExactly`). Otherwise the
  tristate product may lose pairs of equal symbols (`OpenComposition.FiltersPart`).
- The filters spell that relation differently: beside each other, x:0 and 0:y become x:y under the
  tristate filter and x:0 0:y under the bistate one. For either, the net accepts exactly the strings
  woven in its way from two accepted paths that match (`ComposedWords.ComposedAccepts`,
  `Composing.Compose`).
- Lookup answers each path once and in the order of line numbers. Whatever the net, an exhausted
  search has answered every accepting path that never comes back to a state without reading on
  (`Lookup.ApplyHandle.ApplyNet`): the visit marks forbid no step of such a path. In a net without
  circles of arcs that consume nothing these are all paths, and the strings printed for a word, if
  the net has no flags and the limit is not reached, are all that the net relates it to over the open
  alphabet (`WordLookup.ApplyDownWord`). The marks do
  cut arcs that lead from a state to itself and consume nothing: no two are taken in a row, so that
  nets with no other such circles are searched to an end.
- A symbol with a combining mark after it is looked up as unlisted even where the symbol alone is
  listed. That is no loss: had symbol and marks together been listed, they would have been the
  longer match (`SymbolMatching.CreateSigmatch`).
- Composition sizes the rows of its index for a lower net without two arcs on one symbol pair.
  Minimization gives such a net, and alphabet merging, which runs after it, keeps the arcs apart
  (`WidenedArcs.ExpansionKeepsApart`, `Composing.RowFits`).
- `fsm_equivalent` compares arcs, not continuations. It answers "equivalent" exactly when the two
  nets accept the same words and can also walk the same words, accepted or not
  (`Equivalence.Equivalent`). For nets in which every arc leads to an accepting continuation, as in
  minimized ones, that is equality of languages; for others it is not
  (`Equivalence.DeadEndsTellApart`).
- `fsm_coaccessible` reads line i-1 after it may have overwritten it. That is harmless not only for
  nets in ascending state order but for every order in which a smaller state comes first or is
  the target of a state with two lines (`Automata.Orderly`); nets built by the last-in-first-out
  worklists are in such an order, so the products may be trimmed as they are.
- `lexc_medpad` spares an entry that is empty on both sides but not one written with explicit
  EPSILON only: that entry is aligned to the empty word, for which `lexc_add_word` adds no arc, so
  it disappears (`Alignment.AlignedToNothing`, `LexiconEntries.AddEntry`).
- In `flag_eliminate`, filters and run-time checking agree on all words exactly when three
  conditions on the list of flags hold (`Flags.FiltersAgreeExactly`, for well-written flags of every
  type). Every R flag needs another flag that can make it fail or succeed: without one it gets no
  filter, though it always fails at run time (`Flags.PartnerlessPasses`). No N flag may stand
  between a U or D flag and what decides it: after N the feature is only known not to have one
  value, which the filters forget (`Flags.UnifyClashDisagrees`, `Flags.DisallowClashDisagrees`).
  And no E flag may be able to fail, since E flags get no filter (`Flags.EqualDisagrees`).
- In `fsm_merge_sigma` a net's wildcards go unnoticed when the other list has already ended. This
  never matters: the other net then has no ordinary symbol to expand to
  (`SigmaMerging.FlagTaken`, `AlphabetMerging.NotExpanded`).
- The branch of `lexc_merge_states` that would remove the head of the state list (it assigns the
  removed cell itself) is never taken: the newest state is never merged away
  (`LexiconMerging.NewestLive`).

## Model

| member | source | states |
|---|---|---|
| TripletHashing.TripletHash.Insert | back-ends/foma/constructions.c:339-360 | a triple not yet stored gets the next dense key 0, 1, 2, ...; all others keep theirs, also across the doubling at half load |
| TripletHashing.TripletHash.InsertWithKey | back-ends/foma/constructions.c:320-337 | the first free slot of the probe sequence takes the entry under the given key, and everything stored can still be found |
| TripletHashing.TripletHash.Rehash | back-ends/foma/constructions.c:362-380 | doubling the table keeps every triple under its key |
| TripletHashing.TripletHash.Find | back-ends/foma/constructions.c:382-398 | the key of a stored triple, -1 for every other; the probe loop terminates |
| TripletHashing.NotBeyondGap | back-ends/foma/constructions.c:382-398 | a free slot on the probe path proves that the triple is not stored |
| TripletHashing.NeverFull | back-ends/foma/constructions.c:325-336 | a table holding fewer keys than slots has a free slot, so probing for one ends |
| NetBuilding.NetBuilder.AddArc | back-ends/foma/dynarray.c:98-146 | exactly one line is added, unless the arc is a 0:0 self loop or leads where the newest arc of the state with its symbols leads; either way the arc is there afterwards, and the stamp table still mirrors the current state |
| NetBuilding.NetBuilder.EndState | back-ends/foma/dynarray.c:90-96 | closing a state adds its arcless line if it has no arc, and changes no arc |
| NetBuilding.NetBuilder.Close | back-ends/foma/dynarray.c:148-170 | lines of one state are contiguous and agree on their flags; the net is deterministic whenever the flag says so |
| NetBuilding.KnownDeterministic | back-ends/foma/dynarray.c:114-127 | what the stamped duplicate detection establishes is determinism of the net |
| NetReading.InitStatePointers | back-ends/foma/constructions.c:248-277 | for each state, its flags and the index of its first line |
| ProductBuilding.ProductBuilder.Visit | back-ends/foma/constructions.c:729-733 | a product state keeps its number once discovered; a new one gets the next number and waits on the stack |
| ProductBuilding.ProductBuilder.Close | back-ends/foma/constructions.c:827-840 | when the stack is empty the net is the product machine restricted to what was discovered and renumbered, its lines well formed and in worklist order |
| Worklist.ProductRenamed | back-ends/foma/constructions.c:652-836 | a worklist that finished all its states has renamed the product machine: all arcs of reached states are there and nothing else |
| Automata.RenamingKeepsLanguage | back-ends/foma/constructions.c:652-836 | numbering states in order of discovery keeps words and relation, though 0:0 self loops are dropped |
| Intersection.IndexState | back-ends/foma/constructions.c:455-468 | after a round the stamped table holds exactly the arcs of the current state of the second net, none from an earlier round |
| Intersection.ParallelLanguage | back-ends/foma/constructions.c:400-501 | two machines run in parallel accept exactly the common words |
| Intersection.Intersect | back-ends/foma/constructions.c:400-498 | the untrimmed result accepts a word iff both nets do, and is well formed |
| Products.FsmIntersect | back-ends/foma/constructions.c:400-501 | the trimmed result accepts exactly the common words, from coaccessible states only |
| Composition.UniqueInterleaving | back-ends/foma/constructions.c:512-533 | two paths that agree on the middle tape have exactly one legal sequence of moves through the modes, in either variant; paths that disagree have none |
| Composition.SpelledTapes | back-ends/foma/constructions.c:504-510 | a legal interleaving has the input tape of the first path and the output tape of the second |
| Composition.ComposedRelation | back-ends/foma/constructions.c:503-841 | letter by letter and for any two nets, the product relates exactly what two accepted paths make whose middle symbols match one by one, @ turning into ? where it meets ? |
| Composition.ClashFreeRelation | back-ends/foma/constructions.c:503-841 | unless an output ? meets an input @ (or the other way round), the product relates x to z iff some y is between them |
| Composition.FiltersAgree | back-ends/foma/constructions.c:529-533 | the bistate and the tristate filter denote the same relation letter by letter, for any two nets |
| ComposedWords.ComposedAccepts | back-ends/foma/constructions.c:503-841 | for any two nets, the product accepts exactly the pair strings woven from two accepted paths that match in the middle; the weaving, not the paths, depends on the filter |
| ComposedWords.WeavesCanonically | back-ends/foma/constructions.c:512-533 | unless an output ? meets an input @ (or the other way round), these are the symbol pairs along the one legal sequence of moves of two paths that agree on the middle tape |
| ComposedWords.FiltersSpell | back-ends/foma/constructions.c:714-737 | a:0 beside 0:b is woven to the one pair a:b by the tristate filter and to the two pairs a:0 0:b by the bistate one |
| Composing.RowFits | back-ends/foma/constructions.c:630-638 | a row of the lookup index, which UNKNOWN and IDENTITY share, never needs more than max2sigma+2 cells |
| Composing.AppendToRow | back-ends/foma/constructions.c:673-686 | appending to a row keeps what the row lists this round and touches no other row |
| Composing.IndexState | back-ends/foma/constructions.c:668-687 | each row lists exactly the arcs of the current state of the second net with that input, none stale |
| Composing.ScanRow | back-ends/foma/constructions.c:699-739 | every pair of a first arc and a matching second arc gets its target state and its arc |
| Composing.Compose | back-ends/foma/constructions.c:503-836 | up to 0:0 pairs the net accepts exactly the pair strings that the chosen filter weaves from two accepted paths that match in the middle; letter by letter it relates exactly what two such paths make; under any shared alphabet it relates only what the two nets link, and all of it if no diagonal is lost |
| Products.FsmCompose | back-ends/foma/constructions.c:503-841 | the same pair strings and relations after trimming, from coaccessible states only |
| OpenComposition.MatchOpens | back-ends/foma/constructions.c:704-737 | what a combined arc means is meant by the two arcs with a common middle, also where ? meets @ |
| OpenComposition.OpensMatch | back-ends/foma/constructions.c:704-737 | two arcs whose meanings have a common middle are combined, and lose at most the pairs of equal symbols when they combine to ?:? |
| OpenComposition.OpeningCommutes | back-ends/foma/constructions.c:652-826 | the product means, arc for arc, the composition of what the nets mean over the open alphabet iff both nets have an arc @:@ wherever two arcs combine to ?:? without one |
| OpenComposition.ComposedOpenly | back-ends/foma/constructions.c:503-841 | the product relates only strings that the nets link over the open alphabet, and all such strings if no diagonal is lost |
| OpenComposition.DiagonalCounts | back-ends/foma/constructions.c:704-737 | ?:a composed with a:? relates no symbol to itself, though the nets link b to b |
| OpenComposition.FiltersPart | back-ends/foma/constructions.c:714-737 | ?:0 composed with 0:? relates b to itself under the bistate filter and not under the tristate one |
| OpenFilters.FiltersOpenly | back-ends/foma/constructions.c:714-737 | over the open alphabet the tristate product relates only what the bistate one does, and all of it if beside arcs ?:0 and 0:? both nets have an arc @:@ |
| OpenFilters.SilentPairsExactly | back-ends/foma/constructions.c:725-737 | the tristate arcs mean all that an arc x:0 and then an arc 0:y mean iff beside arcs ?:0 and 0:? both nets have an arc @:@ |
| NetComposition.KeepsMerged | back-ends/foma/constructions.c:558-603 | no diagonal is lost between the merged nets iff both nets have, as they come, an arc @:@ wherever arcs ?:n and k:? may meet |
| NetComposition.ComposeNets | back-ends/foma/constructions.c:558-841 | from two nets with their own alphabets: the trimmed result relates, under the merged alphabet, only what the nets link under their own, and all of it if both nets have an arc @:@ wherever arcs ?:n and k:? of theirs may meet |
| BooleanNets.IntersectNets | back-ends/foma/constructions.c:400-501 | from two nets with their own alphabets: over the open alphabet the trimmed result accepts exactly what both accept |
| BooleanNets.SubtractNets | back-ends/foma/constructions.c:2167-2265 | from two nets with their own alphabets: over the open alphabet the result accepts exactly what the first accepts and the second does not |
| BooleanNets.EquivalentNets | back-ends/foma/constructions.c:2082-2164 | from two nets with their own alphabets: "equivalent" iff over the open alphabet they accept the same words and can walk the same words |
| Subtraction.MinusLanguage | back-ends/foma/constructions.c:2167-2265 | a machine that follows the second net while it lives and forgets it when it dies accepts A minus B |
| Subtraction.Subtract | back-ends/foma/constructions.c:2167-2262 | the result before minimization accepts w iff the first net does and the second does not, also after the second has died |
| Equivalence.BisimilarAccept | back-ends/foma/constructions.c:2107-2155 | pairs that all pass the test accept the same words |
| Equivalence.MismatchSeparates | back-ends/foma/constructions.c:2112-2154 | a failing pair gives a word that only one net accepts, if neither has dead ends |
| Equivalence.MismatchShows | back-ends/foma/constructions.c:2112-2154 | a failing pair gives a word that only one of the nets accepts, or that only one can walk |
| Equivalence.DeadEndsTellApart | back-ends/foma/constructions.c:2112-2154 | two nets that both accept nothing, one of them with an arc to a dead end: equal languages that the test tells apart |
| Equivalence.Equivalent | back-ends/foma/constructions.c:2082-2164 | the loop terminates, and the answer is "equivalent" iff the nets accept the same words and can walk the same words; without dead ends that is language equality |
| Completion.CountMeansComplete | back-ends/foma/constructions.c:1468-1488 | as many arcs as states times symbols means that no state lacks any symbol |
| Completion.ChooseSink | back-ends/foma/constructions.c:1490-1509 | an existing sink is reused or one is invented, with the finality the operation needs |
| Completion.CopyArcs | back-ends/foma/constructions.c:1526-1530 | the table holds the target of every arc and nothing else |
| Completion.LeadToSink | back-ends/foma/constructions.c:1531-1541 | every cell is an original target or the sink |
| Completion.CompletedAccepts | back-ends/foma/constructions.c:1490-1568 | from every old state, completion keeps what is accepted and complement swaps it over the alphabet |
| Completion.CompletionLanguage | back-ends/foma/constructions.c:1571-1577 | completion keeps the language; complement accepts exactly the rejected words over the alphabet |
| Completion.ToggledLanguage | back-ends/foma/constructions.c:1468-1488 | swapping finality of an already complete net is complement |
| Completion.CompleteNet | back-ends/foma/constructions.c:1403-1570 | exactly one arc per state and symbol, and the right language, on all three paths: shortcut, sink reused, sink invented |
| BooleanNets.CompletedOpenly | back-ends/foma/constructions.c:1403-1577 | over the open alphabet completion changes nothing, and complement accepts exactly the words that read every symbol as itself and that the net rejects |
| SigmaMerging.AddedHalfway | back-ends/foma/constructions.c:843-865 | one step of the merge keeps the marks of every entry right, misses no symbol taken so far and stays ahead of those to come |
| AlphabetMerging.NotExpanded | back-ends/foma/constructions.c:1040-1040 | a net that is not expanded, because its wildcards went unnoticed or the alphabets are equal, already holds the lines that expansion would write |
| SigmaMerging.MergeLists | back-ends/foma/constructions.c:928-1008 | the merged list has exactly the symbols of the two lists, each marked with the nets that have it, specials first and the others sorted; both mappings send each old number to the new number of the same symbol |
| SigmaMerging.MergedSigmaOk | back-ends/foma/constructions.c:843-865 | the merged list is again sorted with rising numbers |
| OpenAlphabet.SameMovesSameRelation | back-ends/foma/constructions.c:1038-1213 | nets that make the same moves, each under its own alphabet, denote the same relation over the open alphabet |
| SigmaExpansion.InWidening | back-ends/foma/constructions.c:1061-1115 | the loops write exactly the labels that should replace a wildcard arc: u:u for @:@, all distinct pairs for ?:?, one side for ?:x and x:? |
| SigmaExpansion.WidenForth | back-ends/foma/constructions.c:1061-1115 | every meaning of the old arc over the open alphabet is a meaning of some replacing arc over the merged alphabet |
| SigmaExpansion.WidenBack | back-ends/foma/constructions.c:1061-1115 | no replacing arc means anything that the old arc did not |
| SigmaExpansion.ExpansionKeepsMeaning | back-ends/foma/constructions.c:1038-1126 | the expanded net under the merged alphabet denotes the relation of the old net under its own |
| SigmaExpansion.ExpandedWellFormed | back-ends/foma/constructions.c:1061-1126 | states stay contiguous, flags agree and arcs stay in range after expansion |
| WidenedArcs.ExpansionKeepsApart | back-ends/foma/constructions.c:1010-1126 | if no state has two arcs with one symbol pair, none has after renumbering and expansion |
| AlphabetMerging.WideLinesFit | back-ends/foma/constructions.c:1043-1060 | the lines written never exceed the net_adds + net_lines counted ahead |
| AlphabetMerging.Expand | back-ends/foma/constructions.c:1040-1126 | writing stays inside the allocated array, which ends with the sentinel after all expanded lines |
| AlphabetMerging.Renumber | back-ends/foma/constructions.c:1010-1025 | every ordinary symbol number is replaced in place by its mapping |
| AlphabetMerging.MergedAlphabet | back-ends/foma/constructions.c:928-1037 | the shared alphabet is the union of the two, numbered consecutively from 3 |
| AlphabetMerging.FsmMergeSigma | back-ends/foma/constructions.c:890-1224 | both nets keep their relation over the open alphabet, their start states and the distinctness of their arcs, and share one alphabet, the union of the two, numbered from 3 without gaps |
| Coaccessibility.BuildInverses | back-ends/foma/coaccessible.c:51-65 | each chain lists the other states with an arc to that state |
| Coaccessibility.Mark | back-ends/foma/coaccessible.c:67-96 | exactly the coaccessible states are marked, and the early exit means that all are |
| Coaccessibility.BuildMapping | back-ends/foma/coaccessible.c:99-107 | surviving states are numbered densely in their old order |
| Trimming.OutputBound | back-ends/foma/coaccessible.c:109-134 | the write index never passes the read index, counting the line owed to a final state |
| Trimming.Coincide | back-ends/foma/coaccessible.c:109-115 | when the write index has caught up, the line just overwritten still has its state number and flags, so comparing with line i-1 is right |
| Coaccessibility.CompactLine | back-ends/foma/coaccessible.c:109-134 | one round of the in-place loop: the written prefix is the trimmed prefix, the unread suffix is untouched |
| Coaccessibility.Compact | back-ends/foma/coaccessible.c:109-146 | the array ends up holding the trimmed net and its sentinel |
| Trimming.RestrictionKeepsLanguage | back-ends/foma/coaccessible.c:78-140 | cutting the states that no accepting path visits keeps the language, and every residual language |
| Trimming.TrimRestricts | back-ends/foma/coaccessible.c:109-140 | the compacted lines are the old machine restricted to the survivors and renumbered |
| Coaccessibility.CoaccessibleInPlace | back-ends/foma/coaccessible.c:28-157 | the language is kept; the result is the old machine restricted to its coaccessible states and renumbered densely in their old order, with its number of lines, arcs and states; a net without dead states keeps its lines and counts, and the empty language gives the one-state net |
| SetNumbering.HashPermute | back-ends/foma/determinize.c:748-759 | the hash of a state list, modulo 2^32 and the table size, does not depend on the order of the list |
| SetNumbering.StampedMeansEqual | back-ends/foma/determinize.c:704-746 | for duplicate-free lists, equal size and all members stamped is equality as sets |
| SetNumbering.InChain | back-ends/foma/determinize.c:704-746 | a stored set equal to the given list is in the chain searched |
| SetNumbering.SetTable.FindInsert | back-ends/foma/determinize.c:704-746 | two lookups return the same number iff the lists are equal as sets; a new set gets the next number |
| SetNumbering.SetTable.Rebuild | back-ends/foma/determinize.c:808-847 | moving to the next prime size keeps the number of every set |
| TransitionLists.NumberPairs | back-ends/foma/determinize.c:641-697 | symbol pairs on arcs are numbered one to one, and the 0:0 pair is recognised |
| TransitionLists.InitTransitions | back-ends/foma/determinize.c:386-436 | each state gets its visible arcs sorted by pair; "deterministic" means that no state has two arcs on a pair |
| TransitionLists.StrictMeansDeterministic | back-ends/foma/determinize.c:185-199 | the early return fires only for nets that are deterministic |
| EpsilonClosures.MemoizeClosure | back-ends/foma/determinize.c:560-615 | the memo lists, for each state, exactly the other states one 0:0 arc away |
| EpsilonClosures.EClosure | back-ends/foma/determinize.c:440-497 | the collected list is extended, without repetition, to exactly its closure under 0:0 arcs |
| Subsets.SubsetReads | back-ends/foma/determinize.c:226-317 | the set reached over v holds exactly the states that the net reaches over v with 0:0 pairs mixed in |
| Subsets.SubsetLanguage | back-ends/foma/determinize.c:226-317 | the machine of closed state sets accepts exactly the words that the net accepts up to 0:0 pairs |
| Determinization.InitialStates | back-ends/foma/determinize.c:526-558 | the start set is collected without repetition and the final states are noted |
| Determinization.Prepare | back-ends/foma/determinize.c:233-248 | all tails are reset and the smallest pair leaving the set is found |
| Determinization.SweepState | back-ends/foma/determinize.c:262-287 | the merge sweep collects exactly the targets of one state on the current pair and moves its tail past them |
| Determinization.Sweep | back-ends/foma/determinize.c:257-295 | over the whole set: exactly the targets on the current pair, and the next pair in order, none skipped |
| Determinization.BuildSymbol | back-ends/foma/determinize.c:257-302 | one pair: the arc to the closure of the targets is emitted, and everything before the next pair is done |
| SubsetBuilding.SubsetBuilder.Visit | back-ends/foma/determinize.c:493-524 | an equal set keeps its number, a new set is numbered and waits to be built |
| SubsetBuilding.SubsetBuilder.Close | back-ends/foma/determinize.c:317-334 | when the stack is empty the net is the subset machine, its sets numbered densely, with well-formed lines |
| Determinization.SubsetsRenamed | back-ends/foma/determinize.c:166-335 | such a net is deterministic and accepts the words of the original up to 0:0 pairs |
| Determinization.Determinize | back-ends/foma/determinize.c:166-335 | the result is deterministic, without 0:0 arcs, and accepts exactly the words of the net up to 0:0 pairs, on both early returns too |
| Reversing.ReadHandle.NextArc | back-ends/foma/dynarray.c:590-611 | the cursor visits every line with an arc, in order, and skips only arcless ones |
| Reversing.ConstructHandle.AddArcNums | back-ends/foma/dynarray.c:276-297 | the net under construction gains exactly this arc |
| Reversing.ConstructHandle.SetFinal | back-ends/foma/dynarray.c:213-225 | the net under construction gains exactly this final state |
| Reversing.ConstructHandle.SetInitial | back-ends/foma/dynarray.c:227-237 | the net under construction gains exactly this start state |
| Reversing.ConstructDone | back-ends/foma/dynarray.c:425-490 | the finished lines are the collected entries; a net without a start or final state becomes the empty net |
| Reversal.ReversedReads | back-ends/foma/reverse.c:30-44 | a path of the net, read backward and shifted by one, is a path of the reversed machine |
| Reversal.ReversedLanguage | back-ends/foma/reverse.c:21-48 | turning arcs around under a fresh start state accepts exactly the reversed words, up to 0:0 pairs |
| Reversing.Reverse | back-ends/foma/reverse.c:21-48 | the constructed net accepts exactly the reversed words, over the same symbols, and its size is bounded by that of the old net |
| Reversal.DifferentSetsSeparated | back-ends/foma/iface.c:1021-1024 | in the reversal of a deterministic net, a state in one set and not in another gives a word that tells the sets apart |
| NearMinimality.ReversalNearlyMinimal | back-ends/foma/iface.c:1021-1024 | no two states of the determinized reversal other than the start state have the same residual language |
| NearMinimality.DeterminizeReversal | back-ends/foma/iface.c:1021-1024 | the result accepts exactly the reversed words and is minimal but for its start state |
| NearMinimality.ReverseAndDeterminize | back-ends/foma/iface.c:1021-1024 | reversal followed by determinization does that for every deterministic net, the first meeting what the second asks |
| Alignment.LcsBounds | back-ends/foma/lexcread.c:478-566 | no common subsequence is longer than the recursive optimum |
| Alignment.CostStep | back-ends/foma/lexcread.c:523-539 | the cheapest of the three moves gives the edit cost, and a diagonal is never taken on a mismatch |
| Alignment.AlignCorrect | back-ends/foma/lexcread.c:541-563 | the traced alignment spells both words, pairs only equal symbols or a symbol with EPSILON, and matches as many as the longest common subsequence |
| Alignment.AlignOptimal | back-ends/foma/lexcread.c:478-566 | no other alignment of the two words matches more symbols |
| Alignment.StripInPlace | back-ends/foma/lexcread.c:487-503 | EPSILON is removed from the word in place, all else kept in order |
| Alignment.WordBuffers.MedPad | back-ends/foma/lexcread.c:478-566 | the two buffers end up holding the two sides of the optimal alignment of the EPSILON-free words |
| Alignment.AlignedToNothing | back-ends/foma/lexcread.c:481-503 | the aligned entry is empty exactly when both sides hold nothing but EPSILON |
| Lexicon.EntryIsListed | back-ends/foma/lexcread.c:713-777 | paths out of a lexicon that cross no other lexicon are exactly what the states’ addresses in the trie list |
| Lexicon.LexiconBuilder.AddLexicon | back-ends/foma/lexcread.c:360-397 | a new lexicon state has no entry and changes those of no other |
| Lexicon.LexiconBuilder.Follow | back-ends/foma/lexcread.c:732-749 | the shared prefix is followed along existing arcs as far as it goes, and every state passed can no longer be merged |
| Lexicon.LexiconBuilder.Append | back-ends/foma/lexcread.c:750-775 | the rest becomes a private chain; the entry is added and no other changes |
| Lexicon.LexiconBuilder.AddWord | back-ends/foma/lexcread.c:713-777 | the entries of every lexicon afterwards are those before and this one; the marks still mean private chains of the stated length |
| LexiconEntries.LeftWithoutPairs | back-ends/foma/lexcread.c:478-503 | both sides hold nothing but EPSILON, and are not both empty, exactly when the entry is aligned to no pair at all |
| LexiconEntries.AddEntry | back-ends/foma/lexcread.c:440-470 | after alignment and insertion the entries are those before and the aligned pairs of this one, or only those before if nothing is left to align |
| LexiconMerging.EqPaths | back-ends/foma/lexcread.c:863-873 | two chains of one length compare equal iff they spell the same pairs to the same lexicon |
| LexiconMerging.ChainEntry | back-ends/foma/lexcread.c:863-873 | a mergeable state has exactly one entry: the word of its chain, to the chain’s end |
| LexiconMerging.BuildLists | back-ends/foma/lexcread.c:906-929 | every mergeable state is in the list of its length and in the bucket of its hash, once |
| LexiconMerging.PurgeChain | back-ends/foma/lexcread.c:944-947 | exactly the states of the chain are marked as merged |
| LexiconMerging.MergeStep | back-ends/foma/lexcread.c:943-948 | merging an equal chain keeps every representative unique and unmerged |
| LexiconMerging.MergeBucket | back-ends/foma/lexcread.c:941-949 | whatever equals the current chain is merged into it, and nothing else |
| LexiconMerging.NewestLive | back-ends/foma/lexcread.c:968-983 | the head of the state list is never merged away |
| LexiconMerging.SurvivorEntry | back-ends/foma/lexcread.c:955-967 | redirecting arcs to representatives keeps the entries of every surviving state |
| LexiconMerging.MergeStates | back-ends/foma/lexcread.c:875-983 | survivors keep exactly their entries, their arcs lead to survivors, all lexicons survive, and no two survivors start equal chains |
| SymbolMatching.SigmaTrie.AddSymbol | back-ends/foma/apply.c:1162-1192 | the trie holds one more symbol with its number, and all others as before |
| SymbolMatching.CreateSigarray | back-ends/foma/apply.c:1222-1265 | trie and texts list exactly the ordinary symbols of the alphabet |
| SymbolMatching.LongestMatch | back-ends/foma/apply.c:1313-1330 | walking down the trie finds the longest listed symbol at a position, or that there is none |
| SymbolMatching.CreateSigmatch | back-ends/foma/apply.c:1294-1355 | the input is cut into the longest listed symbols, or else characters, each with the combining marks after it; where one starts, the match array has its length and its number, or IDENTITY if the whole of it is not listed |
| SymbolMatching.CutReads | back-ends/foma/apply.c:1294-1355 | a match array filled this way reads the input as a list of names, listed ones by their number and all others as IDENTITY |
| LookupPaths.SoundIsPath | back-ends/foma/apply.c:882-955 | the offsets on the stack spell a path of the net from its first state to the current one |
| LookupMeaning.StepMeans | back-ends/foma/apply.c:957-1093 | an arc that matches has a meaning over the open alphabet that reads what the arc reads and says what it writes |
| LookupMeaning.FlagsPass | back-ends/foma/apply.c:1095-1139 | the flags of a path are legal iff those before its last arc are and that arc passes the run-time check |
| LookupMeaning.AnswerMeans | back-ends/foma/apply.c:882-1139 | a string is an answer iff it is, joined, what an accepting path with legal flags makes of the input, arc by arc as the arcs mean over the open alphabet |
| LookupMeaning.AnswerRelates | back-ends/foma/apply.c:882-1139 | without flags the answers are, joined, exactly the strings that the net relates the input to over the open alphabet |
| LookupMeaning.CompleteMeans | back-ends/foma/apply.c:882-955 | once all answering paths have been answered, the strings given out are all that the net relates the input to |
| LookupOrder.PathsAreShort | back-ends/foma/apply.c:791-809 | in a net whose circles of arcs that consume nothing all stay in one state, a path that takes no two such arcs in a row has a bounded length |
| LookupOrder.CalmCovers | back-ends/foma/apply.c:884-889 | in a net without circles that consume nothing, no path comes back to a state without reading on, so that answering the simple paths is answering all |
| Lookup.Pushed | back-ends/foma/apply.c:343-366 | following an arc keeps input position, output and flag settings equal to what the path gives |
| Lookup.Popped | back-ends/foma/apply.c:315-341 | popping a frame restores all three to what the shorter path gives |
| Lookup.FollowsIfMay | back-ends/foma/apply.c:741-749 | the visit marks forbid no arc after which the path still has not come back to a state without reading on |
| Lookup.StutterMark | back-ends/foma/apply.c:791-809 | an arc from a state to itself that consumes nothing is not followed by another one |
| Lookup.ApplyHandle.MatchStr | back-ends/foma/apply.c:1095-1139 | a symbol matches iff the input does and its flag succeeds; the flag takes effect, and can be undone |
| Lookup.ApplyHandle.FollowNextArc | back-ends/foma/apply.c:717-771 | the first arc from the current line on that matches, whose flag succeeds and whose target is not marked twice for the input then read is followed and pushed; if there is none in the state, nothing changes |
| Lookup.ApplyHandle.Pop | back-ends/foma/apply.c:315-341 | line, input and output position, flag setting and visit mark are back to what the last step saved |
| Lookup.ApplyHandle.MarkState | back-ends/foma/apply.c:791-809 | a state is marked with the input consumed, negatively on a second visit without progress; no other mark changes |
| Lookup.ApplyHandle.ForceClearStack | back-ends/foma/apply.c:105-117 | the stack is empty and no state is marked, whatever the last search left |
| Lookup.ApplyHandle.FollowOrUnmark | back-ends/foma/apply.c:930-933 | an arc is followed, or the state unmarked when none can be; either way no simple answering path is left behind |
| Lookup.ApplyHandle.PopAndSkip | back-ends/foma/apply.c:917-929 | the search is back at the arc it came by, and goes on with the next line of that state, or unmarks the state if it was the last |
| Lookup.ApplyHandle.ApplyNet | back-ends/foma/apply.c:882-955 | every answer is the output of a flag-legal accepting path that reads the whole input; answers come in the order of line numbers, none twice for one path, and once the search is exhausted every such path that never comes back to a state without reading on has been answered; it ends if circles that consume nothing all stay in one state |
| Lookup.ApplyHandle.ApplyDown | back-ends/foma/apply.c:224-257 | the same for a new word, for which stack and marks are cleared first, and for further answers |
| Lookup.IfaceApplyDown | back-ends/foma/iface.c:456-478 | without circles that consume nothing: what is printed are the outputs of all answering paths in order, or of the first ones as far as the limit goes |
| WordLookup.ApplyDownWord | back-ends/foma/iface.c:456-478 | from the bytes of a word: what is printed are strings that an accepting path with legal flags makes of it; without circles that consume nothing and below the limit they are all such strings, and without flags all that the net relates the word to over the open alphabet |
| ArcSearch.LinearCandidates | back-ends/foma/apply.c:717-771 | the linear scan proposes exactly the arcs of the state that match |
| LookupSearch.MayFollowProposed | back-ends/foma/apply.c:625-772 | a path may go on with exactly those arcs that the search proposes at the input position and whose flag passes |
| LookupSearch.FollowsProposed | back-ends/foma/apply.c:741-749 | a step follows a proposed arc whose flag passes, unless the mark of its target says that the state was come back to without reading on |
| LookupSearch.ProposedArcs | back-ends/foma/apply.c:507-549 | in a state with flags, scan and index propose exactly the arcs that match the input as lookup sees it, each once |
| ArcSearch.BinarySearch | back-ends/foma/apply.c:570-623 | the first matching line at or after the start, or that there is none in the state |
| ArcSearch.Bisect | back-ends/foma/apply.c:604-622 | after bisection the walk back stops at the first of equal symbols and never before the starting line |
| ArcSearch.BinaryCandidates | back-ends/foma/apply.c:676-716 | repeated binary search proposes the same list as the linear scan |
| ArcSearch.IndexState | back-ends/foma/apply.c:507-549 | each list of the index holds exactly the arcs of the state with that input symbol |
| ArcSearch.IndexAgrees | back-ends/foma/apply.c:638-675 | a symbol’s list and the shared EPSILON tail hold exactly the matching arcs, each once |
| ArcSearch.AllStrategies | back-ends/foma/apply.c:570-772 | on a sorted flag-free state the three strategies propose the same arcs, each once |
| Flags.FlagList.Check | back-ends/foma/apply.c:1389-1498 | a flag succeeds and changes its feature’s setting as its type says; the old setting is kept for undoing |
| Flags.CollectPartners | back-ends/foma/flags.c:96-110 | the flags that fail a flag and those that save it, each as a union, and whether there is any |
| Flags.FilterMeans | back-ends/foma/flags.c:116-119 | the filter for a flag other than R rejects a word iff some occurrence of it follows a failing flag with no saving one between |
| Flags.RequireFilterMeans | back-ends/foma/flags.c:114-115 | the filter for an R flag rejects a word iff some occurrence of it has no saving flag before it since the start of the word or since some failing flag |
| Flags.BuildFilter | back-ends/foma/flags.c:91-124 | the intersection of the filters lets through exactly the words that every chosen flag with a partner lets through |
| Flags.BadIsFailing | back-ends/foma/flags.c:183-260 | without clashing flags, what precedes a flag in a legal word fails it exactly when the run-time check does |
| Flags.FeatureAgrees | back-ends/foma/flags.c:91-124 | for one feature without clashing flags whose R flags have partners, the filters accept iff every check of that feature succeeds in turn |
| Flags.CheckedStep | back-ends/foma/apply.c:1389-1498 | after any word, a flag succeeds iff its own feature allows it and, for an E flag, both features have one setting |
| Flags.RunsIsLegal | back-ends/foma/apply.c:1389-1498 | run-time checking of a word succeeds iff the word is legal for each feature separately and wherever an E flag stands both its features have one setting, a feature that no flag has set being cleared |
| Flags.QuietHolds | back-ends/foma/apply.c:1478-1495 | an E flag that compares a feature with itself, or two that no flag can set, never fails |
| Flags.FiltersAgreeExactly | back-ends/foma/flags.c:64-124 | for well-written flags of all types, filters and run-time checking agree on all words iff every R flag has a partner, no feature has clashing flags and no E flag can fail |
| Flags.PartnerlessPasses | back-ends/foma/flags.c:89-113 | an R flag without a partner makes them disagree |
| Flags.UnifyClashDisagrees | back-ends/foma/flags.c:183-260 | U of a value, N of another, and a flag that fails the U flag make them disagree |
| Flags.DisallowClashDisagrees | back-ends/foma/flags.c:183-260 | D of a value, N of another, and U of a third make them disagree |
| Flags.EqualDisagrees | back-ends/foma/flags.c:89-113 | an E flag beside a flag that can set one of its two features makes them disagree |

## Left out

- Composing.Compose: the branches for `g_flag_is_epsilon` are left out. That the relation may come out too small is a property of the code (see above); the exact condition is arc for arc, while a relation may also be whole because another path supplies what one arc loses.
- NetComposition.ComposeNets: takes both nets as minimization leaves them, starting in state 0 and without two arcs on one symbol pair in a state, as do the methods of `BooleanNets`; the early return for an empty net gives the same relation and is left out.
- Equivalence.Equivalent: the residue that the failure exit leaves on the global stack is not modelled.
- Coaccessibility.CoaccessibleInPlace: takes for granted, as the code does, that every state is reachable from state 0; the symbol list that the code empties for the empty language is not modelled.
- Completion.CompleteNet: takes a deterministic acceptor over a gap-free alphabet, as the code itself asks for; adding IDENTITY to the alphabet is a parameter, and minimization is not modelled.
- OpenFilters.FiltersOpenly: the exact condition is again arc for arc; the relations may also agree because another path supplies what one arc loses.
- AlphabetMerging.FsmMergeSigma: takes symbol lists as `sigma_sort` leaves them and arcs whose symbols are listed in their net; the handling of `.#.` that an `#ifdef` removes is left out.
- Determinization.Determinize: models the determinizing mode; epsilon removal and the star-free test are left out. A net without a start state but with 0:0 arcs is left out, because there the code reads the state array at index -1; without 0:0 arcs such a net is included.
- SetNumbering.SetTable.FindInsert: the empty list is looked up in an empty table only, which is when the code does so.
- Alignment.WordBuffers.MedPad: assumes, as the code does, that the two words fit the word buffers together.
- Lookup.ApplyHandle.ApplyNet: a bound on the rounds is a parameter; that some bound is enough is proved for nets whose circles of arcs that consume nothing all stay in one state. With circles through several states, paths that come back to a state without reading on may or may not be answered, and termination is left out. Modelled is downward lookup with the arc-by-arc scan; that the other two scans propose the same arcs is in `ArcSearch` and `LookupSearch`. Random, pair-printing and enumerating modes are left out.
- LookupMeaning.AnswerMeans: takes a net without `?` on the output side, for which the code prints a literal question mark.
- SymbolMatching.CreateSigmatch: takes an input and symbols that are whole encoded characters; past a byte that begins no character the code does not advance. Match array entries between tokens are empty here; the code never reads what it leaves there. Trie cells are found by the letters that lead to them.
- ArcSearch.IndexState: one state's index; which states get an index (density and memory limits) is left out.
- Flags.FiltersAgreeExactly: takes flags as the scanner accepts them (a value where the type needs one). Filters are expressions with a language, not nets; composing them with the net, `flag_purge` and `flag_twosided` are left out.
- Lexicon.LexiconBuilder.AddWord: entries that are words; regular-expression entries are left out.
- LexiconMerging.MergeStates: numbering the states and writing out the net (`lexc_number_states`, `lexc_to_fsm`) are left out.
- Nets are sequences of lines ending without the -1 sentinel, except where an algorithm updates the array in place (trimming, completion, alphabet merging); allocation, freeing, array growth and running out of memory are left out.
- The global integer stack is the worklist itself, empty on entry, with one cell a state rather than two or three integers.
- Hash arithmetic is modulo 2^32 as in the code; counters and state numbers are unbounded integers, with the bounds that the code relies on as preconditions where a sentinel such as INT_MAX is compared with them.
- Trie states and the cells of lists are numbered rather than linked by pointers.
- Minimization, topological sorting, the other regular-expression operators, file input and output, the command line and the generated scanners are left out.
