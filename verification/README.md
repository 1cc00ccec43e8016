# Verified models of the LEMON parser generator and of schema and replication logic

This project models five parts of the Tarantool source tree in Dafny and proves what they
are meant to do, over all inputs and all runs.

**LEMON** (`extra/lemon.c`, `extra/lempar.c`), from a grammar to an answer about a token string:

* `Grammar.dfy`, `Items.dfy`: grammars, derivations, derivation trees, LR(0) items and their closure;
* `FirstSets.dfy`, `Configlist.dfy`, `States.dfy`, `FollowSets.dfy`, `MergeSort.dfy`,
  `Conflicts.dfy`, `ConflictScan.dfy`, `ConflictAssertions.dfy`, `FindActions.dfy`: the passes of the
  generator up to the action lists, and who wins a conflict;
* `LalrGrammar.dfy`, `LookaheadsExact.dfy`: what LALR(1) means in terms of LR(0) items and derivations, and that
  the lookaheads and the conflicts of the generator are exactly those;
* `Lalr.dfy`, `Machine.dfy`, `Soundness.dfy`, `Completeness.dfy`: the abstract machine, and that a
  table accepts exactly what the grammar derives;
* `Optimized.dfy`, `Compress.dfy`, `ShortCuts.dfy`, `ThreePasses.dfy`, `CompressedRows.dfy`,
  `Compression.dfy`: the three passes that compress the table, when they end, that they keep every
  accepting run, and what they achieve;
  `ActionsExist.dfy`, `LalrCycles.dfy`: that they end for every LALR(1) grammar;
* `Resort.dfy`, `ActTab.dfy`, `Packing.dfy`: renumbering and row packing;
* `Driver.dfy`, `Lemon.dfy`: the generated parser on the packed tables, and the whole way in one
  contract, `Lemon.GenerateAndParse`.

**The keyword table** (`extra/mkkeywordhash.c`): `Keywords.dfy`, `KeywordText.dfy`, `KeywordHash.dfy`.

**The applier** (`src/box/applier.cc`): `ApplierTx.dfy` reads and filters transactions,
`Applier.dfy` is the step relation of any number of applier fibers with an asynchronous journal,
`ApplierLink.dfy` connects the two, `ApplierGaps.dfy` says when the log can get a gap, and
`ApplierWakes.dfy` that no applier waits in vain.

**Schema changes** (`src/box/alter.cc`, `src/box/column_mask.h`): `AlterSpace.dfy`,
`AlterTriggers.dfy`, `AlterRuns.dfy` and `AlterCommits.dfy` for alter, rollback and commit of a space, `Constraints.dfy`, `ConstraintEffects.dfy` and
`ForeignKeys.dfy` for foreign keys, constraint names and column masks, `ColumnMask.dfy`, and `ViewReferences.dfy`.

**The histogram** (`src/histogram.c`): `Histogram.dfy`.

What the source updates in place is a class, or a method with loops, proved against a
specification; what relates several operations, or speaks about all runs, is a lemma about that
specification. The `*Example.dfy` files, with `CyclicGrammar.dfy`, hold concrete inputs; `Options.dfy`,
`FiniteSets.dfy` and `VClocks.dfy` hold what several parts share.

## Findings

Eleven expectations that one may have of the code do not hold of it. Each has a concrete input or
run, and the exact condition under which the expectation holds:

* `acttab_insert` can find no room and return an offset at which another row is hit
  (`RoomExample.RoomRunsOut`; exact condition in `ActTab.Builder.Insert`).
* The offset table for tokens can end before the last kept state, so that the index that the driver
  asserts is out of range (`OffsetsExample.OffsetsEndEarly`; exact condition in `Packing.PackTables`).
* A tie at a nonassociative operator turns the shift into an error and leaves the reduction alive
  (`TieExample.TieLeavesReduction`; exact condition in `Conflicts.ResolveConflicts`).
* A further reduction on that operator meets the error, and an assertion of `resolve_conflict` fails
  (`TieExample.SecondReductionFails`; exact condition in `ConflictAssertions.AssertionsHoldExactly`).
* The pass over code-free unit rules never ends, or fails its assertion, on a cycle of such rules
  (`UnitCycleExample.NeverEnds`, `UnitCycleExample.SearchFails`; exact condition in
  `ShortCuts.PassEndsExactly`, and `LalrCycles.LalrIsAcyclic` shows that no LALR(1) grammar is
  concerned).
* `msort` loses elements from 2^30 on (`MergeSort.LosesElements`; exact condition in
  `MergeSort.MSort`).
* The number of symbols to pop is stored in a byte, so rules with 256 symbols or more are popped
  short (`LongRuleExample.LongRulePopsNothing`; exact condition in `Driver.PopsRhs`).
* A journal error can leave a gap in the committed rows of an origin if an applier is in the middle
  of a transaction at that time (`ApplierGaps.GapWithoutPromptStop`; exact condition in
  `ApplierGaps.WrittenGapExactly`).
* A replaced foreign key with another parent leaves bits in the mask of the old parent
  (`StaleMaskExample.MaskGoesStale`; exact condition in `Constraints.StaleMask`).
* The lock of a space keeps other alters out while one is prepared, but not the rollback of the alter
  whose version it starts from (`LockExample.RolledBackUnderLock`; exact condition in
  `AlterCommits.LockGuards`). Whether a rollback can come at that time is decided outside of this model.
* The check for duplicate referenced fields misses duplicates among fields 32 to 63
  (`ForeignKeys.DuplicateCanBeMissed`; exact condition in `ForeignKeys.CheckDupLinks`).

Besides, a keyword is found under its own name exactly if it has at least two characters and no
character that the comparison changes (`KeywordHash.FindsItself`).

## Model

| member | source | states |
|---|---|---|
| `FirstSets.FindLambdas` | extra/lemon.c:808-823 | the first progress loop ends with `lambda` set exactly for the nonterminals that derive the empty string, up to the fixpoint that `FixpointIsExact` turns into derivability |
| `FirstSets.FirstSetOfRule` | extra/lemon.c:829-848 | one rule of the second loop: the set of its left-hand side stays sound, only grows, is closed under the rule afterwards, and the progress flag says whether it changed |
| `FirstSets.FixpointIsExact` | extra/lemon.c:795-851 | what is sound and closed under all rules is exact: nullable means derives the empty string, and a terminal is in a first set exactly if some form derived from the nonterminal begins with it |
| `FirstSets.FindFirstSets` | extra/lemon.c:795-851 | both loops terminate, and lambda and the first sets are the least fixpoints, stated as derivability |
| `Items.ClosureOfIsClosure` | extra/lemon.c:1358-1400 | the closure of a basis is the least set of items that contains it and the initial items of all rules that it calls |
| `Configlist.Closure` | extra/lemon.c:1303-1400 | the closure loop adds every configuration once, leaves exactly the closure, its spontaneous lookaheads and its propagation links |
| `States.Generator.StateFind` | extra/lemon.c:5302-5315 | a state is found exactly if one with the same basis is in the table |
| `States.Generator.GetState` | extra/lemon.c:917-956 | the recursion terminates; the state for the basis is in the table, all states that were added are built with their closures, seeds and links, and the others are as they were; what the seeds come to is said exactly by `LookaheadsExact.LookaheadsExactly` |
| `States.Generator.ShiftConfig` | extra/lemon.c:983-1022 | the outer loop body of `buildshifts`: one shift per symbol, with the kernel of the goto as its basis |
| `States.Generator.BuildShifts` | extra/lemon.c:977-1025 | after it the state has exactly one shift for every symbol with a goto |
| `States.Generator.FindStates` | extra/lemon.c:858-1025 | the state table is goto-closed, has one state per basis, and its bases are exactly the least goto-closed collection that contains the start basis |
| `States.BuiltTableIsLeast` | extra/lemon.c:858-1025 | a table in which every state is built is the least goto-closed collection |
| `FollowSets.FindLinks` | extra/lemon.c:1030-1058 | the forward links are the reverses of the recorded back links and the links of the closures |
| `FollowSets.Propagate` | extra/lemon.c:1083-1091 | one turn of the loop: the follow set goes along all links of one configuration, and what changes is marked incomplete again |
| `FollowSets.FindFollowSets` | extra/lemon.c:1065-1095 | the status-driven loop terminates, and every set is exactly the union of the initial sets of all configurations that reach it |
| `FollowSets.FixpointIsReachability` | extra/lemon.c:1065-1095 | sets that are supported and passed along all links are those of reachability, in both directions |
| `LookaheadsExact.LookaheadsExactly` | extra/lemon.c:858-1095 | for every grammar: a terminal is in the final set of a configuration if and only if it can follow there, that is, if some spine of unfinished rules from the start rule, with the end of input behind it, leads to this state and configuration, and what stands to the right of the spine derives a string that begins with the terminal |
| `LookaheadsExact.LookaheadDerives` | extra/lemon.c:1030-1138 | every lookahead on which a state reduces comes from a derivation: some sentential form from the start symbol and the end of input has the left-hand side before the lookahead, and the symbols before it with the right-hand side lead to the state |
| `LookaheadsExact.ConflictsExactly` | extra/lemon.c:858-1138 | for every grammar: the lists of the generator have no conflict if and only if the grammar is LALR(1), as `LalrGrammar.IsLalr` defines it from LR(0) items and derivations, without the states, links and sets of the generator |
| `LalrGrammar.FollowsDerives` | extra/lemon.c:1030-1095 | a rule can be reduced on a lookahead only if some sentential form, derived from the start symbol and the end of input, has its left-hand side before that lookahead, after symbols that lead to the state |
| `Conflicts.OneSurvives` | extra/lemon.c:1183-1243 | of two live actions on a lookahead exactly one stays live, and never the one with the lower defined precedence; which one it is in each case is said by `ConflictScan.ShiftOrReduce` and `ConflictScan.ReduceOrReduce` |
| `Conflicts.ResolveRow` | extra/lemon.c:1146-1152 | the inner loop: after an action has met all later ones of its group, what holds of the rows before holds of one row more, and every conflict that was counted is marked |
| `Conflicts.ResolveConflicts` | extra/lemon.c:1140-1153 | the nested loops are the meetings of all pairs in order, of which `LoopResolves` speaks: every lookahead that had a live action keeps exactly one, a dominant action wins whatever the order, an ERROR appears exactly where a shift meets a nonassociative tie; and the number of conflicts is that of the actions that lost without a precedence that decides |
| `Conflicts.LoopResolves` | extra/lemon.c:1140-1239 | for every sorted list: what the pairwise meetings leave is the resolved list that the precedences define |
| `ConflictScan.LoopIsScan` | extra/lemon.c:1140-1239 | the quadratic loop leaves, for every action of every sorted list, what one scan leaves in which each lookahead has one leader that every later action challenges |
| `ConflictScan.LiveIsLeader` | extra/lemon.c:1140-1239 | after the loop an action is live if and only if it leads its lookahead at the end of the scan: it took the lead, and no later action took it over |
| `ConflictScan.FirstWins` | extra/lemon.c:1140-1239 | the first live action of a lookahead wins if it yields to no other, so of undecided actions the first one stays |
| `ConflictScan.ShiftOrReduce` | extra/lemon.c:1194-1212 | a shift against a reduction, by the precedences and the associativity of the grammar: who wins in each of the five cases, and as what the other one is marked |
| `ConflictScan.ReduceOrReduce` | extra/lemon.c:1213-1224 | two reductions, by the precedences of their rules: the higher one, and otherwise the first one with a conflict |
| `ConflictAssertions.AssertionsHoldExactly` | extra/lemon.c:1183-1239 | the assertions of `resolve_conflict` hold throughout the loops if and only if every tie of a shift is one of a `%nonassoc` operator and its reduction is the last action on that lookahead |
| `TieExample.TieLeavesReduction` | extra/lemon.c:1204-1211 | finding: a nonassociative operator; the shift becomes an error and the reduction that it met stays alive |
| `TieExample.SecondReductionFails` | extra/lemon.c:1222-1233 | finding: a second reduction on that operator meets the ERROR, and the assertion fails |
| `MergeSort.Merge` | extra/lemon.c:1789-1825 | the merge of two sorted lists is sorted and has the elements of both |
| `MergeSort.AddOne` | extra/lemon.c:1852-1861 | one element goes up through full slots; a slot is overwritten only if all thirty are full |
| `MergeSort.MSort` | extra/lemon.c:1841-1865 | the result is sorted, and it has all elements exactly if there are fewer than 2^30 of them |
| `MergeSort.LosesElements` | extra/lemon.c:1852-1861 | finding: a list of 2^30 elements comes back shorter |
| `FindActions.ActionCmpIsOrder` | extra/lemon.c:501-517 | `actioncmp` is a total order, so the sort puts the actions of a lookahead together, the shift first |
| `FindActions.ActionSort` | extra/lemon.c:520-527 | sorting keeps the actions and groups them |
| `FindActions.RawActions` | extra/lemon.c:1113-1138 | the shifts, one reduction for every lookahead of every finished configuration, and the accept action |
| `FindActions.ActionsOf` | extra/lemon.c:1101-1153 | the list of a state has at most one live action per lookahead, each one that the state asks for; gotos and accept always survive; without conflicts everything does and there is no error |
| `FindActions.OrderDecides` | extra/lemon.c:501-517 | sort and resolution in one: where precedence does not take it out, the shift is the one live action on its lookahead, and without a shift the reduction by the rule that the grammar has first |
| `Lalr.LookaheadsAreClosed` | extra/lemon.c:1030-1095 | the follow sets are closed under shifts, calls and first sets, as the completeness proof needs them |
| `Lalr.UncompressedSound` | extra/lemon.c:1101-1153 | every entry of the generated table is one that the automaton justifies |
| `Lalr.UncompressedComplete` | extra/lemon.c:1101-1153 | without conflicts the table has every shift and every reduction that a derivation can need |
| `Soundness.PopRhs` | extra/lempar.c:638-713 | on every stack that the machine reaches, a reduction finds exactly its right-hand side on top |
| `Soundness.StepSound` | extra/lempar.c:797-838 | each iteration keeps the stack a path of the automaton and keeps what path and rest of the input derive; no assertion of the driver fails |
| `Soundness.ParserSound` | extra/lempar.c:797-939 | for every grammar and every sound table: what the machine accepts is derivable from the start symbol |
| `Completeness.ParseTree` | extra/lempar.c:797-939 | the machine reads the yield of a derivation tree and pushes its root |
| `Completeness.ParserComplete` | extra/lempar.c:797-939 | on a complete table the machine accepts everything that the grammar derives |
| `Compress.BestReduction` | extra/lemon.c:4573-4598 | the reduction with the most actions, among rules of symbols other than the start symbol; of several, the one that the list has first |
| `Compress.MakeDefault` | extra/lemon.c:4607-4616 | all reductions by it become one default entry, and nothing else changes |
| `Compress.DefaultReduce` | extra/lemon.c:4573-4626 | pass one on a state: the row with the default, and the auto-reduce flag exactly if nothing else is left to do |
| `Compress.ShiftReducePass` | extra/lemon.c:4632-4643 | pass two on a state: every shift to an auto-reduce state, and no other entry, becomes a shift-reduce |
| `ShortCuts.PassEndsExactly` | extra/lemon.c:4646-4674 | the loops of pass three over a state come to an end, without a failed search, if and only if the code-free unit rules of its row form no cycle, that is, if and only if its symbols can be ranked so that every short cut goes down |
| `ShortCuts.PassEnds` | extra/lemon.c:4646-4674 | without a cycle they end within a number of visits that the row bounds, and every action has become the end of its chain of unit rules |
| `ShortCuts.FirstEndlessDecides` | extra/lemon.c:4655-4673 | with a cycle, the first action that leads into one decides: on the cycle the search fails its assertion; from outside it the loop never ends |
| `ShortCuts.ShortCutPass` | extra/lemon.c:4646-4674 | pass three on a state says which of the three happens, and leaves the shortened list exactly if the row has no cycle |
| `ThreePasses.TwoPassesSameRun` | extra/lemon.c:4564-4643 | after the first two passes every accepting run makes the same shifts and reductions in the same order |
| `ThreePasses.ThreePassesOptimized` | extra/lemon.c:4564-4674 | all three passes give a table that is related entry by entry to the plain one |
| `Optimized.RunMatches` | extra/lemon.c:4564-4674 | table rewriting preserves meaning: every accepting run of the plain table is matched by one of the compressed table, with the same events apart from reductions by code-free unit rules |
| `Optimized.OptimizedKeepsRuns` | extra/lemon.c:4564-4674 | every accepting run of the plain table has one of the compressed table with the same shifts and reductions apart from unit rules without code, and so with the same code executed in the same order |
| `Optimized.OptimizedSound` | extra/lemon.c:4564-4674 | the compressed table is sound again, so it accepts only sentences |
| `Compression.CompressTables` | extra/lemon.c:4564-4674 | the three passes over all states: the third one gets through if and only if no row has a cycle of code-free unit rules, and otherwise stops in the first state that has one, as its first action in one decides; the lists that are left make the optimized table, every accepting run is kept, a state is marked to auto-reduce if and only if it can do nothing but reduce by one rule, and every row is as small as `CompressedRows.CompressedIsSmall` says |
| `CompressedRows.CompressedIsSmall` | extra/lemon.c:4564-4674 | what the passes achieve in every row: its most frequent reduction is the default and occurs nowhere else, no shift goes to a state that only reduces, and no goto ends in a unit rule without code |
| `CompressedRows.AutoExactly` | extra/lemon.c:4618-4625 | a state is an auto-reduce state if and only if all it can do is to reduce by one rule, which is not one of the start symbol |
| `UnitCycleExample.NeverEnds` | extra/lemon.c:4655-4674 | finding: a grammar with a cycle of code-free unit rules for which the generator, in the third pass over its first state, goes on for ever |
| `UnitCycleExample.SearchFails` | extra/lemon.c:4655-4674 | finding: the same grammar with its symbols numbered differently; the search for the other action fails its assertion |
| `LalrCycles.LalrIsAcyclic` | extra/lemon.c:4646-4674 | a grammar without conflicts has no such cycle in any row: the third pass gets through for every LALR(1) grammar |
| `LalrCycles.CycleConflicts` | extra/lemon.c:1065-1153 | a configuration that begins a rule of a cycle and has a lookahead makes a conflict in some state |
| `ActionsExist.NextTokenActs` | extra/lemon.c:1101-1138 | if a token can come next for a configuration otherwise than by reducing by a given rule, the state has an action on it other than that reduction |
| `ActTab.Builder.AddAction` | extra/lemon.c:623-645 | the transaction has the new action, and its smallest and largest lookahead are kept |
| `ActTab.FindDuplicate` | extra/lemon.c:686-710 | a row that is the transaction already and nothing else is found exactly if there is one |
| `ActTab.FindHole` | extra/lemon.c:716-737 | the first index at which all slots are free and no slot in use is aligned |
| `ActTab.Write` | extra/lemon.c:738-743 | all writes are in bounds, no slot in use is changed, and every lookup finds what it found before, except in the written row |
| `ActTab.Builder.Insert` | extra/lemon.c:656-749 | the whole new table; later insertions never disturb earlier rows; and the row at the returned offset is exactly the transaction if and only if there was room |
| `ActTab.RowStays` | extra/lemon.c:656-749 | a row that is exact stays exact when another one is inserted with room |
| `ActTab.RoomEnough` | extra/lemon.c:665-737 | a transaction with a small lookahead, or a table with enough free slots, always has room |
| `RoomExample.RoomRunsOut` | extra/lemon.c:721-743 | finding: thirteen insertions into the empty table; the last one finds no room and gets an offset at which a lookahead that it does not have finds the action of another row |
| `Resort.CountActions` | extra/lemon.c:4710-4729 | the numbers of token and nonterminal actions of a state, and its default |
| `Resort.StateCmpIsOrder` | extra/lemon.c:4683-4697 | the comparison of states is a total order |
| `Resort.ResortStates` | extra/lemon.c:4704-4739 | the new numbering is a permutation that keeps state 0 first and puts the states with the most nonterminal actions before the others, then those with the most token actions, the counts being those of the rows; and exactly the auto-reduce states at the end are cut off |
| `Packing.SortedParts` | extra/lemon.c:4129-4143 | all parts of the kept states, and the parts with more actions come first |
| `Packing.PackActions` | extra/lemon.c:4144-4170 | every part with actions is placed, exactly if there was room for each insertion |
| `Packing.PackTables` | extra/lemon.c:4120-4329 | the packed tables say for every kept state and symbol what the table of the generator says, if there was room; and the offset table for tokens covers all kept states if and only if the last of them has an action on a token |
| `OffsetsExample.OffsetsEndEarly` | extra/lemon.c:4261-4265 | finding: a grammar whose last kept state has no action on a token, so that the table ends before it and the bound that the driver asserts (extra/lempar.c:457) is too small |
| `Driver.PopsRhs` | extra/lempar.c:638-713 | the count of symbols to pop is a byte; the driver pops the whole right-hand side exactly if it has fewer than 256 |
| `LongRuleExample.LongRulePopsNothing` | extra/lempar.c:638-713 | finding: a rule of 256 symbols, of which a reduction pops none |
| `Driver.FindShiftIs` | extra/lempar.c:449-509 | the lookup for a token finds the code of what the table says |
| `Driver.FindReduceIs` | extra/lempar.c:514-539 | the lookup for a goto finds it, and its assertions hold |
| `Driver.YyParser.Shift` | extra/lempar.c:583-630 | push, or pop everything and report overflow exactly if the stack is full |
| `Driver.YyParser.Reduce` | extra/lempar.c:638-713 | pop the right-hand side, find the goto, push: exactly the reduction of the abstract machine |
| `Driver.YyParser.Iterate` | extra/lempar.c:826-838 | one iteration of the loop is one step of the abstract machine |
| `Driver.YyParser.Parse` | extra/lempar.c:797-838 | feed one token: the loop makes the reductions of the machine until it consumes the token, accepts, fails or overflows, or has used up its fuel |
| `Driver.YyParser.Recognize` | extra/lempar.c:797-939 | for every token string and every amount of fuel: an answer other than overflow and running out of fuel is that of the abstract machine; running out of fuel means that the machine needs more, and with as much fuel as there are stacks that it never ends |
| `Driver.TraceRepeats` | extra/lempar.c:826-838 | reductions that go on for longer than there are stacks come back to one, and then never end |
| `Lemon.AcceptsIsDerives` | extra/lemon.c:858-1153 | the compressed table of a grammar accepts only sentences, and for every LALR(1) grammar all of them |
| `Lemon.Generate` | extra/lemon.c:1685-1718 | from any grammar to packed tables that are a parser for it: what each stage makes is tied to the grammar, and there are tables if and only if the stages work; each refusal has its reason in them: states that outgrow the sort, a nonassociative tie or a cycle of unit rules, which no LALR(1) grammar has, a rule with 256 symbols, a last kept state without an action on a token, or an insertion without room |
| `Lemon.Parse` | extra/lempar.c:797-939 | a generated parser accepts only sentences; for an LALR(1) grammar, with enough fuel and without overflow, it accepts exactly the sentences |
| `Lemon.GenerateAndParse` | extra/lempar.c:797-939 | generator and parser in one: grammar and token string in; there is a parser if and only if the stages work, and then, for a grammar that is LALR(1) by `LalrGrammar.IsLalr`, accepting is the same as deriving; such a grammar is never refused for a tie or a cycle |
| `ApplierTx.SetNextTxRow` | src/box/applier.cc:661-717 | a row is added to the transaction or refused, with the error and in the order in which the source looks for it |
| `ApplierTx.ReadTx` | src/box/applier.cc:726-740 | the reader gives the one prefix of the stream that is a transaction, or fails at the first row that does not fit |
| `ApplierTx.ReadingIsUnique` | src/box/applier.cc:661-740 | a stream can be cut into transactions in one way only |
| `ApplierTx.ReadAll` | src/box/applier.cc:661-740 | round trip: a stream of whole transactions is read back as these transactions |
| `ApplierTx.SkipApplied` | src/box/applier.cc:1097-1116 | of the rows exactly an applied prefix is dropped, and the queue never runs empty |
| `ApplierTx.SkipsExactly` | src/box/applier.cc:1097-1116 | of ordered rows exactly the applied ones are dropped |
| `ApplierTx.SynchroFilter` | src/box/applier.cc:1006-1053 | the rows of an outdated origin become NOPs, all or none, each with its origin and LSN in its place; all others stay as they are |
| `ApplierTx.FilterKeepsClock` | src/box/applier.cc:1006-1053 | the clock moves as if the filtered rows had been applied |
| `ApplierTx.Decide` | src/box/applier.cc:1094-1130 | nothing if and only if the last row has been applied; a synchro request if and only if it is one and not filtered; else the rows that have not been applied, as the filter leaves them |
| `ApplierLink.Decide` | src/box/applier.cc:1094-1130 | what is decided for rows of the stream is what the step relation of the appliers does with them |
| `Applier.StepKeeps` | src/box/applier.cc:742-1178 | every step of a fiber or of the journal keeps the invariant on latches, clocks, journal and log; that each step also does its work is said by the results that follow |
| `Applier.RowsEnterInOrder` | src/box/applier.cc:1079-1137 | over every interleaving of any number of appliers, journal successes and failures, the rows of an origin enter and are written in strictly increasing LSN order, without duplicates, and the committed clock is the last one written |
| `ApplierGaps.CommittedIsPrefix` | src/box/applier.cc:742-766 | with gap-free streams, on every run in which failures spare no applier in the middle of a transaction, the committed rows of an origin are a gap-free prefix of its history |
| `ApplierGaps.PromptIsPrefix` | src/box/applier.cc:742-766 | so it is on every run if failures stop all appliers at once |
| `ApplierGaps.NoGapExactly` | src/box/applier.cc:1079-1137 | on every run whatever: what has entered has had no gap at any time if and only if every batch that was handed to the journal started with the next LSN of its origin |
| `ApplierGaps.EnteredGapExactly` | src/box/applier.cc:1079-1178 | with gap-free streams: if and only if no applier that a failure found in the middle of a transaction, and did not stop, has handed in a batch that is not the next one; other appliers never do |
| `ApplierGaps.WrittenGapExactly` | src/box/applier.cc:742-766 | the same of what is written: the log has had no gap if and only if no batch has been written that such an applier had handed in out of turn |
| `ApplierGaps.HandedNextIsPrefix` | src/box/applier.cc:1079-1137 | on every run, if every batch starts with the next LSN of its origin, the written rows of each origin are a gap-free prefix |
| `ApplierGaps.GapWithoutPromptStop` | src/box/applier.cc:1165-1178 | finding: a run in which the journal fails one transaction while the next one is being applied, and the log has a gap afterwards |
| `Applier.FollowAdvances` | src/box/applier.cc:812-877 | the clock of the applier never goes back, and with prompt stops every advance is a strict one, as the assertion of `vclock_follow` (src/lib/vclock/vclock.c:40-53) demands |
| `ApplierWakes.NobodyWaitsInVain` | src/box/applier.cc:812-877 | in every state of every run: an applier that waits for its synchro row owns a pending journal entry with this row, and the latch of an origin is taken if and only if some applier has rows of it in hand, and then by that applier |
| `ApplierWakes.WrittenCanFollow` | src/box/applier.cc:812-877 | when the journal has written the row of an applier that waits, the applier can go on; its clock is then at the written row and the latch is free |
| `ApplierWakes.WritesWake` | src/box/applier.cc:812-828 | an applier whose entry is at place q of the journal is awake after q + 1 writes, whatever else is pending |
| `AlterSpace.UndoIsInverse` | src/box/alter.cc:1326-1992 | the rollback of an operation undoes its alter phase |
| `AlterSpace.Commute` | src/box/alter.cc:1090-1120 | undoing one operation and doing another can change places if they concern different parts |
| `AlterSpace.UndoAllIsInverse` | src/box/alter.cc:1090-1120 | rollback runs the operations in forward order and still undoes the list |
| `AlterSpace.RollbackIsInverse` | src/box/alter.cc:1090-1241 | `alter_space_do` followed by `alter_space_rollback` restores the cached version, index objects and definitions, triggers, foreign keys, checks, constraint names and the field dictionary |
| `AlterSpace.StackRollback` | src/box/alter.cc:1090-1241 | any stack of alters, rolled back last-first, restores the world |
| `AlterSpace.StackCanRollBack` | src/box/alter.cc:1090-1241 | and any stack of alters can be rolled back |
| `AlterSpace.MovedIndexStays` | src/box/alter.cc:1400-1408 | a moved index is the same object in the new version |
| `AlterSpace.ModifiedIndexIsRedefined` | src/box/alter.cc:1452-1483 | a modified index keeps its object and gets the new definition |
| `AlterSpace.RestIsTakenOver` | src/box/alter.cc:1210-1228 | triggers and foreign keys go over to the new version, and the constraint names that the operations leave |
| `AlterSpace.Engine.AlterStep` | src/box/alter.cc:1245-1993 | the alter phase of each operation, in place: the two versions, definitions, names and schema version it leaves |
| `AlterSpace.Engine.RollbackStep` | src/box/alter.cc:1245-1993 | the rollback phase of each operation, in place |
| `AlterSpace.Engine.AlterSpaceDo` | src/box/alter.cc:1152-1241 | the engine is in the state `Do`, about which the rollback theorem speaks |
| `AlterSpace.Engine.AlterSpaceRollback` | src/box/alter.cc:1090-1120 | the engine is in the state `Rollback`, about which the rollback theorem speaks |
| `AlterSpace.Engine.AlterSpaceCommit` | src/box/alter.cc:1043-1080 | the engine is in the state `Commit`: the old version is deleted with the index objects that are left in it, and the dictionaries of the operations |
| `AlterCommits.DoOwned` | src/box/alter.cc:1153-1241 | conservation: an alter moves index objects between its two versions, and every object that exists is in exactly one slot of one live version, before and after |
| `AlterCommits.ForgetKeeps` | src/box/alter.cc:1043-1080 | what a commit frees belongs to the old version alone: every other version keeps all its objects with their definitions, and nothing else stays behind |
| `AlterCommits.ForgetDo` | src/box/alter.cc:1043-1241 | committing an alter and doing a later one can change places: the same world comes out |
| `AlterCommits.RunsAreSerial` | src/box/alter.cc:1043-1241 | on every run of preparing, doing, failing, committing oldest-first and rolling back last-first, in any interleaving: the world is the one that exactly the committed alters make when each is done and committed alone, with the pending ones done on top; so an alter that was rolled back leaves no trace |
| `AlterCommits.NothingIsLost` | src/box/alter.cc:1043-1241 | on every such run no index object is lost, doubled or freed while in use; pending alters can always be committed and rolled back; and when none is pending, one version is left with its objects and its dictionary, and nothing else |
| `AlterCommits.LockGuards` | src/box/alter.cc:993-1031 | on every such run an alter that holds the lock finds the version that it is to replace in the cache, and can be done, if and only if nothing has been rolled back since it took the lock; otherwise that version is gone |
| `LockExample.RolledBackUnderLock` | src/box/alter.cc:993-1031 | finding: a run in which an alter prepares from the version of one that is still pending, which is then rolled back |
| `AlterTriggers.MoveIndexes` | src/box/alter.cc:2044-2128 | one operation for every index of the range, in the way that was chosen for it |
| `AlterTriggers.IndexOps` | src/box/alter.cc:2785-2997 | the list of the index trigger: drop, create, move, rebuild or modify, the constraint names, and all other indexes kept |
| `AlterTriggers.SpaceOps` | src/box/alter.cc:2602-2621 | the list of the space trigger: format check, new definition, rebuilt checks, and all indexes kept |
| `AlterTriggers.TruncateOps` | src/box/alter.cc:3082-3095 | the list of the truncate trigger: all indexes anew, checks kept |
| `AlterTriggers.AmendKeyList` | src/box/alter.cc:1178-1183 | the `alter_def` phase of all operations on the key list; `KeyValue`, `KeyIsIn` and `KeyIsOut` say what each index then has |
| `AlterTriggers.KeyValue` | src/box/alter.cc:1446-1620 | an index of the amended list has the new definition if some operation of the list makes, rebuilds or modifies it, and otherwise the one that it had |
| `AlterTriggers.ListsFindIndexes` | src/box/alter.cc:1446-1620 | every operation that uses an index of the new version finds it there |
| `AlterTriggers.TriggerRollsBack` | src/box/alter.cc:1090-1241 | for every list that the three triggers build, with the new version created from the amended key list: rolling back what was done restores the world |
| `AlterTriggers.AlterAndRollBack` | src/box/alter.cc:1090-1241 | the same on the engine itself |
| `AlterRuns.IndexTrigger` | src/box/alter.cc:2785-3012 | the index trigger on the engine, from what it has checked to the alter: its index is made, dropped, kept, modified or rebuilt with the new definition as `IndexChanged` says, its constraint name is exchanged, and everything else stays; or it is rolled back later, and then everything but the schema version is as before |
| `AlterRuns.SpaceTrigger` | src/box/alter.cc:2566-2630 | the space trigger on the engine in the same way: new definition, checks and field names, all indexes kept in the way that was chosen, and nothing else changed (`SpaceChanged`) |
| `AlterRuns.TruncateTrigger` | src/box/alter.cc:3082-3104 | the truncate trigger on the engine in the same way: all indexes are new objects with their old definitions (`IsTruncated`); its rollback leaves even the schema version |
| `AlterRuns.IndexEffect` | src/box/alter.cc:2785-3012 | said of the two worlds alone, without the operations: the object and the definition of every index, the constraint names, checks, triggers, foreign keys and field names after the index trigger |
| `AlterRuns.SpaceEffect` | src/box/alter.cc:2566-2630 | the same of the space trigger |
| `AlterRuns.TruncateEffect` | src/box/alter.cc:3082-3104 | the same of the truncate trigger |
| `AlterRuns.NewIndexes` | src/box/alter.cc:1178-1241 | the new version has exactly the indexes that the trigger leaves: a made one is there, a dropped one is gone, all others stay |
| `AlterRuns.IndexTriggerNames` | src/box/alter.cc:2785-2880 | the list of the index trigger does to the constraint names what the change of the index does to the taken names in `Constraints.SetIndex` |
| `AlterRuns.TriggerKeepsSound` | src/box/alter.cc:1152-1241 | after the alter of a trigger the index objects of the cached version are distinct and have definitions, so the next trigger can start |
| `AlterRuns.FiredRollBack` | src/box/alter.cc:1090-1241 | any sequence of triggers in a transaction can be rolled back last-first, and leaves the world in which it began |
| `ColumnMask.SetFieldno` | src/box/column_mask.h:61-72 | the mask has the bit of the field besides those it had |
| `ColumnMask.SetRange` | src/box/column_mask.h:80-95 | the mask has the bits of all fields from the first one on besides those it had |
| `ColumnMask.IsSetExactly` | src/box/column_mask.h:119-124 | a set bit means the field below 63, and some field from 63 on |
| `ColumnMask.SkipIsSafe` | src/box/column_mask.h:106-110 | for unboundedly many fields: masks that cover two field sets and have no bit in common prove the sets disjoint |
| `ColumnMask.SkipIsExact` | src/box/column_mask.h:106-110 | a chance to skip is missed if and only if both sets have fields from 63 on |
| `Constraints.ApplyKeeps` | src/box/alter.cc:5842-5926 | every change keeps the namespace, the foreign key lists and the covering masks; what each change does is said by `ConstraintEffects.ApplyEffect` |
| `ConstraintEffects.ApplyEffect` | src/box/alter.cc:5842-6188 | every change has exactly its effect: the foreign key is in, or gone from, the lists of its child and its parent and no other, its name is taken, or free, in the child and no other, a check name is taken or free, an index is there or not, and all else stays |
| `ConstraintEffects.DroppedFkIsGone` | src/box/alter.cc:5891-5926 | after a foreign key is dropped no space lists it, its name is free, and every other foreign key and name stays |
| `Constraints.ApplyMasks` | src/box/alter.cc:5561-5590 | masks always cover the linked fields, and stay exact unless a replacement changes the parent |
| `Constraints.StaleMask` | src/box/alter.cc:5842-5926 | for every change: all masks stay exact if and only if it does not give a foreign key another parent, or the old parent is the child, or the links that the old parent keeps have all bits of the foreign key; stated of the schema before the change |
| `Constraints.StaleMaskUndone` | src/box/alter.cc:5598-5653 | the same of every rollback |
| `StaleMaskExample.MaskGoesStale` | src/box/alter.cc:5867-5887 | finding: a run after which the mask of a space has a bit that no foreign key accounts for |
| `Constraints.DroppedHasNothing` | src/box/alter.cc:2433-2506 | a space that may be dropped takes part in no constraint |
| `Constraints.UndoRestores` | src/box/alter.cc:5598-5653 | the rollback of each change restores the schema, masks aside |
| `Constraints.ConstraintsThroughRuns` | src/box/alter.cc:5842-6188 | through every run of changes, commits and last-first rollbacks the taken names are those of the live constraints, masks cover, and the last change can be rolled back |
| `ForeignKeys.ResetMask` | src/box/alter.cc:5574-5590 | the mask is exactly that of the linked fields |
| `ForeignKeys.CheckDupLinks` | src/box/alter.cc:5676-5705 | the check refuses a list of referenced fields exactly if it has the duplicates that the condition names |
| `ForeignKeys.DuplicateCanBeMissed` | src/box/alter.cc:5681-5687 | finding: a list with a duplicate field from 32 on that the check lets through |
| `ForeignKeys.Cache.OnCreateFk` | src/box/alter.cc:5842-5866 | a foreign key is created if and only if its name is free in the child; the whole new cache, with the effect that `ConstraintEffects.HasEffect` defines |
| `ForeignKeys.Cache.OnDropFk` | src/box/alter.cc:5891-5926 | the whole new cache after a drop, with its effect |
| `ForeignKeys.Cache.OnReplaceFk` | src/box/alter.cc:5867-5887 | the whole new cache: the step of the run model for a replacement, with its effect |
| `ForeignKeys.Cache.OnRollbackFk` | src/box/alter.cc:5598-5653 | the whole new cache: the rollback step of the run model |
| `ViewReferences.Counters.Update` | src/box/alter.cc:2142-2183 | all places are counted up to the first name that is missing, or without those; a counter that is lowered is positive, as the source asserts |
| `ViewReferences.Counters.CreateSpace` | src/box/alter.cc:2362-2397 | a view is created if and only if every space that its FROM clauses name is there or is itself; it counts what it names, or is taken back with all counters as they were |
| `ViewReferences.Counters.DropSpace` | src/box/alter.cc:2433-2506 | a space is dropped if and only if no place of a live view names it; a view lowers what it has counted, and every counter that is lowered is positive |
| `ViewReferences.Counters.RenameSpace` | src/box/alter.cc:2558-2566 | a space is renamed if and only if no place of a live view names it; then it has the new name, and all else is as before |
| `ViewReferences.ApplyEffect` | src/box/alter.cc:2362-2566 | every change makes, drops or renames its space and leaves all others as they are, and every counter is right again |
| `ViewReferences.Counters.Rollback` | src/box/alter.cc:2203-2240 | the rollback of a change, in place: the counters and spaces it leaves |
| `ViewReferences.UndoRestores` | src/box/alter.cc:2203-2240 | rollback is the inverse of the change, and every counter that it lowers is positive |
| `ViewReferences.CountersThroughRuns` | src/box/alter.cc:2142-2566 | through every run each counter is the number of live places that name the space, so a space with counter 0 is named nowhere; and the last change can be rolled back, with every counter that is lowered positive |
| `Keywords.Embed` | extra/mkkeywordhash.c:335-350 | the search settles every keyword: an embedded one has a host that is not embedded itself, and every keyword that is part of a longer one is embedded |
| `Keywords.LongestSuffix` | extra/mkkeywordhash.c:352-367 | the longest proper suffix that another keyword begins with |
| `Keywords.FindNext` | extra/mkkeywordhash.c:379-384 | the next keyword of a chain is the one with the longest overlap |
| `Keywords.Chain` | extra/mkkeywordhash.c:377-395 | the overlap loops end; every keyword of the chain can be read from the text at its offset |
| `Keywords.Offsets` | extra/mkkeywordhash.c:372-396 | all keywords that are not embedded get a place |
| `Keywords.EmbeddedOffsets` | extra/mkkeywordhash.c:397-402 | embedded keywords can be read inside their hosts |
| `KeywordText.SortedHosts` | extra/mkkeywordhash.c:404-405 | in the table sorted by offset the keywords stand in the order in which they were laid out |
| `KeywordText.Emit` | extra/mkkeywordhash.c:440-468 | the text is the names of the keywords that are not embedded, in order |
| `KeywordText.Generate` | extra/mkkeywordhash.c:320-475 | for any table of nonempty names: every keyword, embedded or chained, can be read from the emitted text at its offset for its original length |
| `KeywordHash.BestSize` | extra/mkkeywordhash.c:407-423 | the table size with the fewest collisions in the range; if some size of the range has none, the size that is found has none |
| `KeywordHash.ScoreMeans` | extra/mkkeywordhash.c:407-423 | the score of a size is never below the number of keywords, and equal to it if and only if no two keywords share a bucket |
| `KeywordHash.HashSeparates` | extra/mkkeywordhash.c:327-328 | the hash depends on the first and the last character, in any case, and on the length; and words that agree in two of the three have the same hash if and only if they agree in the third |
| `KeywordHash.BuildChains` | extra/mkkeywordhash.c:425-431 | each bucket and each chain link points to the last keyword of the bucket before |
| `KeywordHash.KeywordCode` | extra/mkkeywordhash.c:554-577 | the lookup gives a keyword that matches, or there is none |
| `KeywordHash.Recognize` | extra/mkkeywordhash.c:320-577 | generator and lookup in one: a word gets the code of a keyword exactly if it has at least two characters and is that keyword in any case |
| `KeywordHash.FindsItself` | extra/mkkeywordhash.c:554-577 | finding: a keyword is found under its own name if and only if it has at least two characters, none of them with bit 5 set |
| `Histogram.Midpoint` | src/histogram.c:92 | the midpoint lies in the range and is not its end, so the search ends |
| `Histogram.LookupBucket` | src/histogram.c:77-105 | the bucket of a value, or none beyond the last bound |
| `Histogram.Hist.Collect` | src/histogram.c:107-118 | bucket counts are the live observations per interval |
| `Histogram.Hist.Discard` | src/histogram.c:120-132 | taking an observation out keeps them so, and no count goes below 0 |
| `Histogram.Hist.Reset` | src/histogram.c:68-75 | no observations are left |
| `Histogram.Hist.Percentile` | src/histogram.c:134-146 | the bound of the bucket that holds the percentile of the sorted observations, so an upper bound of it |
| `Histogram.Hist.PercentileLower` | src/histogram.c:148-159 | the bound of the bucket before, strictly below the percentile except in the first bucket and beyond the last |
| `Histogram.PercentileExists` | src/histogram.c:134-159 | below 100 percent, a nonempty set of observations has a percentile, so the two bounds speak of something |
| `Histogram.SortedIsRanked` | src/histogram.c:134-159 | the percentile in terms of counts is the element of the sorted observations |

## Left out

LEMON:

- Reading grammar files, reports and the text of the generated parser: only the tables are modelled.
- The error symbol, wildcards, fallbacks, token classes and error recovery: the parser stops at the first syntax error.
- Destructors, traces, and the C code of reductions: a log of reductions stands for it.
- `qsort` is modelled by the verified merge sort. The comparisons are total orders, so the result is the same.
- The hash tables of symbols, states and configurations: lookup is by value.
- The sort of configurations within a state: item sets do not depend on it.
- Rule numbers are positions in the grammar; the renumbering of rules with code before rules without it is not modelled.
- `minimum_size_type` and the widths of table entries.
- Lemon.Generate: that it reads its tables back, and the reasons for which it refuses, are additions of the model; where the third compression pass fails or does not end, the model says so and stops.
- Conflicts.ResolveConflicts: goes on where an assertion of the source would stop it. `ConflictAssertions.AssertionsHoldExactly` says when that is.
- Driver.YyParser.Recognize: the loop has a bound on its iterations, because reductions need not end for every table. The contract says what a run means that reaches the bound.
- Driver.YyParser.Parse: the stack has at least two places; the fixed stack is modelled, not the growing one.

Keyword table:

- The masks that select keywords, token codes and flags: the code of a keyword is its place in the table.
- The sizes of the text buffer and of the hash array, the widths of the printed arrays, and overflow of the collision scores.
- KeywordText.Generate: names are nonempty, because the hash reads their first and last character.
- KeywordHash.Recognize: names are distinct, as the comparisons of the sort assert; there are at least two, because the search for the table size starts at half their number and divides by it.

Applier:

- The connection, the handshake, heartbeats and acknowledgements.
- The bodies of rows, and what a transaction does to the data: rows are origin, LSN and type.
- The latch of an origin is the same throughout a run: registration of a new replica in the meantime is not modelled.
- The limbo: which origins are outdated is a parameter of each filter call.

Schema changes:

- Access checks, grants, sequences, and the guards of system spaces.
- What the prepare phase builds: it takes time and may fail, and that is all. Objects are numbers; the contents of indexes are not modelled.
- AlterCommits.LockGuards: where the source would go on with a version that is gone, the model has no step. Alters are those of one space.
- AlterTriggers.IndexOps: whether an index must be rebuilt, or may be modified, is a parameter; the guard of indexes that foreign keys use is not modelled.
- Foreign key lists are sets, and constraint names have no types.
- The triggers of check constraints: only their names and their lists are modelled.
- The parsing of views: a view is the list of names that its FROM clauses refer to.

Histogram:

- Printing. Overflow of `count * 100` and negative percentages.

The rest of the repository (storage engines, network, Lua, the SQL virtual machine) is not part of this model.
