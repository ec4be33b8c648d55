# Verified models of the pg_orca query and plan bridge

pg_orca lets the ORCA optimizer plan PostgreSQL queries. Around the optimizer it rewrites
query trees on the way in and plan trees on the way out, and it brings executor nodes of
its own. This project models the parts of that code that must not change what a query
means, and proves that they do not, for all inputs. Where a rewrite does change the
meaning of some input, a lemma shows such an input and another one states which inputs
come out right.

The project is written for Dafny 4.11; `dafny verify dfyconfig.toml` checks all of it.
Nothing of the original was executed.

## Components

| files | component |
|---|---|
| `Values` | SQL values, rows and filters |
| `PlanTree`, `PlanPaths`, `ResultRemoval`, `ResultFixpoint` | plan trees, the paths through them and what they compute; removal of redundant Result nodes |
| `PlanParams`, `PlanHeap` | finalisation of parameter sets; both plan passes on mutable nodes |
| `QueryTree`, `LevelShift`, `DerivedTable` | query trees with nested scopes, CTEs, LATERAL, outer joins, grouping and SubLinks; wrapping a query as a derived table |
| `GroupBySplit`, `GroupByMoves`, `GroupByMeaning`, `GroupByRows`, `GroupByNormalize`, `GroupByCases`, `GroupByMistakes`, `GroupByWitnesses`, `GroupByContext` | flattening the target list of a grouped query |
| `GroupedWindows`, `GroupedWindowsMeaning`, `GroupedWindowsRows`, `GroupedWindowsLimits`, `GroupedWindowsShape`, `GroupedWindowsContext` | separating grouping from window functions |
| `VarMap`, `VarMapMeaning`, `VirtualColumns`, `VirtualColumnsMeaning`, `VirtualColumnsClean`, `VirtualColumnsIndependent` | virtual generated columns |
| `DynScan`, `DynScanNodes`, `ParamSlots` | dynamic partition elimination and the slots it communicates through |
| `PruneSteps`, `PruneMaps` | partition prune steps, partition maps, relations that are never pruned |
| `AggSharing`, `AggSharingMeaning`, `AggSharingExact` | sharing of aggregates and transition states |
| `HashKeys`, `NotIn`, `SetOpChain` | null-safe hash keys, NOT IN as an anti join, n-ary set operations |
| `MdCache` | invalidation of the metadata cache |

Foreign ingredients are parameters of the semantics: catalog functions, operators and
aggregates, window functions, hash functions, PostgreSQL's pruner, the way groups are
ordered. The theorems hold for every choice of them. Recursive rewrites are functions that
return the tree together with the state they thread through (the subquery's target list,
the step list); loops and objects that change state are methods proved equal to these
functions.

## Where the code departs from its purpose

- One pass of Result removal is not always a fixpoint: a collapse can drop the column that
  kept a lower Result in place (`ResultFixpoint.FixpointIff`, `ResultFixpoint.OnePassIsNotEnough`).
- The walk that collects parameters visits only the common fields of a Hash node, so a
  parameter that occurs in a hash key alone is not in its sets
  (`PlanParams.HiddenArrivesIff`, `PlanParams.HashKeyParamIsMissed`).
- Wrapping a query as a derived table leaves `agglevelsup` alone, so an aggregate of an
  outer query changes its meaning (`DerivedTable.LowerIsShiftedIff`, `DerivedTable.OuterAggregateIsLost`).
- When an aggregate moves into the derived table, references out of SubLinks in its
  arguments to queries further out stay unshifted
  (`GroupByMoves.MovedExpr`, `GroupByWitnesses.OuterReferenceIsLost`).
- A derived table in the body of a CTE is entered without raising the level. References
  from inside it to the split query are overlooked, and references to the query one level
  further in are taken for them. The exact conditions are `GroupByMeaning.OutcomeExpr` for
  what stays above, `GroupByMoves.MovedExpr` for aggregate arguments and
  `GroupByMoves.PlacedExpr` for grouping columns; `GroupByWitnesses.MiscountedColumnIsLost`
  is a query that comes out wrong and `GroupByWitnesses.MiscountedColumnIff` says which of
  its kind come out right.
- A grouping column that refers to an outer query is stored below in shifted form and can
  then be mistaken for another outer column (`GroupByMeaning.FoundIff`,
  `GroupByMistakes.SameValueIff`, `GroupByWitnesses.ShiftedGroupingColumnIsMistaken`).
- The `ctelevelsup` of a grouping column is never raised, so a column that reads a CTE of
  the split query or of an outer one looks for it in the wrong query
  (`GroupByMoves.PlacedExpr`, `GroupByWitnesses.GroupedCteIsLost`).
- GROUPING calls in HAVING keep their sort-group references while the subquery's references
  are renumbered (`GroupedWindowsRows.GroupingIff`, `GroupedWindowsLimits.GroupingInHavingIsLost`).
- Relations of subqueries inside expressions are not expanded, although the comment in
  pg_orca.cpp speaks of recursing into subqueries; only derived tables and CTEs are
  (`VirtualColumnsClean.ExpandPureIff`, `VirtualColumnsClean.SubqueryIsMissed`).
- The reset check of the metadata cache compares 64-bit counters and overlooks exactly the
  multiples of 2^64 changes (`MdCache.CheckedCacheIff`, `MdCache.WrapAroundMissesChanges`).

## Model

| member | source | states |
|---|---|---|
| `ResultRemoval.PushDownEval` | compat/utils/remove_redundant_results.cpp:47-78 | substituting the child's list into an expression and evaluating on the child's tuple equals evaluating the expression on the child's projected row |
| `ResultRemoval.PushDownPure` | compat/utils/remove_redundant_results.cpp:116-149 | composing an expression and a list that are free of volatile calls, SubPlans and set-returning functions gives an expression that is free of them |
| `ResultRemoval.CollapseRows` | compat/utils/remove_redundant_results.cpp:228-276 | collapsing one Result onto a projecting child returns the same rows in the same order |
| `ResultRemoval.RemoveWellFormed` | compat/utils/remove_redundant_results.cpp:159-276 | after removal every remaining OUTER_VAR and INNER_VAR, in hash keys and the like too, still points inside its child's target list |
| `ResultRemoval.RemoveWidth` | compat/utils/remove_redundant_results.cpp:228-276 | the tree that takes a node's place has as many columns as the node, and is absent only if the node was |
| `ResultRemoval.RemoveRows` | compat/utils/remove_redundant_results.cpp:159-276 | for every well-formed plan tree and every machine, removal returns exactly the same rows in the same order |
| `ResultFixpoint.FixpointIff` | compat/utils/remove_redundant_results.cpp:228-276 | a second pass changes nothing if and only if no collapse of the first pass drops the only unsafe columns of a bare Result above a projecting child |
| `ResultFixpoint.PlainFixpoint` | compat/utils/remove_redundant_results.cpp:116-149 | one pass is a fixpoint for every tree whose Result lists hold only positive OUTER_VAR references |
| `ResultFixpoint.LeftoverIff` | compat/utils/remove_redundant_results.cpp:159-276 | after the pass a bare Result over a projecting node, with nothing in either list that forbids the collapse, is left at some path of the tree if and only if a collapse dropped the column that kept it |
| `ResultFixpoint.NothingLeft` | compat/utils/remove_redundant_results.cpp:159-276 | in trees whose Result lists hold only positive OUTER_VAR references no superfluous Result is left at any path, below lists of plans too |
| `ResultFixpoint.WorkersConserved` | compat/utils/remove_redundant_results.cpp:228-276 | every node but the bare Results is kept, as often as it occurred, with its operation, quals, init plans, parameter set and other fields |
| `ResultFixpoint.OnePassIsNotEnough` | compat/utils/remove_redundant_results.cpp:228-276 | a three-node tree on which the second pass removes another Result |
| `PlanHeap.Walk` | compat/utils/remove_redundant_results.cpp:228-276 | the walker on mutable nodes leaves a tree whose value is the removal of the old one, within the old footprint |
| `PlanHeap.Absorb` | compat/utils/remove_redundant_results.cpp:244-272 | rewriting the Result's entries one by one and giving them to the child yields the collapsed node; no other field changes |
| `PlanHeap.WalkChildren` | compat/utils/remove_redundant_results.cpp:158-222 | every visited child slot is replaced by its cleaned tree and the node is otherwise unchanged |
| `PlanHeap.SetParamIds` | gpopt/translate/CTranslatorDXLToPlStmt.cpp:659-676 | extParam and allParam become the set of parameters the subtree mentions; nothing else changes |
| `PlanHeap.FinalizeParamIds` | gpopt/translate/CTranslatorDXLToPlStmt.cpp:699-776 | the recursion over the children, in place, yields the finalized tree, with extParam equal to allParam |
| `PlanHeap.ExtractNodes` | compat/utils/walkers.c:401-434 | the list handed through the walk grows by exactly the parameters of the walked expressions |
| `PlanParams.FinalizeCovers` | gpopt/translate/CTranslatorDXLToPlStmt.cpp:699-776 | after finalisation every node's set is exactly what its subtree mentions and contains the sets of all children |
| `PlanParams.MentionedIff` | compat/utils/walkers.c:76-395 | the walk collects a parameter if and only if it occurs in a target list, qual, init plan or other walked field of some node on a path of left, right and listed children |
| `PlanParams.FinalizeOnlySets` | gpopt/translate/CTranslatorDXLToPlStmt.cpp:699-776 | finalisation changes nothing but the parameter sets |
| `PlanParams.ArrivesExactly` | gpopt/translate/CTranslatorDXLToPlStmt.cpp:678-698 | in a covered tree, pushing a change set down by intersection delivers to every node exactly the changed parameters of its own set, hence all it mentions |
| `PlanParams.HiddenArrivesIff` | compat/utils/walkers.c:314-317 | a changed parameter of an unwalked expression arrives if and only if the walked subtree mentions it too |
| `PlanParams.HashKeyParamIsMissed` | compat/utils/walkers.c:314-317 | a hash join hears of a change of the parameter in its condition while the Hash below, whose key has the parameter, does not |
| `PlanParams.RemoveKeepsCoverage` | compat/utils/remove_redundant_results.cpp:228-276 | Result removal keeps every tree covered, enlarges no set and adds no mention of a parameter |
| `PlanParams.ChangesReachEveryMention` | gpopt/translate/CTranslatorDXLToPlStmt.cpp:699-776 | finalise, remove Results, rescan: every node receives every changed parameter its subtree mentions |
| `LevelShift.EvalShift` | gpopt/translate/CQueryMutators.cpp:257-370 | an expression at any depth, shifted for one inserted scope, has the same value in the extended environment |
| `LevelShift.NestedShift` | gpopt/translate/CQueryMutators.cpp:257-370 | the same for the rows of nested queries with CTEs, derived tables, grouping and SubLinks, at every depth |
| `DerivedTable.PassesQuery` | gpopt/translate/CQueryMutators.cpp:257-370 | the two passes together do exactly the level shift if and only if no aggregate belongs to a query outside |
| `DerivedTable.LowerIsShiftedIff` | gpopt/translate/CQueryMutators.cpp:1288-1377 | for every choice of the two flags, what is visited (the target list and HAVING as the flags say) is shifted by one scope and the rest is the original without its CTEs, if and only if no visited part has an aggregate of an outer query |
| `DerivedTable.LowerMeaning` | gpopt/translate/CQueryMutators.cpp:1288-1377 | in every environment the derived table returns the rows of the original query; the moved CTE bodies need no change |
| `DerivedTable.WrapMeaning` | gpopt/translate/CQueryMutators.cpp:1288-1377 | the upper query over all columns returns the rows of the original |
| `DerivedTable.OuterAggregateIsLost` | gpopt/translate/CQueryMutators.cpp:257-316 | a query whose aggregate belongs to the enclosing query returns another row once wrapped |
| `GroupByMoves.MovedExpr` | gpopt/translate/CQueryMutators.cpp:623-887 | at every pair of real and counted depth, the mutator in aggregate-argument mode performs the right shift if and only if each reference is one that the code adjusts or may leave alone, and then appends nothing |
| `GroupByMoves.MovedQuery` | gpopt/translate/CQueryMutators.cpp:623-887 | the same for whole subqueries inside the argument, with the derived tables of CTE bodies that are counted one level too low |
| `GroupByMoves.PlacedExpr` | gpopt/translate/CQueryMutators.cpp:380-540 | in grouping-column mode the mutator performs the right shift if and only if the column holds no outer aggregate, no CTE of this or an outer query, and no Var between the counted and the real depth |
| `GroupByMoves.PlacedQuery` | gpopt/translate/CQueryMutators.cpp:380-540 | the same for whole subqueries inside a grouping column |
| `GroupByMeaning.OutcomeExpr` | gpopt/translate/CQueryMutators.cpp:623-955 | whenever the rewrite does not raise, at every pair of real and counted depth, the result reads from the final lower list what the original denotes, if and only if each of its parts is right in terms of the grouping columns alone |
| `GroupByMeaning.FoundIff` | gpopt/translate/CQueryMutators.cpp:929-955 | the entry that a lookup finds stands for the part looked up if and only if the part does not refer to an outer query |
| `GroupByMeaning.OutcomeQuery` | gpopt/translate/CQueryMutators.cpp:623-955 | the same if and only if for subqueries of the target list |
| `GroupByMeaning.AppendsExpr` | gpopt/translate/CQueryMutators.cpp:623-955 | in every mode the lower list grows at its end and by aggregates of the split query only |
| `GroupByRows.MeanExpr` | gpopt/translate/CQueryMutators.cpp:623-955 | a rewritten expression evaluated on the derived row equals the original on the group |
| `GroupByRows.MeanQuery` | gpopt/translate/CQueryMutators.cpp:623-955 | the same for the rows of rewritten subqueries |
| `GroupByNormalize.GroupPassEntries` | gpopt/translate/CQueryMutators.cpp:196-222 | the first loop extends the lower list at its end by exactly the shifted grouping columns |
| `GroupByNormalize.SplitOutcome` | gpopt/translate/CQueryMutators.cpp:180-248 | if the grouping columns move correctly, both loops together leave upper entries that stand for the originals if and only if every column outside the GROUP BY is right, and a lower list that starts with the grouping columns |
| `GroupByNormalize.ProjectedBelow` | gpopt/translate/CQueryMutators.cpp:180-248 | the derived table forms the same groups and applies HAVING to them alike |
| `GroupByNormalize.NormalizeKeepsRows` | gpopt/translate/CQueryMutators.cpp:67-248 | whenever it does not raise, flattening a query whose grouping columns move correctly and whose other columns are right returns the same rows |
| `GroupByCases.RaisedExpr` | gpopt/translate/CQueryMutators.cpp:623-955 | rewriting an expression raises if and only if it reads a column of the split query that is no grouping column, outside aggregates of the query and parts that are grouping columns, at every counted depth and whatever was rewritten before |
| `GroupByCases.FallbackIff` | gpopt/translate/CQueryMutators.cpp:60-248 | an entry asks for a fallback if and only if a chain of operators leads down to a column of the query past no grouping column |
| `GroupByCases.NormalizeCases` | gpopt/translate/CQueryMutators.cpp:67-248 | exactly which queries come back unchanged, which are refused, and what the others become: a query without grouping over one derived table with the old GROUP BY, whose entries are the grouping columns followed by aggregates |
| `GroupByMistakes.MistakenSum` | gpopt/translate/CQueryMutators.cpp:929-955 | where operators add and columns hold their level, original and rewritten expression differ by the number of outer references in mistaken parts |
| `GroupByMistakes.SameValueIff` | gpopt/translate/CQueryMutators.cpp:929-955 | a rewritten expression has the value of the original in every interpretation and environment if and only if no found part refers to an outer query |
| `GroupByMistakes.BareIsOpen` | gpopt/translate/CQueryMutators.cpp:929-955 | a part without subqueries and aggregates is changed by the shift only if it has a visible outer reference |
| `GroupByMistakes.DeadReferenceIsHarmless` | gpopt/translate/CQueryMutators.cpp:929-955 | an outer reference inside a subquery can be shifted without any effect on its value |
| `GroupByWitnesses.OuterReferenceIsLost` | gpopt/translate/CQueryMutators.cpp:646-676 | SELECT sum(t.y + (SELECT o.x)) + 1 returns another row after normalization |
| `GroupByWitnesses.ShiftedGroupingColumnIsMistaken` | gpopt/translate/CQueryMutators.cpp:929-955 | SELECT o.x, p.x + 1 FROM t GROUP BY o.x returns another row after normalization |
| `GroupByWitnesses.GroupedCteIsLost` | gpopt/translate/CQueryMutators.cpp:380-531 | a query that groups by a subquery over its own CTE returns another row after normalization |
| `GroupByWitnesses.MiscountedColumnIsLost` | gpopt/translate/CQueryMutators.cpp:808-823 | a grouping column read in a derived table inside the CTE of a subquery is NULL after normalization |
| `GroupByWitnesses.MiscountedColumnIff` | gpopt/translate/CQueryMutators.cpp:808-823 | such a query is split correctly if and only if the grouping column is the first column |
| `GroupByContext.MutatorContext.MutateExpr` | gpopt/translate/CQueryMutators.cpp:623-887 | the mutator with its context updated in place follows the functional rewrite: same result, same lower list, level and mode restored |
| `GroupByContext.MutatorContext.MutateQuery` | gpopt/translate/CQueryMutators.cpp:623-887 | the same for queries, where the level is raised on entry and lowered on exit |
| `GroupByContext.MutatorContext.MakeVarInDerivedTable` | gpopt/translate/CQueryMutators.cpp:889-920 | one entry is appended and the Var returned reads it |
| `GroupedWindowsMeaning.MutateGrows` | compat/utils/misc.c:1911-1950 | the subquery's list keeps its prefix, so earlier Vars stay right, and what is appended is an aggregate, a GROUPING call or a SubLink |
| `GroupedWindowsMeaning.SameBits` | compat/utils/misc.c:1955-2018 | a GROUPING call with remapped references has the same bits in the subquery |
| `GroupedWindowsMeaning.MutateValue` | compat/utils/misc.c:2025-2118 | a rewritten expression on the subquery's rows, window functions included, equals the original on the groups |
| `GroupedWindowsRows.RemappedRef` | compat/utils/misc.c:1846-1891 | every remapped reference of the subquery's GROUP BY names the grouping expression it named before |
| `GroupedWindowsRows.SubColumns` | compat/utils/misc.c:1846-1891 | the subquery has exactly the grouping columns of the original, renumbered from 1 |
| `GroupedWindowsRows.SameContexts` | compat/utils/misc.c:1846-1891 | the subquery forms the same groups, for plain GROUP BY and for every list of grouping sets |
| `GroupedWindowsRows.GroupingIff` | compat/utils/misc.c:1755 | an unmapped GROUPING call keeps its value in every grouping set if and only if its references are safe |
| `GroupedWindowsRows.TransformKeepsRows` | compat/utils/misc.c:1693-1841 | the outer query over the subquery returns the rows of the original, windows included, if GROUPING references in HAVING are safe |
| `GroupedWindowsLimits.MutateRaisesIff` | compat/utils/misc.c:2076-2102 | rewriting raises exactly on a column outside aggregates that is no grouping expression or on a GROUPING reference out of range, whatever was rewritten before |
| `GroupedWindowsLimits.SubLinksAgree` | compat/utils/misc.c:1831-1832 | the final comparison of the SubLink flags can never fail |
| `GroupedWindowsLimits.RefusedIff` | compat/utils/misc.c:1693-1841 | a mixed query is refused if and only if a grouping reference names no target, a grouping set has a reference outside the map, or a target or frame offset cannot be resolved |
| `GroupedWindowsShape.UnchangedIff` | compat/utils/misc.c:1706-1709 | a query is left alone if and only if no target has a window function in any part, or it has no GROUP BY, no grouping sets and no aggregate in any part of the targets or HAVING |
| `GroupedWindowsShape.SplitApart` | compat/utils/misc.c:1693-1841 | after a split the outer query keeps all references and has no grouping, no HAVING and no aggregate, GROUPING call or SubLink; the subquery has no windows, and no window function if and only if no grouping column and no aggregate argument had one |
| `GroupedWindowsLimits.GroupingInHavingIsLost` | compat/utils/misc.c:1755 | a query whose group passes HAVING GROUPING(x) while the subquery made of it drops the group |
| `GroupedWindowsContext.SortGroupTles` | compat/utils/misc.c:1650-1691 | the loop returns the targets that the clauses name, each once and in order, or reports a missing one |
| `GroupedWindowsContext.MaxSortGroupRef` | compat/utils/misc.c:1629-1641 | the loop returns a reference that no other exceeds, 0 for none |
| `GroupedWindowsContext.GroupedWindowContext.Prime` | compat/utils/misc.c:1862-1881 | the loop fills sgr_map with the positions of the grouping columns and the list with the renumbered targets |
| `GroupedWindowsContext.GroupedWindowContext.Init` | compat/utils/misc.c:1846-1891 | the context is primed and both reference lists are remapped, or an out-of-range reference is reported |
| `GroupedWindowsContext.GroupedWindowContext.MapRefList` | compat/utils/misc.c:1977-1994 | every reference is mapped; the bounds check fails exactly for references outside the map |
| `GroupedWindowsContext.GroupedWindowContext.VarFor` | compat/utils/misc.c:1911-1950 | the Var reads the first equal target; only with force is one appended |
| `GroupedWindowsContext.GroupedWindowContext.MutateExpr` | compat/utils/misc.c:2025-2118 | the mutator with its growing list equals the functional rewrite |
| `GroupedWindowsContext.TransformInPlace` | compat/utils/misc.c:1693-1841 | the whole transformation as run step by step equals the functional one |
| `VarMapMeaning.KeepQuery` | pg_orca.cpp:436-482 | replacing Vars by expressions of equal value keeps the rows of queries at every depth |
| `VarMap.SameQueryIff` | pg_orca.cpp:436-482 | the walker that replaces Vars leaves a query as it is if and only if the walker that searches for them finds none, at every depth |
| `VirtualColumns.LiftEval` | pg_orca.cpp:465-470 | a generation expression raised to a Var's level evaluates on the row the Var refers to |
| `VirtualColumns.ReplacementFaithful` | pg_orca.cpp:455-480 | replacing a virtual column by its expression keeps the value wherever rows satisfy the catalog, and Vars that an outer join may null are left alone |
| `VirtualColumns.FilledIsComputed` | pg_orca.cpp:455-480 | every relation has a row of NULLs and generated values that can stand in for a missing one below an outer join |
| `VirtualColumns.ExpandInPlace` | pg_orca.cpp:484-566 | the loops that reassign the query and its lists equal the functional expansion, fallback flag included |
| `VirtualColumns.ExpandOwnInPlace` | pg_orca.cpp:519-563 | the loop over the range table reassigns the query once per relation with virtual columns and accumulates the flag |
| `VirtualColumnsMeaning.ReplaceKeepsRows` | pg_orca.cpp:519-563 | expanding the columns of one relation keeps the rows of the query that owns it |
| `VirtualColumnsMeaning.ExpandKeepsRows` | pg_orca.cpp:484-566 | the whole expansion keeps the rows, at every depth of derived tables and CTEs, with outer joins and LATERAL references |
| `VirtualColumnsClean.FallbackIff` | pg_orca.cpp:462-468 | the fallback flag is raised if and only if an outer join may null a virtual column that is read, in the query, a derived table or a CTE without grouping sets |
| `VirtualColumnsClean.ExpandClean` | pg_orca.cpp:484-566 | without a fallback no Var names a virtual column of the query's own range table, at any depth, for every query without grouping sets, and so for derived tables and CTEs |
| `VirtualColumnsClean.ExpandLeaks` | pg_orca.cpp:484-510 | the expansion neither removes nor adds a reference of a subquery of an expression, wherever it stands, or of a query with grouping sets to its own virtual columns |
| `VirtualColumnsClean.ExpandPureIff` | pg_orca.cpp:484-566 | without a fallback no query of the expanded tree, subqueries of expressions included, references a virtual column of its own, if and only if no such subquery and no query with grouping sets did before |
| `VirtualColumnsIndependent.ExpandedIsIndependent` | pg_orca.cpp:484-566 | such an expanded query returns the same rows whatever the virtual columns hold |
| `VirtualColumnsIndependent.ExpandedMeansGenerated` | pg_orca.cpp:484-566 | over tables that hold anything in the virtual columns, the expanded query returns the rows of the original over the same tables with the generated values in place |
| `VirtualColumnsClean.SubqueryIsMissed` | pg_orca.cpp:484-510 | an EXISTS subquery over a virtual column, under any operator, comes out unexpanded without a fallback |
| `VirtualColumnsClean.NulledReplacementIsWrong` | pg_orca.cpp:462-468 | replacing a Var that a left join nulls by a constant generation expression changes the rows; such a query is one that falls back |
| `DynScan.FindPartitionIff` | compat/executor/dyn_scan.c:263-312 | the search finds a partition exactly when its hash, list or range bounds accept the value |
| `DynScan.StaticPartsSound` | compat/executor/dyn_scan.c:482-564 | for every sound answer of the pruner, also the empty one and when pruning is skipped, scanning the static set returns the whole table as seen through the qual; where pruning applies the set is exactly the answer |
| `DynScan.FinalizedCovers` | compat/executor/dyn_scan.c:363-404 | a finalized shared set covers every inner row of the current pass |
| `DynScan.UnfinalizedPass` | compat/executor/dyn_scan.c:665-702 | a scan that starts before the selector finished prunes nothing but statically excluded partitions |
| `DynScan.StartsWithWanted` | compat/executor/dyn_scan.c:665-702 | in every legal run a pass that starts fixes exactly the partitions that an inner row asks for, or all of them before the selector has ended, as far as the pruner kept them |
| `DynScan.OnlyWantedRows` | compat/executor/dyn_scan.c:659-820 | in every legal run the rows of a pass are, in order, a prefix of the qualifying rows of the partitions wanted when it started, and of no others |
| `DynScan.ConvertedColumn` | compat/executor/dyn_scan.c:801-804 | a row has the columns of the root table, each read from where the partition keeps it |
| `DynScan.StepKeepsInv` | compat/executor/dyn_scan.c:363-896 | every step of the protocol keeps the invariant that the rows returned and to come have every match of the pass |
| `DynScan.EliminationKeepsJoin` | compat/executor/dyn_scan.c:659-896 | in every legal interleaving, once the scan has ended the join over its rows equals the join over all partitions, row for row and in order |
| `DynScan.FullPass` | compat/executor/dyn_scan.c:659-820 | passes that start while the selector is not finalized return each qualifying row exactly once |
| `DynScan.StaleScanLosesRows` | compat/executor/dyn_scan.c:421-449 | a run in which only the selector is rescanned and the join loses a row |
| `DynScanNodes.GetOrCreate` | compat/executor/dyn_scan.c:338-349 | whichever node begins first creates the slot's state; the other one gets the same object |
| `DynScanNodes.PartitionSelector.Exec` | compat/executor/dyn_scan.c:363-404 | one call is one selector step: the row is passed on and its partition and the default partition are approved, or the set is finalized |
| `DynScanNodes.PartitionSelector.Rescan` | compat/executor/dyn_scan.c:421-449 | the shared set is emptied and no longer final |
| `DynScanNodes.DynamicTableScan.Start` | compat/executor/dyn_scan.c:665-702 | the set of partitions is fixed from the shared and the static set as the protocol says |
| `DynScanNodes.DynamicTableScan.Exec` | compat/executor/dyn_scan.c:659-820 | one call is one scan step: it returns the first of the rows to come, converted to the root's columns, and leaves the others |
| `DynScanNodes.DynamicTableScan.OpenNext` | compat/executor/dyn_scan.c:775-790 | opening the next approved partition loses no row; without one the pass has ended |
| `DynScanNodes.NextQualifying` | compat/executor/dyn_scan.c:706-757 | the loop stops at the next tuple that passes the qual, after conversion |
| `DynScanNodes.DynamicTableScan.Rescan` | compat/executor/dyn_scan.c:866-896 | the scan is as after begin |
| `ParamSlots.NoSharedSlot` | gpopt/translate/CContextDXLToPlStmt.cpp:138-144 | no two scans, selectors or CTEs, and no two of different kinds, ever have the same slot; distinct CTEs have distinct plans |
| `ParamSlots.PlanContext.GetParamIdForScanId` | gpopt/translate/CContextDXLToPlStmt.cpp:479-490 | a scan id keeps the slot it got first; a new one gets the next slot |
| `ParamSlots.PlanContext.GetParamIdForSelector` | gpopt/translate/CContextDXLToPlStmt.cpp:466-477 | the same for selector ids |
| `ParamSlots.PlanContext.GetNextParamId` | gpopt/translate/CContextDXLToPlStmt.cpp:138-144 | ids count up with the list of types |
| `ParamSlots.PlanContext.AddSubplan` | gpopt/translate/CContextDXLToPlStmt.cpp:324-330 | the plan is appended and nothing else changes |
| `ParamSlots.PlanContext.RegisterCTEPlan` | gpopt/translate/CContextDXLToPlStmt.cpp:171-191 | the plan id is the 1-based position of the appended plan, and the CTE gets a slot of its own |
| `ParamSlots.PlanContext.GetCTEPlanInfo` | gpopt/translate/CContextDXLToPlStmt.cpp:201-208 | a consumer gets its producer's plan and slot, both valid |
| `ParamSlots.SameSlot` | gpopt/translate/CContextDXLToPlStmt.cpp:479-490 | a selector and a scan translated for one scan id meet in one slot, whatever scans, selectors, parameters, subplans and CTEs are translated in between, and no other scan, selector or CTE has it |
| `PruneSteps.CompileNumbered` | gpopt/translate/CPartPruneStepsBuilder.cpp:173-296 | step ids are positions, and the sources of a combine step are strictly earlier |
| `PruneSteps.CompileResult` | gpopt/translate/CPartPruneStepsBuilder.cpp:173-296 | the last step of a filter computes the filter, whatever was executed before it |
| `PruneSteps.PruneCorrect` | gpopt/translate/CPartPruneStepsBuilder.cpp:270-296 | executing the compiled list and taking the last result equals the recursive evaluation of the filter |
| `PruneSteps.PruneIff` | gpopt/translate/CPartPruneStepsBuilder.cpp:173-296 | executing the compiled list keeps a partition if and only if all operands of an AND, or some operand of an OR, keep it, down to the comparisons |
| `PruneSteps.StepPerNode` | gpopt/translate/CPartPruneStepsBuilder.cpp:173-296 | every comparison and connective has exactly one step; the step of a connective is its last and takes the last results of its operands in order |
| `PruneSteps.CompilesIff` | gpopt/translate/CPartPruneStepsBuilder.cpp:173-296 | compilation raises if and only if the filter has a NOT, another operator or a comparison outside the operator family |
| `PruneSteps.PruneSound` | gpopt/translate/CPartPruneStepsBuilder.cpp:173-296 | executing the step list of a filter keeps every partition with a satisfying row, if every comparison step keeps such partitions |
| `PruneSteps.StepsBuilder.FromFilter` | gpopt/translate/CPartPruneStepsBuilder.cpp:270-296 | the builder with its counter and list appends exactly the steps of the filter, or raises |
| `PruneSteps.StepsBuilder.FromBool` | gpopt/translate/CPartPruneStepsBuilder.cpp:215-268 | operands first, then one combine step over their last ids |
| `PruneMaps.BuildMaps` | gpopt/translate/CPartPruneStepsBuilder.cpp:96-131 | the contents of all four arrays and of present_parts after the one-pointer loop, for any list of survivors |
| `PruneMaps.InverseIff` | gpopt/translate/CPartPruneStepsBuilder.cpp:104-131 | subplan_map is the exact inverse of the survivors if and only if they are strictly ascending and in range |
| `PruneMaps.PresentIsSurvivors` | gpopt/translate/CPartPruneStepsBuilder.cpp:104-131 | for such lists present_parts is the set of the survivors |
| `PruneMaps.ExecParams` | gpopt/translate/CPartPruneStepsBuilder.cpp:137-155 | the loop collects exactly the executor parameters of the comparison steps |
| `PruneMaps.SplitSteps` | gpopt/translate/CPartPruneStepsBuilder.cpp:137-168 | the steps are for run-time pruning if and only if one of them waits for a parameter, else for initial pruning, and the stored parameter ids are exactly those of the comparison steps |
| `PruneMaps.UnprunableRelids` | gpopt/translate/CTranslatorDXLToPlStmt.cpp:302-339 | all range-table indexes minus exactly the mapped leaves of infos that have initial pruning steps |
| `AggSharing.FindCompatibleAgg` | gpopt/gpdbwrappers.cpp:880-941 | the first identical aggregate, or the states of the shareable aggregates with the same inputs; never anything for a volatile call |
| `AggSharing.FindCompatibleTrans` | gpopt/gpdbwrappers.cpp:944-988 | the first listed state with the same functions, type and initial value, and only for a shareable aggregate |
| `AggSharing.AggContext.FillInfo` | gpopt/translate/CTranslatorDXLToPlStmt.cpp:3120-3222 | the numbers and the two lists after one call |
| `AggSharing.AggContext.FillAllInfos` | gpopt/translate/CTranslatorDXLToPlStmt.cpp:3120-3222 | the numbers of all calls and the two lists after a whole plan |
| `AggSharing.FillKeepsInv` | gpopt/translate/CTranslatorDXLToPlStmt.cpp:3120-3222 | indexes stay in range, users of a state agree with it on inputs, functions and initial value, and a state whose user is not shareable has no other |
| `AggSharing.SharedByShareable` | gpopt/gpdbwrappers.cpp:926-934 | a state with two or more aggregates has only shareable ones |
| `AggSharing.RestNumbered` | gpopt/translate/CTranslatorDXLToPlStmt.cpp:3120-3222 | the numbers of every call point to an aggregate that stands for it and stay right as later calls are translated |
| `AggSharingMeaning.FinishPristine` | gpopt/gpdbwrappers.cpp:868-872 | no final function sees a state that another one has spoiled |
| `AggSharingMeaning.SharingKeepsResults` | gpopt/translate/CTranslatorDXLToPlStmt.cpp:3120-3222 | for every sequence of calls, volatile ones included, each call gets from the shared computation the result it would get alone |
| `AggSharingExact.SameAggIff` | gpopt/gpdbwrappers.cpp:880-941 | in every sequence of calls two get the same aggregate if and only if they are equal and not volatile |
| `AggSharingExact.SameTransIff` | gpopt/gpdbwrappers.cpp:944-988 | in every sequence of calls one gets the transition state of an earlier one if and only if it is not volatile and either the two are equal, or they have the same inputs, functions, type and initial value, both are shareable, and the earlier one is not volatile or the first such call |
| `HashKeys.TranslateHashKeys` | gpopt/translate/CTranslatorDXLToPlStmt.cpp:1788-1947 | the original conditions are the hash clauses, and all keys of both sides are wrapped if and only if some clause is null-safe |
| `HashKeys.MatchingHashesIff` | gpopt/translate/CTranslatorDXLToPlStmt.cpp:1657-1697 | for any list of clauses, a pair that satisfies them has no NULL hash, and the same hashes on both sides if and only if the zeros hash equally in every clause in which it has NULLs |
| `HashKeys.MatchingHashes` | gpopt/translate/CTranslatorDXLToPlStmt.cpp:1657-1697 | a pair that satisfies the clauses has no NULL hash and the same hashes on both sides |
| `HashKeys.HashJoinCorrect` | gpopt/translate/CTranslatorDXLToPlStmt.cpp:1788-1954 | for every mix of equality and IS NOT DISTINCT FROM clauses the bucketed join with recheck finds, in order, exactly the rows of the nested loop |
| `HashKeys.DifferentZerosLoseNulls` | gpopt/translate/CTranslatorDXLToPlStmt.cpp:1657-1697 | zeros that hash differently lose two NULLs that are not distinct |
| `HashKeys.PlainKeysLoseNulls` | gpopt/translate/CTranslatorDXLToPlStmt.cpp:1647-1655 | without the wrapping two NULLs that are not distinct are never found |
| `NotIn.WrapQuals` | gpopt/translate/CTranslatorDXLToPlStmt.cpp:2402-2414 | every cell of the list is overwritten by its IS NOT FALSE form |
| `NotIn.WrappedPassesIff` | gpopt/translate/CTranslatorDXLToPlStmt.cpp:2396-2401 | wrapping each conjunct equals wrapping the conjunction |
| `NotIn.AntiJoinIsNotIn` | gpopt/translate/CTranslatorDXLToPlStmt.cpp:2394-2415 | for every outer row, inner bag and list of three-valued conjuncts the anti join keeps the outer row if and only if NOT IN is TRUE |
| `NotIn.PlainAntiJoinDiffers` | gpopt/translate/CTranslatorDXLToPlStmt.cpp:2396-2401 | without the wrapping an UNKNOWN comparison keeps a row that NOT IN rejects |
| `SetOpChain.TranslateSetOp` | gpopt/translate/CTranslatorDXLToPlStmt.cpp:4538-4691 | raises exactly on too few inputs, quals, misaligned columns, an unknown kind or an incomparable type, and otherwise builds the left-deep chain in input order |
| `SetOpChain.CheckColumns` | gpopt/translate/CTranslatorDXLToPlStmt.cpp:4547-4607 | the checks pass if and only if every input has the right number of columns and none is a junk column or has another type or collation |
| `SetOpChain.Clamp` | gpopt/translate/CTranslatorDXLToPlStmt.cpp:4685-4686 | the number of groups is the row estimate rounded down, kept between 1 and the largest 64-bit integer |
| `SetOpChain.ChainIsClosedForm` | gpopt/translate/CTranslatorDXLToPlStmt.cpp:4633-4691 | for n >= 2 inputs every row occurs exactly as often as in the n-ary INTERSECT or EXCEPT, with and without ALL |
| `SetOpChain.IntermediateBound` | gpopt/translate/CTranslatorDXLToPlStmt.cpp:4647-4662 | every intermediate result is a part of the first input and so no larger |
| `SetOpChain.Chain` | gpopt/translate/CTranslatorDXLToPlStmt.cpp:4647-4691 | every node but the last takes the first input's row estimate and the last the total; every node has the number of groups of the first input, and every right input its own estimate |
| `MdCache.RunKeepsInv` | gpopt/gpdbwrappers.cpp:2929-2952 | in every run the counters differ by the changes counted since the last check, modulo 2^64, and nothing is cached before the callbacks are registered |
| `MdCache.NeedsResetIff` | gpopt/gpdbwrappers.cpp:3021-3044 | the check asks for a reset if and only if the number of changes since the last check is not a multiple of 2^64 |
| `MdCache.CheckedCacheIff` | gpopt/utils/COptTasks.cpp:579-602 | in every run and for every eviction, after the check the cache agrees with the catalog if and only if what a new quota leaves of it did before or a reset was due |
| `MdCache.CheckedCacheIsCurrent` | gpopt/utils/COptTasks.cpp:579-602 | in every run with fewer than 2^64 changes between checks, once the check has run every cached object was loaded after the latest change, and the quota is the configured one |
| `MdCache.OpenIff` | gpopt/utils/COptTasks.cpp:579-749 | in every run there is a cache if and only if an optimization was started since the last failure and the last end with caching off |
| `MdCache.CachedIff` | gpopt/utils/COptTasks.cpp:579-749 | in every run an object is cached if and only if it was loaded and since then neither evicted nor swept away by a reset, a failure or an end with caching off |
| `MdCache.WrapAroundMissesChanges` | gpopt/gpdbwrappers.cpp:3031-3034 | a run of 2^64 changes after which the check leaves an outdated object in the cache |
| `MdCache.OptimizerCache.MDCacheNeedsReset` | gpopt/gpdbwrappers.cpp:3021-3044 | registers the callbacks on the first call, answers whether the counters differ and makes them equal |
| `MdCache.OptimizerCache.CatalogChanged` | gpopt/gpdbwrappers.cpp:2933-2951 | counts a change once the callbacks are registered |
| `MdCache.OptimizerCache.OptimizeTask` | gpopt/utils/COptTasks.cpp:579-749 | initialises, resets or resizes the cache, and empties it after a failure or when caching is off |

## Left out

- NormalizeHaving, NormalizeWindowProjList, EliminateDistinctClause and ReassignSortClause of gpopt/translate/CQueryMutators.cpp: they would only repeat the wrapping that is proved here.
- FlattenJoinAliasVar, generate_alternate_vars and join alias Vars: expressions are compared as they are.
- GroupingFunc nodes, and the FILTER, ORDER BY and direct arguments of aggregates, in the mutators of gpopt/translate/CQueryMutators.cpp: aggregates there have plain arguments.
- Recursion of transformGroupedWindows into subqueries, references from a grouped-window query to enclosing queries, nested GROUPING SETS, ROLLUP and CUBE nodes (grouping sets are the lists they expand to), DISTINCT, ORDER BY and LIMIT (they act on the proved rows).
- ResultFixpoint.WorkersConserved: assumes that Result nodes have no right child and no list of plans, as in PostgreSQL.
- GroupByNormalize.NormalizeKeepsRows: one direction; for whole queries `Splittable` is proved sufficient; the exact conditions are proved for the target list (`GroupByNormalize.SplitOutcome`) and for the parts that move (`GroupByMoves`), because a wrong column may happen to have the right value.
- GroupByMistakes.SameValueIff: found parts that refer to an outer query do so somewhere outside subqueries and aggregates, and Vars name real columns; `GroupByMistakes.DeadReferenceIsHarmless` shows that inside a subquery the reference may have no effect.
- GroupedWindowsLimits.MutateRaisesIff: does not model generate_alternate_vars, which also finds a grouping expression through the join aliases of a Var.
- GroupedWindowsLimits.RefusedIff: does not model generate_alternate_vars, like MutateRaisesIff.
- GroupedWindowsRows.TransformKeepsRows: one direction in the condition on HAVING; the exact condition is proved for each GROUPING call, because a changed call need not change the rows.
- VirtualColumnsMeaning.ExpandKeepsRows: assumes the scoping rules of SQL: a derived table names only earlier entries, a CTE none, and a query without GROUP BY only inside aggregates. Outer joins are a selection among the combinations of rows that depends on the conditions; the stand-in for a missing row that `Consistent` asks for always exists (`VirtualColumns.FilledIsComputed`).
- VirtualColumnsIndependent.ExpandedIsIndependent: joins and grouping sets are taken to treat rows alike that differ only in virtual columns.
- VirtualColumnsIndependent.ExpandedMeansGenerated: the same, and the scoping rules of ExpandKeepsRows.
- Typmods, resnames, aliases, costs and statistics, apart from the row estimates of set operations.
- DynScan.EliminationKeepsJoin: assumes that calls stop after the end of a pass and that a running scan is rescanned when the selector is; `DynScan.StaleScanLosesRows` shows why the second is needed.
- DynamicTableScan: projection and system columns are left out, partitioning has one level, keys are single columns, and inner and outer key values are equal when they are the same value.
- PostgreSQL's own pruner, bound searches, hash functions and executor: they appear as parameters or through what they promise.
- Nested optimizations inside OptimizeTask, and the memory the cache frees on a reset.
- HashKeys.HashJoinCorrect: assumes that the typed zeros of the two sides of a null-safe clause hash equally; `HashKeys.DifferentZerosLoseNulls` shows that this is needed.
- SetOpChain.TranslateSetOp: nodes are values, each written once; the reuse of the preallocated top node is not modelled.
- Catalog lookups, locking, memory contexts, error plumbing, security quals, Motion, slices and DML translation, the optimizer search itself.
