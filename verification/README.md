# KernelLake in Dafny

A model of the parts of the KernelLake query engine that are hardest to get right, and proofs
that they do what they are for. `dafny verify dfyconfig.toml` checks the whole project.

The centre is one theorem, `QueryExecution.RunQuery`: a logical plan that is rewritten by the
optimizer, narrowed and converted by the physical planner, and executed by the streaming GPU
operators delivers exactly the rows of the logical plan, in the order of its ORDER BY, whatever
the batch boundaries, the number of spill buckets, the hash function and the size estimates;
and it says exactly when the query is refused. `RunLimitedQuery` adds LIMIT, `RunNestedQuery` and
`RunLimitedNestedQuery` joins of subqueries nested to any depth, and `RunPrunedQuery`,
`RunPrunedLimitedQuery`, `RunPrunedNestedQuery` and `RunPrunedLimitedNestedQuery` the skipping of
row groups. Around them stand the pruning checks that decide what need not be read, and the
concurrent pieces that move data.

Some things the code does not get right are stated as such, with an input and the condition
under which the code is right. The condition is exact for demanding positions of an
intermediate result of the scan (`QueryAnnotates`, `PlanQuerySucceeds`; `HavingQueryRejected`),
for reading a derived table through the map of the scan under its dropped projection
(`DroppedColumn`, `ProjectionOwnsColumns`, `ProjectionIsSource`; `DroppedProjectionMisjoins`,
`DroppedProjectionMisreads`), for pruning integers by rounded doubles (`IntPruningExact`,
`IdentityExact`; `FirstWronglySkipped`, `IdentityWronglySkipped`), for counting deleted positions
that are listed twice (`VerdictExact`, `WholeFilesOnly`; `RepeatedListingDropsLiveRow`), and for a
stop request from another thread (`StopStrandsExactly`; `StopDuringNextStrands`).

Forwarding predicates to a scan by name fails in two ways: the name can be that of a derived value
(`DerivedColumnMisprunes`), and the predicate can pass a LIMIT (`LimitMisprunes`). Over projections
of columns the condition is exact: `PruningExact` for one comparison, LIMITs included, and
`ForwardingExact` for any condition. For whole plans it is sufficient (`PrunedQuery`): a name that
is no column of the scan, or a copy of the column of that name, group keys included, with no LIMIT
in between. The converse is false already for a conjunction, whose other conjuncts can rule out
every row that pruning would lose (`ImpliedThoughNotCopied`).

## Parts

| modules | what they model |
|---|---|
| `Relational`, `Distinctness` | row sequences, results as multisets, distinct elements |
| `Expressions`, `Aggregation`, `JoinSemantics`, `LogicalPlans` | SQL values, three-valued expressions, one-shot aggregates, nested-loop joins with NULL equal to NULL, logical plans and their rows |
| `ExpressionMeaning`, `AggregateMeaning`, `JoinMeaning`, `SortOrder`, `PlanMeaning` | what these are on numbers, strings and NULL, pair by pair, group by group and key by key |
| `Simplifier`, `Rewriter`, `OptimizerEffects` | the optimizer's expression and plan rules, and what they achieve |
| `PhysicalPlanner`, `PlannerCorrectness`, `BlockShapes`, `DerivedColumns`, `SingleBlocks`, `RequiredColumns`, `QueryPlanning`, `DerivedSources`, `OrderAndLimit`, `NestedQueries`, `NestedRewrites` | required columns, scan narrowing, index rewriting, join side exchange, derived tables, ORDER BY and LIMIT, and when they keep the rows |
| `Batches`, `PartitionedJoins`, `HashJoins`, `SemiAntiJoins`, `ExpressionCompiler`, `ResidualPredicates` | spilling and bucket-walking joins, compiled expressions |
| `MaterializedExpressions`, `PartialGroups`, `HashAggregates`, `ScalarAggregates`, `FilterOperators`, `SortLimitOperators` | expressions as columns, projection, grouped and scalar aggregation, filtering by masks, sorting and limiting |
| `QueryExecution`, `NestedExecution` | all of the above in one run, for one query block and for any nesting |
| `Rounding`, `ParquetPruning`, `PushedPredicates`, `PrunedQueries`, `PruningLimits`, `PruningCounterexamples`, `PrunedExecution`, `Calendar`, `PartitionPruning` | skipping row groups and data files, alone and inside whole queries |
| `Prefetch`, `FlightServer`, `GpuMemory` | read-ahead, result registry and memory counters under every interleaving |
| `IcebergResolution` | which data files a snapshot consists of |

Operators that change fields step by step are classes whose methods are proved against
specification functions; threads are modelled as atomic steps over a shared state.

## What is assumed

- What the engine hands to its execution library (double arithmetic, casts, LIKE, EXTRACT,
  SUBSTRING, sorting, which group keys survive a group-by) is arbitrary: the fields of
  `Expressions.Kernels`. `ExactDoubles`, `Slices` and `Dates` say where a theorem assumes more. Hash partitioning, joins by index pairs, group-by and distinct are
  used only up to the order of their results.
- `WellTyped`, `PlanTyped`: what the binder establishes, such as Boolean operands of AND and
  operands of floating arithmetic already cast to floating type. `IntegerFoldUnderFloatType`
  shows exactly what goes wrong without the latter.
- `Conforms`, `PlanReadsTyped`, `InRange`: rows are as wide and as typed as their schema, and
  column indices are in range.
- `GoodQuery`: a query block over a join tree of scans. Where something stands over a derived
  table and the planner would re-index it, the columns it reads must keep their positions
  (`DerivedByPosition`: an aggregation, a new field name, or the items read in their own places).
  `DroppedColumn` is the exact condition, `DroppedProjectionMisreads` a query outside it.
- `Query`: the same for queries of any nesting; a subquery that is joined must keep all its columns
  in place (`Sealed`; over a scan block `ProjectionIsSource` is the exact condition).
- `Plain`: a table has the same rows whatever predicates are attached to its scan. Without it, what a
  scan reads depends on the predicates attached to that scan, as `Pruned` says.
- `Truthful`: row-group statistics are of columns of the table and bound the rows of the group.
- `LibrarySorts`: the library sorts stably by the keys and directions it is handed, NULLs last
  ascending and first descending. It is used only where the order of rows is promised.
- `IeeeConversion`, `CastsTransparent`: mixed comparisons convert integers to the nearest
  double, and the casts dropped by `unwrap_cast` preserve value and order.
- `Precise`: a strict comparison of integers is pruned only with literals that rounding keeps
  apart from their neighbours. `IntPruningExact` and `IdentityExact` show this is exactly what
  is needed.
- `Resolvable`: a predicate forwarded to a scan names no column of it, or is on a copy of the column
  it names and has passed no LIMIT. `DerivedColumnMisprunes` and `LimitMisprunes` show why.
- `Steady`, `Exact`: where a predicate on a scan column passes a sort below a LIMIT, or the order of
  rows is to be kept, sorting commutes with leaving rows out. The library's sort does
  (`PrunedStably`), and queries without an inner LIMIT need neither.

## Where code and comments differ

- `SemiAntiJoinOperator::ensure_partition_built` never sets its flag after loading a non-empty
  bucket, so every call loads the bucket again; the model does the same and the result does
  not change.
- `annotate_scan` excludes only a projection or a HAVING sitting directly on an aggregation from
  what it demands of the scan. ORDER BY above an aggregation, the select list above HAVING or
  above a LIMIT moved below it, and anything above a derived table are demanded by position all
  the same, and can run off the schema. `QueryAnnotates` gives the exact condition for every
  query block; `OrderByOverAggregate`, `SelectOverHaving` and `LimitOverAggregate` are instances.
- `identity_boundary` is described as reached for every subquery joined; it is not when the
  subquery's projection has been dropped, and then the scan's map is used.
- Partition pruning treats an identity partition value as exact under strict comparisons; on
  64-bit integers that holds only for literals that rounding keeps apart from their neighbours.

## Model

| member | source | states |
|---|---|---|
| `ExpressionMeaning.LogicOnScale` | src/optimizer/optimizer.cpp:147-178 | AND is the lower and OR the higher of two truth values on the scale FALSE, unknown, TRUE, and NOT turns the scale around |
| `ExpressionMeaning.IntegersCompare` | src/optimizer/optimizer.cpp:102-119 | each comparison of two integers is the comparison of the numbers |
| `ExpressionMeaning.StringsCompare` | src/execution_gpu/expression_compiler.cpp:30-56 | strings compare by the first place where they differ, a prefix coming first |
| `ExpressionMeaning.DoublesCompare` | src/execution_gpu/expression_compiler.cpp:30-56 | each comparison of two doubles is the comparison of the numbers |
| `ExpressionMeaning.TruthsCompare` | src/execution_gpu/expression_compiler.cpp:30-56 | FALSE comes before TRUE |
| `ExpressionMeaning.MixedCompare` | src/execution_gpu/expression_compiler.cpp:30-56 | an integer compared with a double is converted first, on either side |
| `ExpressionMeaning.NullCompares` | src/execution_gpu/expression_compiler.cpp:30-56 | comparing or calculating with NULL gives NULL |
| `ExpressionMeaning.IntegersCalculate` | src/optimizer/optimizer.cpp:78-100 | integer arithmetic is exact where it fits 64 bits, and division truncates toward zero |
| `ExpressionMeaning.SixtyFourBits` | src/optimizer/optimizer.cpp:78-100 | integers that fit are those from -2^63 to 2^63 - 1 |
| `ExpressionMeaning.DoublesCalculate` | src/optimizer/optimizer.cpp:196-216 | each double operation takes its operands in order |
| `ExpressionMeaning.BetweenMeans` | src/optimizer/optimizer.cpp:126-145 | BETWEEN includes both ends |
| `ExpressionMeaning.SubstringMeans` | src/execution_gpu/projection_operator.cpp:72-81 | SUBSTRING counts characters from 1 |
| `ExpressionMeaning.LikeMeans` | src/execution_gpu/filter_operator.cpp:150-173 | NOT LIKE is the opposite of LIKE, and both are unknown on NULL |
| `ExpressionMeaning.ExtractMeans` | src/execution_gpu/projection_operator.cpp:65-71 | EXTRACT yields the part of the date that it names |
| `ExpressionMeaning.NullPasses` | src/execution_gpu/expression_compiler.cpp:30-56 | NULL passes through casts and negation |
| `ExpressionMeaning.WhereNull` | src/execution_gpu/filter_operator.cpp:214-245 | WHERE c IS NULL keeps exactly the rows whose column c is NULL, and WHERE c IS NOT NULL the others |
| `ExpressionMeaning.WhereCompared` | src/execution_gpu/filter_operator.cpp:214-245 | WHERE c op v keeps exactly the rows whose column c is related to v as op says; NULL is related to nothing |
| `PlanMeaning.JoinNode` | src/execution_gpu/hash_join_operator.cpp:135-182 | the rows of an inner join node are the concatenations of a left and a right row whose key columns hold the same value |
| `PlanMeaning.JoinNodeCounted` | src/execution_gpu/hash_join_operator.cpp:135-182 | how often each row occurs in a join node of any type, by its own keys and residual condition |
| `PlanMeaning.ProjectNode` | src/execution_gpu/projection_operator.cpp:37-211 | column j of row i of a select list is item j on row i |
| `PlanMeaning.GroupNode` | src/execution_gpu/hash_aggregate_operator.cpp:497-591 | a row of an aggregation is a key that occurs, followed by every aggregate over the rows with that key |
| `PlanMeaning.WholeNode` | src/execution_gpu/scalar_aggregate_operator.cpp:395-407 | an aggregation without keys has exactly one row, even over no rows, with each aggregate over all of them |
| `PlanMeaning.SortAndLimitNodes` | src/execution_gpu/sort_operator.cpp:31-94 | ORDER BY rearranges its rows into the order asked for, and LIMIT takes the first of them |
| `Simplifier.Simplify` | src/optimizer/optimizer.cpp:126-284 | terminates although a BETWEEN is expanded and simplified again; no BETWEEN is left in the result |
| `Simplifier.SimplifyPreserves` | src/optimizer/optimizer.cpp:126-284 | the simplified expression has the same value as the original on every row, under three-valued logic |
| `Simplifier.SimplifyTyped` | src/optimizer/optimizer.cpp:126-284 | the simplified expression is well-typed and of the same kind (Boolean, floating) as the original |
| `Simplifier.FoldBinaryPreserves` | src/optimizer/optimizer.cpp:147-230 | folding AND/OR with a literal, integer and double arithmetic and comparisons keeps the value, overflow and division by zero being left alone |
| `Simplifier.IntegerFoldUnderFloatType` | src/optimizer/optimizer.cpp:186-192 | two integer literals under a floating result type: folding keeps the value if and only if a foldable division leaves no remainder |
| `OptimizerEffects.SimplifySettles` | src/optimizer/optimizer.cpp:126-284 | nothing is left to fold at any depth: no BETWEEN, no truth value under AND, OR or NOT, no double negation, no constant calculation or comparison |
| `Rewriter.ClassifyConjuncts` | src/optimizer/optimizer.cpp:513-541 | the loop that sorts conjuncts into left, right and remaining ones is the split the proofs are about |
| `Rewriter.SplitPreserves` | src/optimizer/optimizer.cpp:513-561 | filtering a join is joining the filtered sides and filtering by the rest; right-side conjuncts move only below an inner join |
| `Rewriter.Rewrite` | src/optimizer/optimizer.cpp:575-685 | terminates although it re-enters itself on its own output: the number of non-filter nodes is kept, a non-filter root stays one, no two filters stay stacked at the root |
| `Rewriter.PushThroughJoin` | src/optimizer/optimizer.cpp:513-561 | keeps the number of non-filter nodes and never leaves two stacked filters at the root |
| `Rewriter.PushPreserves` | src/optimizer/optimizer.cpp:513-561 | pushing a condition through an arbitrarily deep join chain keeps the row sequence |
| `Rewriter.InsertLimitPreserves` | src/optimizer/optimizer.cpp:567-573 | a LIMIT moved below projections keeps the row sequence |
| `Rewriter.MergePreserves` | src/optimizer/optimizer.cpp:596-607 | merging two stacked filters into one conjunction keeps the row sequence |
| `Rewriter.RewritePreserves` | src/optimizer/optimizer.cpp:575-685 | for every plan the binder can produce and every table contents the rewritten plan yields the same row sequence |
| `OptimizerEffects.RewriteInPlace` | src/optimizer/optimizer.cpp:513-685 | after rewriting no filter stands on a filter or is the literal TRUE, no conjunct stands over a join that could be tested on one input, and no LIMIT on a select list |
| `OptimizerEffects.RewriteSettled` | src/optimizer/optimizer.cpp:575-685 | after rewriting every expression of the plan is settled |
| `PhysicalPlanner.NarrowColumns` | src/io/physical_planner.cpp:514-550 | the narrowing loop computes the kept columns in schema order and the map from old to new positions |
| `OptimizerEffects.ScanDeliversDemand` | src/io/physical_planner.cpp:514-550 | a narrowed scan delivers exactly the columns demanded of it, and its first where none is |
| `OptimizerEffects.BuildsSmallerSide` | src/io/physical_planner.cpp:640-721 | the hash table of an inner join is built on the smaller side, on the right one where sizes are equal or unknown; other joins build on the right |
| `PlannerCorrectness.RemapPreserves` | src/io/physical_planner.cpp:63-133 | a re-indexed expression means on a narrowed row what the original means on the full row |
| `PlannerCorrectness.ScanFits` | src/io/physical_planner.cpp:492-597 | the column map of a narrowed scan points each surviving column at its position, including the column kept only to count rows |
| `PlannerCorrectness.ResidualCarries` | src/io/physical_planner.cpp:152-181 | a re-indexed residual condition on two narrowed rows is the original condition on the full concatenated row |
| `PlannerCorrectness.InnerSwap` | src/io/physical_planner.cpp:640-721 | exchanging the sides of an inner join and of its output columns gives the same rows |
| `PlannerCorrectness.CombinedFits` | src/io/physical_planner.cpp:640-721 | the column map of a join node is right for swapped and unswapped sides; only inner joins are swapped, and semi and anti joins expose the left side alone |
| `SingleBlocks.BlockDelivers` | src/io/physical_planner.cpp:603-760 | a converted tree of scans, joins, filters and sorts delivers the logical rows, gathered through its column map |
| `SingleBlocks.SortDelivers` | src/io/physical_planner.cpp:811-843 | a sort over such a tree delivers its rows, and its re-indexed keys and directions are on every delivered row the values of the original keys on the logical row |
| `SingleBlocks.ConvertPreserves` | src/io/physical_planner.cpp:599-848 | for every LIMIT-free query block whose nodes read at their own positions the columns they read of a derived table, the converted plan yields the rows of the logical plan, as a multiset |
| `DerivedColumns.DroppedColumn` | src/io/physical_planner.cpp:774-776 | over a projection dropped as an identity, column i of a derived table is looked up at its own position if and only if select item i was column i of the block below |
| `DerivedColumns.ProjectionOwnsColumns` | src/io/physical_planner.cpp:412-450 | over a scan block, all columns of a derived table are looked up at their own positions, and no others, if and only if its projection survives or every item is the column of its own position |
| `DerivedColumns.PositionsOwned` | src/io/physical_planner.cpp:474-490 | what a caller can check on the logical plan (an aggregation, a new field name, or the items read in their own places) makes the planner look the columns read up at their own positions |
| `DerivedColumns.ConvertedNames` | src/io/physical_planner.cpp:742-809 | conversion invents no field name |
| `RequiredColumns.BlockConverts` | src/optimizer/optimizer.cpp:694-799 | below any demand, every column read by a filter, sort, join key or residual is kept by the scans, so conversion meets no pruned column |
| `RequiredColumns.SingleBlockConverts` | src/optimizer/optimizer.cpp:694-799 | conversion of an annotated in-range query block, LIMITs and WHERE over derived tables included, never reaches an internal-error branch |
| `RequiredColumns.AnnotateMeaning` | src/optimizer/optimizer.cpp:694-799 | annotating scans does not change what a plan yields |
| `RequiredColumns.BlockAnnotates` | src/optimizer/optimizer.cpp:787-799 | annotating an in-range scan block succeeds if and only if every demanded index is below its full width, the hidden right side of a semi or anti join included |
| `RequiredColumns.QueryAnnotates` | src/optimizer/optimizer.cpp:694-799 | annotating any in-range query block, with joins, WHERE, HAVING, ORDER BY, LIMIT and derived tables, succeeds if and only if every index demanded above its scan block is a column of the block |
| `RequiredColumns.OrderByOverAggregate` | src/optimizer/optimizer.cpp:714-735 | over any join tree, ORDER BY above an aggregation is annotated if and only if its output positions happen to be columns of the scans |
| `RequiredColumns.SelectOverHaving` | src/optimizer/optimizer.cpp:728-735 | the select list above HAVING is annotated if and only if its output positions happen to be columns of the scans |
| `RequiredColumns.LimitOverAggregate` | src/optimizer/optimizer.cpp:567-573 | so is the select list above a LIMIT moved below it, over an aggregation |
| `DerivedSources.JoinOfSources` | src/io/physical_planner.cpp:603-722 | joins of scan blocks, of subqueries whose map is the identity, and of further such joins with WHERE and ORDER BY deliver the logical rows |
| `DerivedSources.QueryOfSources` | src/io/physical_planner.cpp:742-810 | a select list or an aggregation over such a join yields the logical rows |
| `NestedQueries.AnnotatesExactly` | src/optimizer/optimizer.cpp:694-799 | for every in-range plan, joins of subqueries included, push-down succeeds if and only if every position demanded of a scan block, each join splitting its demands between its inputs, is one the block has |
| `NestedQueries.QueryRealizes` | src/io/physical_planner.cpp:599-848 | for queries of any nesting of joins, subqueries, aggregation, HAVING, WHERE and ORDER BY that read their subqueries by position, the converted plan yields the rows of the logical plan, as a multiset |
| `NestedQueries.QueryNames` | src/io/physical_planner.cpp:742-810 | a planned query has the columns it asks for, under their names and in their order |
| `NestedQueries.QueryConverts` | src/optimizer/optimizer.cpp:694-799 | after push-down, converting such a query never reaches an internal-error branch |
| `NestedRewrites.RewriteNested` | src/optimizer/optimizer.cpp:575-685 | rewriting keeps queries of any nesting what they are, filters moved into joined subqueries included: widths, names, positions and index ranges |
| `NestedExecution.BlocksAreQueries` | src/optimizer/optimizer.cpp:803-809 | the query blocks of `RunQuery` are the simplest of these queries, with the same demands |
| `NestedExecution.NestedPlanned` | src/optimizer/optimizer.cpp:803-809 | such a query is planned if and only if its rewritten form demands no position that its scans do not have |
| `NestedExecution.RunNestedQuery` | src/optimizer/optimizer.cpp:803-809 | optimizing, planning and executing such a query delivers exactly its rows, in the order of its ORDER BY; it fails exactly when it demands a position its scans do not have, or an operator refuses its part |
| `NestedExecution.RunLimitedNestedQuery` | src/optimizer/optimizer.cpp:803-809 | with LIMIT n, the first n rows of such an answer |
| `DerivedSources.ProjectionIsSource` | src/io/physical_planner.cpp:412-450 | a subquery's projection over a scan block is such an input if and only if it survives or selects every column in its place |
| `DerivedSources.DroppedProjectionMisjoins` | src/io/physical_planner.cpp:774-776 | a whole left join over a subquery whose projection is dropped: the annotation that arises, and concrete tables on which the physical plan joins on the wrong column and yields other rows |
| `DerivedSources.DroppedProjectionMisreads` | src/io/physical_planner.cpp:474-490 | a whole query with WHERE over such a subquery, planned without complaint, yields the wrong column on a concrete table |
| `SortOrder.SortRowsOrdered` | src/execution_gpu/sort_operator.cpp:58-78 | of any two sorted rows, the first key on which they differ decides: the smaller value first if it is ascending, the larger if not, NULLs last or first |
| `SortOrder.TiesKeepOrder` | src/execution_gpu/sort_operator.cpp:75-76 | rows that tie on every key come out in the order in which they went in |
| `SortOrder.SortOfSelected` | src/execution_gpu/sort_operator.cpp:75-76 | sorting commutes with leaving rows out |
| `OrderAndLimit.ConvertAnswers` | src/io/physical_planner.cpp:599-848 | whatever order execution delivers rows in, a converted query block yields the logical rows, in the order of the original ORDER BY keys if it ends in one, above or below the select list |
| `OrderAndLimit.LimitedQuerySucceeds` | src/optimizer/optimizer.cpp:567-573 | a query with LIMIT is planned if and only if every position its rewritten form demands is a column of the scans |
| `OrderAndLimit.LimitedQueryAnswers` | src/optimizer/optimizer.cpp:567-573 | with LIMIT n, moved below projections, the plan delivers the first n rows of an answer to the query without it, first in its ORDER BY if it has one |
| `OrderAndLimit.LimitPicksRows` | src/io/physical_planner.cpp:845-847 | the planned LIMIT query yields as many rows as the logical one, all of them rows of the query without the LIMIT |
| `QueryPlanning.PlanQuerySucceeds` | src/optimizer/optimizer.cpp:803-809 | a query block is planned if and only if every position its rewritten form demands above the scans is a column of the scans; it suffices that the query as written meets this |
| `QueryPlanning.HavingQueryRejected` | src/optimizer/optimizer.cpp:728-735 | SELECT a, COUNT(*) ... GROUP BY a HAVING COUNT(*) > 1 on a one-column table is well-formed and is not planned |
| `QueryPlanning.PlanQueryPreserves` | src/optimizer/optimizer.cpp:803-809 | if every demanded position is a column of the scans, the query is planned and the plan yields the rows of the original query, as a multiset |
| `OrderAndLimit.QueryAnswers` | src/optimizer/optimizer.cpp:803-809 | and whatever order execution delivers rows in, they are in the order of the query's ORDER BY: the first key on which two rows differ decides, as its direction says |
| `QueryPlanning.PlainQueryPreserves` | src/optimizer/optimizer.cpp:803-809 | a query without aggregation is always planned, and keeps its rows |
| `PartitionedJoins.SpillPartitioned` | src/execution_gpu/spill_partitioned_join.cpp:59-129 | draining a child leaves in each bucket file exactly the rows that hash there, as non-empty batches, and the flags say which buckets have any |
| `PartitionedJoins.BucketRows` | src/execution_gpu/spill_partitioned_join.cpp:59-129 | a row is in the bucket that the value of its key column hashes to |
| `PartitionedJoins.BucketJoinsComplete` | src/execution_gpu/spill_partitioned_join.cpp:59-129 | joining bucket by bucket is joining the whole inputs, for every hash function and every number of buckets |
| `PartitionedJoins.WalkStep` | src/execution_gpu/hash_join_operator.cpp:310-332 | probing one more batch of a bucket splits exactly its rows off what remains |
| `PartitionedJoins.WalkNextBucket` | src/execution_gpu/hash_join_operator.cpp:333-344 | leaving a bucket that is exhausted, or that has no build rows under an inner or semi join, loses nothing |
| `HashJoins.ChoosePartitionCount` | src/execution_gpu/hash_join_operator.cpp:83-105 | between 1 and 64 buckets; 1 exactly when the build side fits the budget or is unknown; otherwise enough that one and a half times the estimate fits, unless capped |
| `HashJoins.FewestPartitions` | src/execution_gpu/hash_join_operator.cpp:83-105 | with one bucket fewer, one and a half times the estimate would not fit |
| `HashJoins.GatherIsJoin` | src/execution_gpu/hash_join_operator.cpp:147-182 | gathering the library's index pairs, sentinels turned into NULLs, is the nested-loop inner or outer join |
| `HashJoins.HashJoinOperator.ProbeOneBatch` | src/execution_gpu/hash_join_operator.cpp:147-182 | joins one probe batch with the built table; no batch exactly when nothing matched |
| `HashJoins.HashJoinOperator.NullExtendBatch` | src/execution_gpu/hash_join_operator.cpp:184-205 | is the outer join of a batch with an empty build side |
| `HashJoins.HashJoinOperator.EnsurePartitionBuilt` | src/execution_gpu/hash_join_operator.cpp:207-226 | the built table holds the current bucket's build rows |
| `HashJoins.HashJoinOperator.Open` | src/execution_gpu/hash_join_operator.cpp:228-256 | afterwards the rows still to come are the nested-loop join of the two inputs |
| `HashJoins.HashJoinOperator.Next` | src/execution_gpu/hash_join_operator.cpp:258-345 | yields a non-empty batch taken out of the rows still to come, resuming mid-bucket, and None exactly when none remain |
| `HashJoins.RunHashJoin` | src/execution_gpu/hash_join_operator.cpp:228-345 | for every batching, bucket count and hash function all batches together are the nested-loop INNER or LEFT OUTER join; every row occurs as often as there are pairs of rows with equal values in their key columns that make it, two NULLs being equal, and as unmatched left rows extended by NULLs |
| `JoinMeaning.JoinMeans` | src/execution_gpu/hash_join_operator.cpp:144 | how often each row occurs in an inner, outer, semi or anti join, counted from the input rows and the values in their key columns |
| `JoinMeaning.InnerJoinRows` | src/execution_gpu/hash_join_operator.cpp:147-182 | a row is in an inner join exactly when it is a left row followed by a right row with the same value in the key column |
| `JoinMeaning.NullKeysJoin` | src/execution_gpu/hash_join_operator.cpp:144 | two rows whose keys are NULL join |
| `ExpressionCompiler.CompileTwoTable` | src/execution_gpu/expression_compiler.cpp:50-71 | the compiled tree means on a pair of rows what the expression means on their concatenation, if the left row is as wide as the split |
| `ExpressionCompiler.CompileOneTable` | src/execution_gpu/expression_compiler.cpp:30-56 | the compiled tree means on a row what the expression means there, including expanded BETWEEN and IS NOT NULL |
| `ExpressionCompiler.CompilesExactly` | src/execution_gpu/expression_compiler.cpp:50-71 | an expression compiles exactly when no subexpression is LIKE, CASE, EXTRACT, SUBSTRING or a cast to anything but a 64-bit number |
| `ResidualPredicates.ResidualReachesKernel` | src/io/physical_planner.cpp:152-181 | the re-indexed and compiled residual condition on two narrowed rows is the original condition on the full rows |
| `SemiAntiJoins.KeepsWhole` | src/execution_gpu/semi_anti_join_operator.cpp:150-225 | a semi join keeps exactly the left rows with a match, an anti join those without, each as often as it occurs |
| `SemiAntiJoins.KeptRows` | src/execution_gpu/semi_anti_join_operator.cpp:150-225 | a row is in a semi join exactly when it is a left row that some right row matches, in an anti join exactly when none does |
| `SemiAntiJoins.SemiAndAntiSplit` | src/execution_gpu/semi_anti_join_operator.cpp:150-225 | the semi and the anti join on one condition split the left input between them |
| `SemiAntiJoins.DistinctPairs` | src/execution_gpu/semi_anti_join_operator.cpp:180-198 | the distinct left indices of the inner pairs are the left rows with a match |
| `SemiAntiJoins.SentinelPairs` | src/execution_gpu/semi_anti_join_operator.cpp:200-224 | the left indices paired with the no-match sentinel are the left rows without a match |
| `SemiAntiJoins.CompiledResidualAgrees` | src/execution_gpu/semi_anti_join_operator.cpp:155-178 | the residual mode picks the left rows that the original condition picks |
| `SemiAntiJoins.SemiAntiJoinOperator.ProbeOneBatch` | src/execution_gpu/semi_anti_join_operator.cpp:150-225 | in all three modes keeps exactly the rows of the batch to keep; no batch when there is none |
| `SemiAntiJoins.SemiAntiJoinOperator.EnsurePartitionBuilt` | src/execution_gpu/semi_anti_join_operator.cpp:91-109 | the built table holds the current bucket's build rows, although the flag that would save a reload stays unset |
| `SemiAntiJoins.SemiAntiJoinOperator.Open` | src/execution_gpu/semi_anti_join_operator.cpp:111-148 | fails exactly when the residual condition cannot be compiled; afterwards the rows still to come are the join |
| `SemiAntiJoins.SemiAntiJoinOperator.Next` | src/execution_gpu/semi_anti_join_operator.cpp:227-315 | yields a batch taken out of the rows still to come, and None exactly when none remain; only an empty left batch passed through by an anti join is empty |
| `SemiAntiJoins.RunSemiAntiJoin` | src/execution_gpu/semi_anti_join_operator.cpp:111-315 | for every batching, bucket count and hash function all batches together are the semi or anti join: a left row occurs as often as on the left if a right row with the same key value, NULL included, satisfies the residual condition with it, or if none does |
| `AggregateMeaning.SumAndCount` | src/execution_gpu/hash_aggregate_operator.cpp:217-331 | SUM, COUNT and COUNT(*) of integers are their sum, how many are not NULL, and how many rows there are |
| `AggregateMeaning.AverageTimesCount` | src/execution_gpu/hash_aggregate_operator.cpp:573-589 | AVG of integers times how many there are is their sum; NULL without any |
| `AggregateMeaning.DoublesSummed` | src/execution_gpu/scalar_aggregate_operator.cpp:258-287 | SUM of doubles is their sum, and AVG times how many there are |
| `AggregateMeaning.ExtremesOfIntegers` | src/execution_gpu/scalar_aggregate_operator.cpp:258-287 | MIN and MAX of integers occur among them and bound all of them |
| `AggregateMeaning.ExtremesOfDoubles` | src/execution_gpu/scalar_aggregate_operator.cpp:258-287 | the same for doubles |
| `AggregateMeaning.ExtremesOfStrings` | src/execution_gpu/scalar_aggregate_operator.cpp:258-287 | MIN and MAX of strings occur among them and bound all of them in dictionary order |
| `AggregateMeaning.DistinctCounted` | src/execution_gpu/hash_aggregate_operator.cpp:515-545 | COUNT(DISTINCT) counts each valid value at its first occurrence |
| `AggregateMeaning.GroupByMeans` | src/execution_gpu/hash_aggregate_operator.cpp:468-494 | GROUP BY has one row for every key that occurs and is kept, with the aggregates over exactly the rows of that key, and no two rows with one key |
| `PartialGroups.RepresentsGrouping` | src/execution_gpu/hash_aggregate_operator.cpp:468-484 | grouping partial results is grouping the rows they stand for |
| `PartialGroups.SummaryOfSummaries` | src/execution_gpu/hash_aggregate_operator.cpp:439-495 | merging any number of partial results, by grouping or by distinct rows, gives the result of one pass over all their inputs |
| `PartialGroups.SummarySize` | src/execution_gpu/hash_aggregate_operator.cpp:488-494 | a result has one row per group, or per distinct (key, argument) pair, and never more rows than its input |
| `MaterializedExpressions.MaterializeCase` | src/execution_gpu/hash_aggregate_operator.cpp:166-188 | folding CASE branches from the last to the first yields the result of the first branch that is TRUE |
| `MaterializedExpressions.CaseIsFirstTrue` | src/execution_gpu/hash_aggregate_operator.cpp:166-188 | the value of a CASE expression is the result of its first TRUE branch |
| `MaterializedExpressions.MaterializeValue` | src/execution_gpu/hash_aggregate_operator.cpp:143-215 | the column built for any compilable nesting of CASE, LIKE, EXTRACT, SUBSTRING and compiled trees holds the value of the expression |
| `MaterializedExpressions.RunProjection` | src/execution_gpu/projection_operator.cpp:37-211 | a whole run fails exactly when a select item does not compile, and otherwise yields the projected rows in order |
| `MaterializedExpressions.AggregatesAccept` | src/execution_gpu/hash_aggregate_operator.cpp:87-141 | an aggregate operator accepts an expression exactly when what is left after taking CASE, LIKE and EXTRACT apart compiles |
| `MaterializedExpressions.ProjectionsAccept` | src/execution_gpu/projection_operator.cpp:37-84 | the projection accepts a value exactly when what is left after taking LIKE, EXTRACT and SUBSTRING apart compiles |
| `MaterializedExpressions.ItemsAccept` | src/execution_gpu/projection_operator.cpp:86-103 | a CASE on top of a select item is accepted exactly when its conditions, results and ELSE are |
| `MaterializedExpressions.SortsAccept` | src/execution_gpu/sort_operator.cpp:18-30 | a sort key is accepted exactly when it compiles |
| `SortLimitOperators.LimitOperator.Next` | src/execution_gpu/limit_operator.cpp:19-38 | splits each batch off the rows still due, cuts the one that exceeds the limit, and reads nothing once the limit is reached |
| `SortLimitOperators.RunLimit` | src/execution_gpu/limit_operator.cpp:9-38 | a whole run yields the first rows of the input and fails exactly on a negative limit |
| `SortLimitOperators.SortOperator.Next` | src/execution_gpu/sort_operator.cpp:31-94 | one batch with all rows in the order of the keys and their directions, or the first of them under a fused limit, then nothing; a limit that leaves nothing does not read the input |
| `SortLimitOperators.RunSort` | src/execution_gpu/sort_operator.cpp:18-94 | a whole run fails exactly when a key does not compile, and otherwise yields the rows, or the first of them, in the order of the keys and their directions |
| `HashAggregates.BuildCombinedColumns` | src/execution_gpu/hash_aggregate_operator.cpp:332-345 | the key and value columns materialized for a batch are those the grouping is specified on |
| `HashAggregates.FinishIsAggregate` | src/execution_gpu/hash_aggregate_operator.cpp:217-331 | each aggregate, decomposed into sums and extremes (COUNT as a sum of ones, AVG as a sum and a count) and finished, is the one-shot aggregate |
| `HashAggregates.FinishColumns` | src/execution_gpu/hash_aggregate_operator.cpp:555-590 | the finishing loop hands every aggregate its own value columns |
| `HashAggregates.CountedDistinct` | src/execution_gpu/hash_aggregate_operator.cpp:515-545 | counting non-NULL arguments per group over the distinct pairs is COUNT(DISTINCT) |
| `HashAggregates.HashAggregateOperator.Open` | src/execution_gpu/hash_aggregate_operator.cpp:241-331 | fails exactly when a group key or an aggregate argument does not compile, or a COUNT(DISTINCT) is combined with another aggregate |
| `HashAggregates.HashAggregateOperator.ProcessBatch` | src/execution_gpu/hash_aggregate_operator.cpp:367-418 | keeps what is held equal to one pass over the rows seen, and the merge cost within twice the rows merged; fails only if the rows seen have too many keys |
| `HashAggregates.HashAggregateOperator.FlushPending` | src/execution_gpu/hash_aggregate_operator.cpp:439-495 | merges everything pending at the cost of one pass over it and the accumulated rows; fails exactly when too many keys result |
| `HashAggregates.HashAggregateOperator.Next` | src/execution_gpu/hash_aggregate_operator.cpp:497-591 | yields the one-shot GROUP BY of the whole input for every batching; fails exactly when the input has more keys than allowed; all merges together read at most three times the partial rows |
| `HashAggregates.RunHashAggregate` | src/execution_gpu/hash_aggregate_operator.cpp:497-591 | a whole run succeeds exactly for compilable, supported aggregates within the key limit, and yields the one-shot GROUP BY |
| `ScalarAggregates.UnguardedForgets` | src/execution_gpu/scalar_aggregate_operator.cpp:262-271 | folding in every batch, without the guard, reduces only what follows the last batch without valid values |
| `ScalarAggregates.GuardUnneeded` | src/execution_gpu/scalar_aggregate_operator.cpp:262-271 | the guard changes nothing when no batch without valid values follows one that has some |
| `ScalarAggregates.UnguardedCountExact` | src/execution_gpu/scalar_aggregate_operator.cpp:240-257 | for COUNT the unguarded fold is the count of everything if and only if no batch without valid values follows one that has some |
| `ScalarAggregates.RunningAppend` | src/execution_gpu/scalar_aggregate_operator.cpp:258-287 | skipping batches without valid values and folding in the others is reducing everything seen |
| `ScalarAggregates.ProcessBatch` | src/execution_gpu/scalar_aggregate_operator.cpp:228-330 | keeps every running state equal to its aggregate over the rows seen |
| `ScalarAggregates.Finalize` | src/execution_gpu/scalar_aggregate_operator.cpp:332-393 | turns a running state into the one-shot aggregate |
| `ScalarAggregates.ScalarAggregateOperator.Open` | src/execution_gpu/scalar_aggregate_operator.cpp:175-202 | fails exactly when there is a COUNT(DISTINCT) or an argument that does not compile |
| `ScalarAggregates.RunScalarAggregate` | src/execution_gpu/scalar_aggregate_operator.cpp:175-407 | a whole run succeeds exactly for compilable arguments without COUNT(DISTINCT), and yields the one-shot row |
| `ScalarAggregates.ScalarAggregateOperator.Next` | src/execution_gpu/scalar_aggregate_operator.cpp:395-407 | one row with every aggregate of the whole input for every batching, then nothing |
| `ScalarAggregates.NullResults` | src/execution_gpu/scalar_aggregate_operator.cpp:332-393 | a COUNT is never NULL; SUM, MIN, MAX and AVG are NULL exactly when there is no valid value |
| `FilterOperators.TryCompileSubstringIn` | src/execution_gpu/filter_operator.cpp:59-116 | recognizes exactly the (negated) OR-chains of one SUBSTRING against string literals, and collects operand, bounds and literals |
| `FilterOperators.SubstringInAgrees` | src/execution_gpu/filter_operator.cpp:175-212 | the folded mask of a recognized chain has the value of the original conjunct, NULL included |
| `FilterOperators.FilterOperator.Open` | src/execution_gpu/filter_operator.cpp:118-148 | fails exactly when some conjunct cannot be evaluated; otherwise the three compiled parts together decide the predicate |
| `FilterOperators.FilterOperator.MaskOf` | src/execution_gpu/filter_operator.cpp:214-236 | masks combined by the NULL-propagating AND are TRUE exactly on the rows that pass every part |
| `FilterOperators.FilterOperator.Next` | src/execution_gpu/filter_operator.cpp:214-245 | yields, in order, exactly the rows on which the whole predicate is TRUE |
| `FilterOperators.RunFilter` | src/execution_gpu/filter_operator.cpp:118-245 | a whole run yields the filtered row sequence |
| `QueryExecution.Execute` | src/execution_gpu/operator_builder.cpp:154-257 | running a LIMIT-free physical plan through the streaming operators succeeds exactly when every expression compiles, every aggregate is supported and the key limits hold, and yields its rows, sorted where it sorts, for every batching, bucket count and hash function |
| `QueryExecution.ExecuteLimited` | src/execution_gpu/operator_builder.cpp:258-280 | a LIMIT is fused into a sort directly below it and run by its own operator otherwise, with the same first rows; a LIMIT 0 does not run its input |
| `QueryExecution.RunQuery` | src/optimizer/optimizer.cpp:803-809 | optimizing, planning and executing a query delivers exactly its rows, in the order of its ORDER BY; it fails exactly when the query demands a position its scans do not have, or an operator refuses its part |
| `QueryExecution.RunLimitedQuery` | src/optimizer/optimizer.cpp:803-809 | with LIMIT n, the first n rows of such an answer |
| `Rounding.RoundMonotone` | src/io/parquet_pruning.cpp:10-18 | the conversion of 64-bit integers to doubles is monotone |
| `Rounding.RoundExact` | src/io/parquet_pruning.cpp:10-18 | the conversion is exact up to 2^53 in magnitude |
| `Rounding.RoundNearest` | src/io/parquet_pruning.cpp:10-18 | the conversion picks the nearest multiple of the power of two that leaves 53 bits, the even one on a tie |
| `ParquetPruning.IntPruningExact` | src/io/parquet_pruning.cpp:59-117 | on an integer column the check is right about every row group if and only if rounding keeps the literal apart from the neighbours a strict comparison admits; always for =, <= and >= |
| `ParquetPruning.SmallLiterals` | src/io/parquet_pruning.cpp:20-39 | literals below 2^53 in magnitude are kept apart |
| `ParquetPruning.FirstWronglySkipped` | src/io/parquet_pruning.cpp:104-108 | at 2^53 a row group holding 2^53 + 1 is skipped for > 2^53 |
| `ParquetPruning.ProvesEmptySound` | src/io/parquet_pruning.cpp:59-117 | a value within the statistics of an excluded range does not satisfy the predicate, for every value type |
| `ParquetPruning.RangeExact` | src/io/parquet_pruning.cpp:59-117 | a row group is skipped by a comparison exactly when no value within its statistics satisfies it, for integers with literals below 2^53, doubles, strings and truth values |
| `ParquetPruning.EvaluatePruning` | src/io/parquet_pruning.cpp:121-150 | every row group is selected or skipped, in file order, and skipped exactly when some predicate excludes it |
| `ParquetPruning.GroupVerdict` | src/io/parquet_pruning.cpp:121-150 | a row group is skipped exactly when some predicate on a column with statistics rules it out, and selected otherwise |
| `ParquetPruning.PushableImplied` | src/optimizer/optimizer.cpp:352-394 | a row on which a condition is TRUE satisfies every predicate collected from it, flipped comparisons included |
| `OptimizerEffects.ComparisonsCollected` | src/optimizer/optimizer.cpp:352-394 | every conjunct that compares a column with a literal, in either order and through casts, is handed to storage |
| `ParquetPruning.PrunedScan` | src/io/parquet_pruning.cpp:121-150 | scanning the selected row groups and filtering is scanning everything and filtering |
| `PrunedQueries.PrunedQuery` | src/io/physical_planner.cpp:552-568 | for every plan, with joins, subqueries, aggregation, HAVING and LIMIT, reading at every scan only the row groups its predicates select keeps the rows, if each forwarded predicate names no column of the scan or is on a copy of the one it names, with no LIMIT in between |
| `PrunedQueries.PrunedSequence` | src/io/physical_planner.cpp:552-568 | it keeps their order too, where no predicate on a scan column passes a sort or sorting commutes with leaving rows out |
| `PrunedQueries.PrunedStably` | src/io/physical_planner.cpp:552-568 | with the library's stable sort it keeps them in every plan, wherever LIMITs and sorts stand |
| `PrunedQueries.PrunedLimit` | src/optimizer/optimizer.cpp:738-739 | a LIMIT above such a plan takes the first rows of some arrangement of its rows |
| `PrunedQueries.GroupOfSelected` | src/optimizer/optimizer.cpp:719-727 | selecting groups by key is grouping the rows selected by key, so a predicate on a copied group key may pass an aggregation |
| `PrunedQueries.AnnotateAttaches` | src/optimizer/optimizer.cpp:694-799 | push-down attaches to every scan exactly the predicates of the filters above it, up to the next join and HAVING apart |
| `PushedPredicates.ProjectExplains` | src/optimizer/optimizer.cpp:728-737 | predicates forwarded through a projection stay true of the rows below where the projection copies the named column |
| `PushedPredicates.FilterExplains` | src/optimizer/optimizer.cpp:696-713 | the rows that pass a filter meet every predicate it forwards on a column of the scan |
| `PruningLimits.PruningExact` | src/optimizer/optimizer.cpp:694-799 | one comparison with a small integer over projections of columns and LIMITs on a scan: pruning is right for every file if and only if the name compared is no column of the table, or what is compared is a copy of that column with no LIMIT below it |
| `PruningLimits.ForwardingExact` | src/optimizer/optimizer.cpp:694-799 | any condition over projections of columns: pruning is right for every file if and only if the condition, as it reads a row through the projections, implies each forwarded predicate on the column of that name |
| `PruningLimits.ImpliedThoughNotCopied` | src/optimizer/optimizer.cpp:352-394 | WHERE b > 10 AND c > 10 over a subquery SELECT a AS b, b AS c: the condition implies what it forwards although the name b is reused for a copy of column a |
| `PrunedExecution.RunPrunedQuery` | src/io/physical_planner.cpp:552-568 | optimizing, planning and executing a query over files, each scan pruned by its own predicates, delivers the rows of the query over the whole files, in the order of its ORDER BY |
| `PrunedExecution.RunPrunedLimitedQuery` | src/io/physical_planner.cpp:552-568 | with LIMIT n, the first n rows of such an answer over the whole files |
| `PrunedExecution.RunPrunedNestedQuery` | src/io/physical_planner.cpp:552-568 | the same for a query of any nesting, joins of subqueries included |
| `PrunedExecution.RunPrunedLimitedNestedQuery` | src/io/physical_planner.cpp:552-568 | and with LIMIT n over it |
| `PruningCounterexamples.DerivedColumnMisprunes` | src/optimizer/optimizer.cpp:719-737 | WHERE v > 10 over a subquery SELECT SUM(v) AS v loses the row it should keep, because the row group of sixes is skipped |
| `PruningCounterexamples.DerivedPredicateReachesScan` | src/optimizer/optimizer.cpp:719-737 | optimizing that query attaches the predicate on the sum to the base column |
| `PruningCounterexamples.LimitMisprunes` | src/optimizer/optimizer.cpp:738-739 | WHERE v > 10 over a subquery ORDER BY v LIMIT 2 returns a row it should not, because the two smaller rows are skipped before the LIMIT |
| `PruningCounterexamples.LimitedPredicateReachesScan` | src/optimizer/optimizer.cpp:738-739 | optimizing that query attaches the predicate to the scan below the LIMIT |
| `PruningCounterexamples.NeitherResolvable` | src/optimizer/optimizer.cpp:694-799 | neither query meets the condition of `PrunedQuery`, whatever the files |
| `Calendar.CivilFromDays` | src/iceberg/partition_pruning.cpp:44-72 | terminates for every integer and returns the year and month the day falls in |
| `Calendar.CivilInverse` | src/iceberg/partition_pruning.cpp:44-72 | going from a date to its day number and back recovers year and month |
| `Calendar.DayNumberIncreasing` | src/common/date_util.cpp:47-67 | day numbers are strictly increasing in (year, month, day) |
| `Calendar.OrdinalsMonotone` | src/iceberg/partition_pruning.cpp:115-121 | month and year ordinals never decrease with the day, on both sides of 1970 |
| `Calendar.MonthsMakeYear` | src/common/date_util.cpp:14-24 | the twelve months of a year add up to its 365 or 366 days |
| `Calendar.ParseIsoDate` | src/common/date_util.cpp:33-69 | accepts exactly the texts that are a valid date of the years 0 to 9999 written as four, two and two digits with hyphens, returns the day number of that date, and the result always fits 32 bits |
| `Calendar.DayNumberClosed` | src/common/date_util.cpp:47-67 | the day number of every date from the years, the leap years counted as every fourth less every hundredth plus every four-hundredth, and a table of month starts |
| `Calendar.GregorianCycle` | src/common/date_util.cpp:14-24 | four hundred years are 146097 days from any date |
| `PartitionPruning.FloorDiv` | src/iceberg/partition_pruning.cpp:80-84 | rounds toward negative infinity |
| `PartitionPruning.ApplyTimeTransform` | src/iceberg/partition_pruning.cpp:91-123 | computes the year, month, day or hour ordinal of a date or timestamp literal, and nothing for other types |
| `PartitionPruning.DateParts` | src/iceberg/partition_pruning.cpp:74-123 | the year, month, day and hour values of a date and of any microsecond of any hour of it, from the date itself |
| `PartitionPruning.ApplyTransform` | src/iceberg/partition_pruning.cpp:130-143 | identity returns the literal, the time transforms its ordinal, every other transform nothing |
| `PartitionPruning.TimeMonotone` | src/iceberg/partition_pruning.cpp:91-123 | every time transform is monotone over all integers |
| `PartitionPruning.TimestampValuesExact` | src/iceberg/partition_pruning.cpp:74-84 | hours and days of a 64-bit timestamp are exact as doubles |
| `PartitionPruning.FieldSound` | src/iceberg/partition_pruning.cpp:203-220 | a row that satisfies a predicate is never in a file that the field excludes |
| `PartitionPruning.IdentityExact` | src/iceberg/partition_pruning.cpp:203-220 | on identity-partitioned integers the check is right about every file if and only if rounding keeps the literal apart from its neighbours |
| `PartitionPruning.IdentityComplete` | src/iceberg/partition_pruning.cpp:168-220 | a file with an identity partition value is skipped exactly when the value does not satisfy the comparison |
| `PartitionPruning.TimeComplete` | src/iceberg/partition_pruning.cpp:183-220 | a file partitioned by a time transform of a timestamp is skipped exactly when no row with its partition value could satisfy the comparison with a literal of that partition value |
| `PartitionPruning.OthersProveNothing` | src/iceberg/partition_pruning.cpp:130-155 | buckets, truncation, unknown transforms and NULL partition values rule no file out |
| `PartitionPruning.SourceColumnFound` | src/iceberg/partition_pruning.cpp:222-229 | a partition field is of the first schema field with its id |
| `PartitionPruning.IdentityWronglySkipped` | src/iceberg/partition_pruning.cpp:203-220 | at 2^53 the file holding 2^53 + 1 is skipped for > 2^53 |
| `PartitionPruning.PartitionValuesProveEmpty` | src/iceberg/partition_pruning.cpp:233-277 | proves a file empty exactly when some partition field and some predicate on its column exclude it |
| `PartitionPruning.PartitionPruningSound` | src/iceberg/partition_pruning.cpp:233-277 | if some row of the file satisfies all predicates, the file is not proved empty; only predicates on time-partitioned columns need the column's type |
| `Prefetch.RunInvariant` | src/execution_gpu/parquet_scan_operator.cpp:140-241 | the invariant holds at every moment of every interleaving of decoding thread, consumer and stop request |
| `Prefetch.DeliveredInOrder` | src/execution_gpu/parquet_scan_operator.cpp:140-241 | at most one chunk is queued and the chunks delivered are a prefix, in order, of the reader's non-empty chunks |
| `Prefetch.EndMeansAll` | src/execution_gpu/parquet_scan_operator.cpp:211-226 | when the end of the stream is reported, every non-empty chunk has been delivered |
| `Prefetch.NoDeadlock` | src/execution_gpu/parquet_scan_operator.cpp:140-241 | the two threads are never both blocked, and until the operator is closed one of them can always take a step: no wakeup is lost |
| `Prefetch.StopBounded` | src/execution_gpu/parquet_scan_operator.cpp:305-339 | after a stop request the decoding thread takes at most two steps per chunk it has left, and three more |
| `Prefetch.StopStrandsExactly` | src/execution_gpu/parquet_scan_operator.cpp:186-193 | a stop request by another thread can leave a consumer inside `next` waiting with no thread to wake it if and only if nothing is queued and the decoding thread has a non-empty chunk in hand or left to read |
| `Prefetch.StrandedForEver` | src/execution_gpu/parquet_scan_operator.cpp:205-226 | a consumer so stranded never leaves that call, whatever wakes it |
| `Prefetch.StopDuringNextStrands` | src/execution_gpu/parquet_scan_operator.cpp:186-193 | such a state is reached: a run to a waiting consumer that a stop by another thread can strand |
| `Prefetch.FragmentScan.Next` | src/execution_gpu/parquet_scan_operator.cpp:252-294 | fragment by fragment, yields the next non-empty chunk extended with the partition values of its own fragment |
| `Prefetch.ExtendedRows` | src/execution_gpu/parquet_scan_operator.cpp:277-289 | a delivered row is a row of the file followed by the partition values of the file |
| `Prefetch.ScanComplete` | src/execution_gpu/parquet_scan_operator.cpp:252-294 | fragment by fragment, as many rows are delivered as the files have |
| `FlightServer.HandlesDistinct` | src/server/flight_sql_server.cpp:140-145 | decimal handles are injective, and no result shares a handle with a prepared statement |
| `FlightServer.HandleForms` | src/server/flight_sql_server.cpp:140-145 | a result handle is q- and a prepared one p-, followed by the decimal numeral of its number |
| `FlightServer.RunKeeps` | src/server/flight_sql_server.cpp:84-255 | the registry invariant holds at every moment of every interleaving of calls |
| `FlightServer.LimitsHold` | src/server/flight_sql_server.cpp:84-158 | stored results and reservations together stay within the limit, the counter is exactly the number of calls holding a reservation, and prepared statements stay within the same limit |
| `FlightServer.HandlesNeverReused` | src/server/flight_sql_server.cpp:140-145 | no two steps of a run issue the same handle, be it for a result or a prepared statement, and a new handle is in neither registry |
| `FlightServer.DeliveredAsStored` | src/server/flight_sql_server.cpp:238-250 | every delivery is of a stored result, as it was stored under its handle |
| `FlightServer.DeliveredOnce` | src/server/flight_sql_server.cpp:238-250 | no two deliveries share a handle |
| `FlightServer.NothingLost` | src/server/flight_sql_server.cpp:238-250 | every result stored is waiting or was delivered, never both |
| `FlightServer.FetchDelivers` | src/server/flight_sql_server.cpp:238-250 | a fetch of a waiting result delivers it and takes it out, and any other changes nothing |
| `FlightServer.GrantedWithRoom` | src/server/flight_sql_server.cpp:103-115 | a call gets its reservation, and a statement is prepared with its text, whenever there is room |
| `FlightServer.PreparedTextRuns` | src/server/flight_sql_server.cpp:212-232 | the result that a call on a prepared statement stores is that of the text the statement was created with, and the statement is found unless it was closed |
| `IcebergResolution.ReadPositionDeleteCounts` | src/iceberg/position_delete_reader.cpp:71-104 | counts the listed positions per data file over all batches, and fails exactly on a NULL path |
| `IcebergResolution.MergeCounts` | src/iceberg/iceberg_table_resolution.cpp:101-104 | adds one delete file's counts to the running totals |
| `IcebergResolution.DropDeleted` | src/iceberg/iceberg_table_resolution.cpp:138-152 | keeps the files without deletes, drops those with at least as many deletes as rows, and fails exactly on a file in between |
| `IcebergResolution.ResolveIcebergTable` | src/iceberg/iceberg_table_resolution.cpp:60-152 | rejects exactly the snapshots with an unreadable live entry or a partly deleted file, and otherwise selects the live files without deletes, in order; that is right about every file if and only if the listings of each are unambiguous |
| `IcebergResolution.ResolvedFiles` | src/iceberg/iceberg_table_resolution.cpp:18-39 | an accepted snapshot resolves to the data files with status existing or added that pruning leaves and no delete file with such a status lists |
| `IcebergResolution.RejectedSnapshots` | src/iceberg/iceberg_table_resolution.cpp:60-152 | a snapshot is rejected exactly for an existing or added entry that cannot be read, or a data file that is listed less often than it has rows |
| `IcebergResolution.OrderIrrelevant` | src/iceberg/iceberg_table_resolution.cpp:60-152 | the order of the manifest list does not matter, neither for rejection nor for the files selected |
| `IcebergResolution.DeadReachesAll` | src/iceberg/iceberg_table_resolution.cpp:140-146 | as many distinct positions listed within the file as it has rows are all its rows |
| `IcebergResolution.VerdictExact` | src/iceberg/iceberg_table_resolution.cpp:138-152 | counting listings keeps, drops or rejects a file rightly if and only if no listing repeats another or lies outside the file, or some row is deleted and such listings are fewer than the live rows or no row is live |
| `IcebergResolution.WholeFilesOnly` | src/iceberg/iceberg_table_resolution.cpp:138-152 | an accepted snapshot keeps exactly the files without a deleted row and drops exactly those without a live row if and only if the listings of each file are unambiguous in this sense |
| `IcebergResolution.RejectionExact` | src/iceberg/iceberg_table_resolution.cpp:138-152 | with unambiguous listings a readable snapshot is rejected exactly when some file has a deleted row and a live row |
| `IcebergResolution.PartialDeletesRejected` | src/iceberg/iceberg_table_resolution.cpp:142-150 | distinct listings within one file are unambiguous, whatever is listed of other files: it is kept, dropped or rejected as its rows are deleted not at all, all or in part |
| `IcebergResolution.RepeatedListingDropsLiveRow` | src/iceberg/iceberg_table_resolution.cpp:101-145 | a snapshot with two delete files that list the same position is accepted and drops a file that still has a live row |
| `GpuMemory.StepKeeps` | src/memory/gpu_memory_metrics.cpp:22-45 | every atomic step keeps the invariant and never lowers the peak |
| `GpuMemory.PeakMonotone` | src/memory/gpu_memory_metrics.cpp:28-36 | the recorded peak never decreases over a run |
| `GpuMemory.PeakExact` | src/memory/gpu_memory_metrics.cpp:28-36 | the peak never exceeds the largest value reached, and equals it whenever no allocation is being recorded |
| `GpuMemory.HighestIsMax` | src/memory/gpu_memory_metrics.cpp:31-32 | no value after an addition exceeds the largest value reached |
| `GpuMemory.HighestReached` | src/memory/gpu_memory_metrics.cpp:31-32 | the largest value reached was the current value after some addition |
| `GpuMemory.StepBalances` | src/memory/gpu_memory_metrics.cpp:22-45 | every atomic step keeps each 64-bit counter equal to what the calls begun so far contribute, less what those in progress still owe it |
| `GpuMemory.CountersExact` | src/memory/gpu_memory_metrics.cpp:22-45 | whenever no call is in progress, allocations, deallocations, total and current bytes are what the calls made so far add up to, modulo 2^64 |
| `GpuMemory.CountersHold64Bits` | src/memory/gpu_memory_metrics.cpp:22-45 | counters keep values below 2^64 and start again from 0 there |
| `GpuMemory.CurrentIsBalance` | src/memory/gpu_memory_metrics.cpp:31-44 | at any moment current bytes are the added minus the subtracted bytes, as long as that fits 64 bits |
| `GpuMemory.RetryMeansRaised` | src/memory/gpu_memory_metrics.cpp:33-36 | a failed exchange, unless spurious, has seen the peak rise |

## Left out

- SQL parsing, binding, subquery decorrelation and logical plan building: logical plans are the input.
- DECIMAL types, nullability flags and field names other than those used to narrow scans.
- Floating-point rounding and NaN in aggregates: SUM and AVG are exact, and the scalar AVG's running sum is not converted to double batch by batch.
- Wrap-around of 64-bit sums in SUM and COUNT.
- Partition columns in `convert_scan`, and the file-level part of table resolution before row groups are evaluated.
- `annotate_scan` updates scan nodes in place; `Annotate` returns a new plan, so aliasing of shared scan nodes is not captured.
- Aggregate expressions inside arbitrary expressions: aggregates occur only as the calls of an aggregation node.
- Selectivity and row-count estimates: an arbitrary function of the plan that only the join side exchange consults.
- `structural_key` of SUBSTRING calls is taken to be structural equality of the expressions.
- Negation compiled as subtraction from zero is kept as a negation.
- The operator that caps batch sizes: batch boundaries are arbitrary throughout.
- A LIMIT inside a subquery in the end-to-end theorems, which cover the LIMIT of the query itself; `RewritePreserves`, `AnnotatesExactly`, `PrunedQuery` and `LimitMisprunes` do cover it.
- A CASE in the ELSE of a CASE of the same type is one CASE with more branches here; written out, the projection operator refuses it.
- The error messages of rejected statements, snapshots and predicates: errors are absence of a result.
- Opening the surviving Iceberg data files and comparing their schemas with the table's.
- Spill files as files: a bucket's file is the sequence of its batches, and I/O errors do not occur.
- Exceptions that are not standard exceptions in the Flight SQL handlers, authentication, and the wire format of tickets.
- The CPU backend, Delta tables, object stores, REST catalog, Avro decoding, configuration, CLI, tracing and metrics export.
- RequiredColumns.BlockConverts: states that the demanded columns are kept, not that no other column is, because the demand above an aggregation is too large by design of the code.
- OrderAndLimit.LimitPicksRows: a LIMIT without ORDER BY may pick other rows than the logical plan's, since row order is not kept by planning.
- PrunedQueries.PrunedQuery: sufficient, not exact, for whole plans; `PruningExact` and `ForwardingExact` are exact over projections of columns.
- Prefetch.StopStrandsExactly: is about the stop request and its notification, not about the stopping thread draining the queue once the decoding thread has left, because only the consuming thread stops the scan in the source.
- Rewriter.RewritePreserves: covers filter conditions without aggregates, as the planner places aggregates below.
