/** From a logical plan to rows: the optimizer, the planner and the streaming operators together.
However the operators split their inputs into batches, however many buckets a join spills
into and whatever the hash function, the rows delivered are the rows of the logical plan. */
module QueryExecution {
  import opened Expressions
  import opened Relational
  import opened Aggregation
  import opened JoinSemantics
  import opened LogicalPlans
  import opened SortOrder
  import opened PhysicalPlanner
  import opened BlockShapes
  import opened DerivedColumns
  import opened SingleBlocks
  import opened RequiredColumns
  import opened QueryPlanning
  import opened Rewriter
  import opened Batches
  import opened PartitionedJoins
  import opened ExpressionCompiler
  import opened PartialGroups
  import opened MaterializedExpressions
  import opened OrderAndLimit
  import SortLimitOperators
  import HashJoins
  import SemiAntiJoins
  import HashAggregates
  import ScalarAggregates
  import FilterOperators

  /** What execution is free to choose. */
  datatype Engine = Engine(hash: Hash, split: seq<Row> -> seq<Batch>, partitions: PhysicalPlan -> nat, maxDistinctKeys: nat)

  ghost predicate Splits(engine: Engine)
  {
    forall rows :: Flatten(engine.split(rows)) == rows
  }

  // ---------------------------------------------------------------------------
  // Plans the operators can run
  // ---------------------------------------------------------------------------

  predicate IsSemiAnti(joinType: JoinType) { joinType.LeftSemi? || joinType.LeftAnti? }

  /** No LIMIT, names for all columns, and residual conditions only where a semi or anti join
      tests them. */
  predicate Shaped(q: PhysicalPlan)
  {
    match q
    case ParquetScan(_, _, kept, names, _) => |kept| == |names|
    case HashJoin(l, r, _, _, jt, residual, _) => Shaped(l) && Shaped(r) && (residual.Some? ==> IsSemiAnti(jt))
    case FilterNode(c, _) => Shaped(c)
    case ProjectionNode(c, _) => Shaped(c)
    case AggregateNode(c, _, _) => Shaped(c)
    case SortNode(c, _) => Shaped(c)
    case LimitNode(_, _) => false
  }

  lemma {:induction false} PhysicalWidth(k: Kernels, tables: Tables, q: PhysicalPlan)
    requires Shaped(q)
    ensures AllWidth(EvalPhysical(k, tables, q), |OutputNames(q)|)
  {
    match q
    case ParquetScan(table, pushable, kept, _, _) =>
      forall row | row in EvalPhysical(k, tables, q) ensures |row| == |kept| {
        MapMember(r => Gather(kept, r), tables(table, pushable), row);
        var r :| r in tables(table, pushable) && row == Gather(kept, r);
        MapIndex((i: nat) => At(r, i), kept);
      }
    case HashJoin(l, r, _, _, _, _, _) =>
      PhysicalWidth(k, tables, l);
      PhysicalWidth(k, tables, r);
      JoinRowsWidth(k, PhysicalSpec(q), EvalPhysical(k, tables, l), EvalPhysical(k, tables, r), |OutputNames(l)|);
    case FilterNode(c, condition) =>
      PhysicalWidth(k, tables, c);
      forall row | row in EvalPhysical(k, tables, q) ensures row in EvalPhysical(k, tables, c) {
        SelectMember(r => Holds(k, condition, r), EvalPhysical(k, tables, c), row);
      }
    case ProjectionNode(c, items) =>
      ProjectRowsWidth(k, items, EvalPhysical(k, tables, c));
      OutputWidths(items, []);
    case AggregateNode(c, groupBy, calls) =>
      GroupRowsWidth(k, groupBy, calls, EvalPhysical(k, tables, c));
      OutputWidths(groupBy, calls);
    case SortNode(c, keys) =>
      PhysicalWidth(k, tables, c);
      SameRowsMembers(EvalPhysical(k, tables, q), EvalPhysical(k, tables, c));
  }

  predicate FilterSupported(condition: Expr)
  {
    forall e :: e in Conjuncts(condition) ==> FilterOperators.Supported(e)
  }

  /** COUNT(DISTINCT) needs a GROUP BY and no other aggregate beside it. */
  predicate AggregateOpens(groupBy: seq<NamedExpr>, calls: seq<AggregateCall>)
  {
    && HashAggregates.Compiles(groupBy, calls)
    && (HashAggregates.NoDistinct(calls) || (groupBy != [] && |calls| == 1))
  }

  /** What the operators refuse when they are opened: expressions they cannot compile,
      unsupported uses of COUNT(DISTINCT), and a negative limit that is not part of a sort. */
  predicate Opens(q: PhysicalPlan)
  {
    match q
    case ParquetScan(_, _, _, _, _) => true
    case HashJoin(l, r, _, _, _, residual, _) =>
      Opens(l) && Opens(r) && (residual.Some? ==> Compile(residual.value, Some(|OutputNames(l)|)).Some?)
    case FilterNode(c, condition) => Opens(c) && FilterSupported(condition)
    case ProjectionNode(c, items) => Opens(c) && ItemsMaterializable(items)
    case AggregateNode(c, groupBy, calls) => Opens(c) && AggregateOpens(groupBy, calls)
    case SortNode(c, keys) => Opens(c) && KeysMaterializable(keys)
    case LimitNode(c, n) => Opens(c) && (c.SortNode? || n >= 0)
  }

  /** What they refuse while running: more keys than the limit. A LIMIT 0 never runs its input. */
  ghost predicate KeysWithin(k: Kernels, tables: Tables, q: PhysicalPlan, maxDistinctKeys: nat)
  {
    match q
    case ParquetScan(_, _, _, _, _) => true
    case HashJoin(l, r, _, _, _, _, _) =>
      KeysWithin(k, tables, l, maxDistinctKeys) && KeysWithin(k, tables, r, maxDistinctKeys)
    case FilterNode(c, _) => KeysWithin(k, tables, c, maxDistinctKeys)
    case ProjectionNode(c, _) => KeysWithin(k, tables, c, maxDistinctKeys)
    case AggregateNode(c, groupBy, calls) =>
      KeysWithin(k, tables, c, maxDistinctKeys) && FewKeys(k, groupBy, calls, maxDistinctKeys, EvalPhysical(k, tables, c))
    case SortNode(c, _) => KeysWithin(k, tables, c, maxDistinctKeys)
    case LimitNode(c, n) => n > 0 ==> KeysWithin(k, tables, c, maxDistinctKeys)
  }

  ghost predicate FewKeys(k: Kernels, groupBy: seq<NamedExpr>, calls: seq<AggregateCall>, maxDistinctKeys: nat, rows: seq<Row>)
  {
    groupBy == [] ||
    |CountedKeys(k, HashAggregates.ModeOf(calls), HashAggregates.InputTable(k, groupBy, calls, rows))| <= maxDistinctKeys
  }

  ghost predicate Accepts(k: Kernels, tables: Tables, q: PhysicalPlan, maxDistinctKeys: nat)
  {
    Opens(q) && KeysWithin(k, tables, q, maxDistinctKeys)
  }

  lemma FewKeysSame(k: Kernels, groupBy: seq<NamedExpr>, calls: seq<AggregateCall>, maxDistinctKeys: nat,
                    rows: seq<Row>, rows': seq<Row>)
    requires SameRows(rows, rows')
    ensures FewKeys(k, groupBy, calls, maxDistinctKeys, rows) == FewKeys(k, groupBy, calls, maxDistinctKeys, rows')
  {
    var t, t' := HashAggregates.InputTable(k, groupBy, calls, rows), HashAggregates.InputTable(k, groupBy, calls, rows');
    MapSameRows(row => HashAggregates.Materialize(k, groupBy, calls, row), rows, rows');
    SameRowsMembers(t, t');
    assert CountedKeys(k, HashAggregates.ModeOf(calls), t) == CountedKeys(k, HashAggregates.ModeOf(calls), t');
  }

  // ---------------------------------------------------------------------------
  // Running one operator
  // ---------------------------------------------------------------------------

  method ExecuteJoin(k: Kernels, spec: JoinSpec, leftWidth: nat, partitions: nat, engine: Engine, left: seq<Row>,
                     right: seq<Row>)
    returns (result: Option<seq<Row>>)
    requires Splits(engine) && AllWidth(left, leftWidth) && (spec.residual.Some? ==> IsSemiAnti(spec.joinType))
    ensures result.Some? <==> spec.residual.None? || Compile(spec.residual.value, Some(leftWidth)).Some?
    ensures result.Some? ==> SameRows(result.value, JoinRows(k, spec, left, right))
  {
    hide JoinRows, SameRows, Flatten, AllWidth;
    var l := new BatchSource(engine.split(left));
    var r := new BatchSource(engine.split(right));
    if IsSemiAnti(spec.joinType) {
      result := SemiAntiJoins.RunSemiAntiJoin(k, spec, engine.hash, partitions, leftWidth, l, r);
    } else {
      var rows := HashJoins.RunHashJoin(k, spec, engine.hash, partitions, l, r);
      result := Some(rows);
    }
  }

  method ExecuteFilter(k: Kernels, condition: Expr, engine: Engine, rows: seq<Row>) returns (result: Option<seq<Row>>)
    requires Splits(engine)
    ensures result.Some? <==> FilterSupported(condition)
    ensures result.Some? ==> result.value == FilterRows(k, condition, rows)
  {
    hide FilterRows, Flatten;
    var child := new BatchSource(engine.split(rows));
    result := FilterOperators.RunFilter(k, condition, child);
  }

  method ExecuteAggregate(k: Kernels, groupBy: seq<NamedExpr>, calls: seq<AggregateCall>, engine: Engine,
                          rows: seq<Row>)
    returns (result: Option<seq<Row>>)
    requires Splits(engine)
    ensures result.Some? <==> AggregateOpens(groupBy, calls) && FewKeys(k, groupBy, calls, engine.maxDistinctKeys, rows)
    ensures result.Some? ==> SameRows(result.value, GroupRows(k, groupBy, calls, rows))
  {
    hide GroupRows, Flatten;
    var child := new BatchSource(engine.split(rows));
    if groupBy == [] {
      result := ScalarAggregates.RunScalarAggregate(k, calls, child);
    } else {
      result := HashAggregates.RunHashAggregate(k, groupBy, calls, engine.maxDistinctKeys, child);
    }
  }

  method ExecuteProjection(k: Kernels, items: seq<NamedExpr>, engine: Engine, rows: seq<Row>) returns (result: Option<seq<Row>>)
    requires Splits(engine)
    ensures result.Some? <==> ItemsMaterializable(items)
    ensures result.Some? ==> result.value == ProjectRows(k, items, rows)
  {
    hide Flatten;
    var child := new BatchSource(engine.split(rows));
    result := RunProjection(k, items, child);
  }

  method ExecuteSort(k: Kernels, keys: seq<SortKey>, limit: Option<int>, engine: Engine, rows: seq<Row>)
    returns (result: Option<seq<Row>>)
    requires Splits(engine)
    ensures result.Some? <==> KeysMaterializable(keys)
    ensures result.Some? ==>
      result.value == if limit.Some? then TakeRows(limit.value, SortRows(k, keys, rows)) else SortRows(k, keys, rows)
  {
    hide SortRows, Flatten;
    var child := new BatchSource(engine.split(rows));
    result := SortLimitOperators.RunSort(k, keys, limit, child);
  }

  method ExecuteLimit(limit: int, engine: Engine, rows: seq<Row>) returns (result: Option<seq<Row>>)
    requires Splits(engine)
    ensures result.Some? <==> limit >= 0
    ensures result.Some? ==> result.value == TakeRows(limit, rows)
  {
    hide Flatten;
    var child := new BatchSource(engine.split(rows));
    result := SortLimitOperators.RunLimit(limit, child);
  }

  // ---------------------------------------------------------------------------
  // Running a plan
  // ---------------------------------------------------------------------------

  /** Execute a physical plan bottom-up, every operator on the batches of its inputs. */
  method Execute(k: Kernels, tables: Tables, q: PhysicalPlan, engine: Engine) returns (result: Option<seq<Row>>)
    requires Shaped(q) && Splits(engine)
    ensures result.Some? <==> Accepts(k, tables, q, engine.maxDistinctKeys)
    ensures result.Some? ==> Outcome(k, tables, q, result.value) && SameRows(result.value, EvalPhysical(k, tables, q))
    decreases q
  {
    hide JoinRows, FilterRows, ProjectRows, GroupRows, SortRows, FewKeys, AggregateOpens, FilterSupported, AllWidth,
      ItemsMaterializable, KeysMaterializable;
    match q {
      case ParquetScan(table, pushable, kept, _, _) =>
        return Some(Map(row => Gather(kept, row), tables(table, pushable)));
      case HashJoin(l, r, _, _, _, _, _) =>
        var left := Execute(k, tables, l, engine);
        var right := Execute(k, tables, r, engine);
        if left.None? || right.None? {
          return None;
        }
        WidthOfResult(k, tables, l, left.value);
        result := ExecuteJoin(k, PhysicalSpec(q), |OutputNames(l)|, engine.partitions(q), engine, left.value,
                              right.value);
        JoinSameRows(k, PhysicalSpec(q), left.value, EvalPhysical(k, tables, l), right.value,
                     EvalPhysical(k, tables, r));
      case FilterNode(c, condition) =>
        var rows := Execute(k, tables, c, engine);
        if rows.None? {
          return None;
        }
        result := ExecuteFilter(k, condition, engine, rows.value);
        FilterSameRows(k, condition, rows.value, EvalPhysical(k, tables, c));
      case ProjectionNode(c, items) =>
        var rows := Execute(k, tables, c, engine);
        if rows.None? {
          return None;
        }
        result := ExecuteProjection(k, items, engine, rows.value);
        ProjectSame(k, items, rows.value, EvalPhysical(k, tables, c));
      case AggregateNode(c, groupBy, calls) =>
        var rows := Execute(k, tables, c, engine);
        if rows.None? {
          return None;
        }
        result := ExecuteAggregate(k, groupBy, calls, engine, rows.value);
        FewKeysSame(k, groupBy, calls, engine.maxDistinctKeys, rows.value, EvalPhysical(k, tables, c));
        GroupSameRows(k, groupBy, calls, rows.value, EvalPhysical(k, tables, c));
      case SortNode(c, keys) =>
        var rows := Execute(k, tables, c, engine);
        if rows.None? {
          return None;
        }
        result := ExecuteSort(k, keys, None, engine, rows.value);
    }
  }

  /** A shaped plan, or one with the LIMIT of the query under some projections. */
  predicate Served(q: PhysicalPlan)
  {
    Shaped(q) || (q.LimitNode? && Shaped(q.child)) || (q.ProjectionNode? && Served(q.child))
  }

  /** Execute a LIMIT: fused into a sort directly below it, else by its own operator. */
  method ExecuteLimited(k: Kernels, tables: Tables, q: PhysicalPlan, engine: Engine) returns (result: Option<seq<Row>>)
    requires q.LimitNode? && Shaped(q.child) && Splits(engine)
    ensures result.Some? <==> Accepts(k, tables, q, engine.maxDistinctKeys)
    ensures result.Some? ==> Outcome(k, tables, q, result.value)
  {
    hide SortRows, KeysMaterializable, TakeRows;
    var sort := q.child.SortNode?;
    var input := if sort then q.child.child else q.child;
    if q.count <= 0 {
      if !Opens(q) {
        return None;
      }
      EvalIsOutcome(k, tables, q.child);
      TakeNone(q.count, EvalPhysical(k, tables, q.child));
      return Some([]);
    }
    LimitAccepts(k, tables, q, engine.maxDistinctKeys);
    var rows := Execute(k, tables, input, engine);
    if rows.None? {
      return None;
    }
    if sort {
      result := ExecuteSort(k, q.child.keys, Some(q.count), engine, rows.value);
      if result.Some? {
        assert Outcome(k, tables, q.child, SortRows(k, q.child.keys, rows.value));
      }
    } else {
      result := ExecuteLimit(q.count, engine, rows.value);
    }
  }

  lemma LimitAccepts(k: Kernels, tables: Tables, q: PhysicalPlan, maxDistinctKeys: nat)
    requires q.LimitNode? && q.count > 0
    ensures Accepts(k, tables, q, maxDistinctKeys) <==> Accepts(k, tables, q.child, maxDistinctKeys)
    ensures q.child.SortNode? ==>
      (Accepts(k, tables, q.child, maxDistinctKeys)
       <==> Accepts(k, tables, q.child.child, maxDistinctKeys) && KeysMaterializable(q.child.keys))
  {
  }

  lemma TakeNone(n: int, rows: seq<Row>)
    requires n <= 0
    ensures TakeRows(n, rows) == []
  {
  }

  /** Execute a whole plan. */
  method Serve(k: Kernels, tables: Tables, q: PhysicalPlan, engine: Engine) returns (result: Option<seq<Row>>)
    requires Served(q) && Splits(engine)
    ensures result.Some? <==> Accepts(k, tables, q, engine.maxDistinctKeys)
    ensures result.Some? ==> Outcome(k, tables, q, result.value)
    decreases q
  {
    hide ProjectRows, ItemsMaterializable;
    if Shaped(q) {
      result := Execute(k, tables, q, engine);
    } else if q.LimitNode? {
      result := ExecuteLimited(k, tables, q, engine);
    } else {
      var rows := Serve(k, tables, q.child, engine);
      if rows.None? {
        return None;
      }
      result := ExecuteProjection(k, q.items, engine, rows.value);
    }
  }

  lemma WidthOfResult(k: Kernels, tables: Tables, q: PhysicalPlan, rows: seq<Row>)
    requires Shaped(q) && SameRows(rows, EvalPhysical(k, tables, q))
    ensures AllWidth(rows, |OutputNames(q)|)
  {
    PhysicalWidth(k, tables, q);
    SameRowsMembers(rows, EvalPhysical(k, tables, q));
  }

  lemma FilterSameRows(k: Kernels, condition: Expr, rows: seq<Row>, rows': seq<Row>)
    requires SameRows(rows, rows')
    ensures SameRows(FilterRows(k, condition, rows), FilterRows(k, condition, rows'))
  {
    SelectSameRows(row => Holds(k, condition, row), rows, rows');
  }

  // ---------------------------------------------------------------------------
  // Running a query
  // ---------------------------------------------------------------------------

  /** What `Convert` needs of a plan to produce a shaped one. */
  predicate Convertible(p: Plan)
  {
    match p
    case Scan(_, _, _, _) => true
    case Join(l, r, _, _, jt, residual) => Convertible(l) && Convertible(r) && (residual.Some? ==> IsSemiAnti(jt))
    case Filter(c, _) => Convertible(c)
    case Project(c, _) => Convertible(c)
    case Group(c, _, _) => Convertible(c)
    case Sort(c, _) => Convertible(c)
    case Limit(_, _) => false
  }

  lemma {:induction false} BlocksConvertible(p: Plan)
    requires (SingleBlock(p) || ScanBlock(p)) && LimitFree(p)
    ensures Convertible(p)
  {
    match p
    case Scan(_, _, _, _) =>
    case Join(l, r, _, _, _, _) => BlocksConvertible(l); BlocksConvertible(r);
    case Filter(c, _) => BlocksConvertible(c);
    case Project(c, _) => BlocksConvertible(c);
    case Group(c, _, _) => BlocksConvertible(c);
    case Sort(c, _) => BlocksConvertible(c);
  }

  lemma {:induction false} ConvertShaped(p: Plan, estimates: Estimates)
    requires Convertible(p) && Convert(p, estimates).Some?
    ensures Shaped(Convert(p, estimates).value)
  {
    match p
    case Scan(_, fields, required, _) =>
      MapIndex((i: nat) => if i < |fields| then fields[i].name else "", Kept(fields, required, |fields|));
      MapIndex((i: nat) => if i < |fields| then fields[i].name else "", [0]);
    case Join(l, r, _, _, _, _) => ConvertShaped(l, estimates); ConvertShaped(r, estimates);
    case Filter(c, _) => ConvertShaped(c, estimates);
    case Project(c, _) => ConvertShaped(c, estimates);
    case Group(c, _, _) => ConvertShaped(c, estimates);
    case Sort(c, _) => ConvertShaped(c, estimates);
  }

  lemma PlannedShaped(k: Kernels, p: Plan, estimates: Estimates)
    requires GoodQuery(p) && PlanQuery(k, p, estimates).Some?
    ensures Shaped(PlanQuery(k, p, estimates).value)
  {
    var rewritten := Rewrite(k, p);
    RewriteGoodQuery(k, p);
    AnnotateShape(rewritten, {}, []);
    var annotated := Annotate(rewritten, {}, []).value;
    BlocksConvertible(annotated);
    ConvertShaped(annotated, estimates);
  }

  lemma {:induction false} LimitServed(a: Plan, n: int, estimates: Estimates)
    requires Convertible(a) && Convert(InsertLimit(a, n), estimates).Some?
    ensures Served(Convert(InsertLimit(a, n), estimates).value)
  {
    hide RemapItems, IsIdentityProjection;
    if a.Project? {
      LimitServed(a.child, n, estimates);
    } else {
      ConvertShaped(a, estimates);
    }
  }

  lemma LimitedServed(k: Kernels, p: Plan, n: int, estimates: Estimates)
    requires GoodQuery(p) && PlanQuery(k, Limit(p, n), estimates).Some?
    ensures Served(PlanQuery(k, Limit(p, n), estimates).value)
  {
    hide Convert, Annotate, Served, Rewrite;
    var a := WithoutLimit(Optimized(k, Limit(p, n)));
    LimitedOptimized(k, p, n);
    BlocksConvertible(a);
    LimitServed(a, n, estimates);
  }

  /** Optimize, plan and execute a query, whatever its scans read: it fails exactly when it
      demands a position that its scans do not have or an operator refuses its part of the plan. */
  method ExecuteQuery(k: Kernels, tables: Tables, p: Plan, estimates: Estimates, engine: Engine)
    returns (result: Option<seq<Row>>)
    requires Splits(engine) && GoodQuery(p)
    ensures DemandsMet(Rewrite(k, p)) ==> PlanQuery(k, p, estimates).Some?
    ensures result.Some? <==>
      DemandsMet(Rewrite(k, p)) && Accepts(k, tables, PlanQuery(k, p, estimates).value, engine.maxDistinctKeys)
    ensures result.Some? ==> Outcome(k, tables, PlanQuery(k, p, estimates).value, result.value)
  {
    hide EvalPlan, EvalPhysical, Accepts, Convert, DemandsMet, Outcome;
    PlanQuerySucceeds(k, p, estimates);
    var plan := PlanQuery(k, p, estimates);
    if plan.None? {
      return None;
    }
    PlannedShaped(k, p, estimates);
    result := Execute(k, tables, plan.value, engine);
  }

  /** The same for a query with a LIMIT. */
  method ExecuteLimitedQuery(k: Kernels, tables: Tables, p: Plan, n: int, estimates: Estimates, engine: Engine)
    returns (result: Option<seq<Row>>)
    requires Splits(engine) && GoodQuery(p)
    ensures DemandsMet(Rewrite(k, Limit(p, n))) ==> PlanQuery(k, Limit(p, n), estimates).Some?
    ensures result.Some? <==>
      && DemandsMet(Rewrite(k, Limit(p, n)))
      && Accepts(k, tables, PlanQuery(k, Limit(p, n), estimates).value, engine.maxDistinctKeys)
    ensures result.Some? ==> Outcome(k, tables, PlanQuery(k, Limit(p, n), estimates).value, result.value)
  {
    hide EvalPlan, EvalPhysical, Accepts, Convert, DemandsMet, Outcome;
    LimitedQuerySucceeds(k, p, n, estimates);
    var plan := PlanQuery(k, Limit(p, n), estimates);
    if plan.None? {
      return None;
    }
    LimitedServed(k, p, n, estimates);
    result := Serve(k, tables, plan.value, engine);
  }

  /** Over whole tables, a query that does not fail delivers exactly its rows, in the order of
      its ORDER BY. */
  method RunQuery(k: Kernels, tables: Tables, p: Plan, estimates: Estimates, engine: Engine)
    returns (result: Option<seq<Row>>)
    requires Splits(engine)
    requires GoodQuery(p) && PlanTyped(p) && Plain(tables) && Conforms(tables, p) && PlanReadsTyped(k, tables, p)
    ensures DemandsMet(p) ==> DemandsMet(Rewrite(k, p))
    ensures DemandsMet(Rewrite(k, p)) ==> PlanQuery(k, p, estimates).Some?
    ensures result.Some? <==>
      DemandsMet(Rewrite(k, p)) && Accepts(k, tables, PlanQuery(k, p, estimates).value, engine.maxDistinctKeys)
    ensures result.Some? ==> Answers(k, tables, p, result.value)
  {
    hide EvalPlan, EvalPhysical, Accepts, Convert, DemandsMet, Answers, Outcome;
    PlanQuerySucceeds(k, p, estimates);
    result := ExecuteQuery(k, tables, p, estimates, engine);
    if result.Some? {
      QueryAnswers(k, tables, p, estimates, result.value);
    }
  }

  /** With a LIMIT, it delivers the first rows of such an answer. */
  method RunLimitedQuery(k: Kernels, tables: Tables, p: Plan, n: int, estimates: Estimates,
                         engine: Engine)
    returns (result: Option<seq<Row>>, ghost full: seq<Row>)
    requires Splits(engine)
    requires GoodQuery(p) && PlanTyped(p) && Plain(tables) && Conforms(tables, p) && PlanReadsTyped(k, tables, p)
    ensures DemandsMet(Rewrite(k, Limit(p, n))) ==> PlanQuery(k, Limit(p, n), estimates).Some?
    ensures result.Some? <==>
      && DemandsMet(Rewrite(k, Limit(p, n)))
      && Accepts(k, tables, PlanQuery(k, Limit(p, n), estimates).value, engine.maxDistinctKeys)
    ensures result.Some? ==> Answers(k, tables, p, full) && result.value == TakeRows(n, full)
  {
    hide EvalPlan, EvalPhysical, Accepts, Convert, DemandsMet, Answers, Outcome, TakeRows;
    full := [];
    result := ExecuteLimitedQuery(k, tables, p, n, estimates, engine);
    if result.Some? {
      full := LimitedQueryAnswers(k, tables, p, n, estimates, result.value);
    }
  }
}
