/** A query over stored files, end to end: each scan reads only the row groups its predicates
select, and the rows delivered are those of the query over the whole files. */
module PrunedExecution {
  import opened Expressions
  import opened Relational
  import opened Aggregation
  import opened JoinSemantics
  import opened LogicalPlans
  import opened SortOrder
  import opened PhysicalPlanner
  import opened BlockShapes
  import opened SingleBlocks
  import opened RequiredColumns
  import opened QueryPlanning
  import opened Rewriter
  import opened ParquetPruning
  import opened PushedPredicates
  import opened PrunedQueries
  import opened OrderAndLimit
  import opened QueryExecution
  import opened NestedQueries
  import opened NestedRewrites
  import opened NestedExecution

  /** Pruning only leaves rows out. */
  lemma PrunedSubset(store: Store, table: string, pushable: seq<PushablePredicate>, row: Row)
    requires row in Pruned(store)(table, pushable)
    ensures row in Whole(store)(table, [])
  {
    ReadingsStore(store);
    var g :| g in store.file(table) && row in store.data(g);
    FlatMapMember(store.data, store.file(table), row);
  }

  lemma {:induction false} PrunedConforms(store: Store, a: Plan, p: Plan)
    requires Bare(a) == Bare(p) && Conforms(Whole(store), p)
    ensures Conforms(Pruned(store), a)
    decreases p
  {
    match p
    case Scan(table, fields, _, _) =>
      forall row | row in Pruned(store)(table, a.pushable) ensures |row| == |fields| {
        PrunedSubset(store, table, a.pushable, row);
      }
    case Join(l, r, _, _, _, _) => PrunedConforms(store, a.left, l); PrunedConforms(store, a.right, r);
    case _ => PrunedConforms(store, a.child, p.child);
  }

  /** An answer to the optimized plan over what its scans read is an answer to it over the whole
      files: the same rows, in the same order of keys. */
  lemma AnswersUnpruned(k: Kernels, store: Store, p: Plan, a: Plan, out: seq<Row>)
    requires PrunesSafely(k, store, p) && Steady(k, p, []) && Bare(a) == Bare(p) && Attached(a, [])
    requires Answers(k, Pruned(store), a, out)
    ensures Answers(k, Whole(store), p, out)
  {
    hide EvalPlan, OrderedBy, ProjectRows, LibrarySorts, Pruned, Whole;
    PrunedQuery(k, store, p, a);
    if LibrarySorts(k) && p.Project? && p.child.Sort? {
      assert a.Project? && a.child.Sort? && Bare(a.child) == Bare(p.child);
      ChildPrunes(k, store, p);
      PrunedQuery(k, store, p.child, a.child);
      var sorted :| Presents(k, Pruned(store), a, out, sorted);
      assert Presents(k, Whole(store), p, out, sorted);
    }
  }

  lemma ChildPrunes(k: Kernels, store: Store, p: Plan)
    requires p.Project? && PrunesSafely(k, store, p) && Steady(k, p, [])
    ensures PrunesSafely(k, store, p.child) && Steady(k, p.child, [])
  {
  }

  /** The optimized plan carries exactly the forwarded predicates. */
  lemma OptimizedAttached(k: Kernels, p: Plan)
    requires Annotate(Rewrite(k, p), {}, []).Some?
    ensures Attached(Optimized(k, p), []) && Bare(Optimized(k, p)) == Bare(Rewrite(k, p))
  {
    AnnotateAttaches(Rewrite(k, p), {}, []);
    AnnotateBare(Rewrite(k, p), {}, []);
  }

  /** Run a query over files, pruning every scan. */
  method RunPrunedQuery(k: Kernels, store: Store, p: Plan, estimates: Estimates, engine: Engine)
    returns (result: Option<seq<Row>>)
    requires Splits(engine) && GoodQuery(p) && PlanTyped(p) && Conforms(Whole(store), p)
    requires PlanReadsTyped(k, Pruned(store), Optimized(k, p)) && PrunesSafely(k, store, Rewrite(k, p))
    ensures DemandsMet(Rewrite(k, p)) ==> PlanQuery(k, p, estimates).Some?
    ensures result.Some? <==>
      DemandsMet(Rewrite(k, p)) && Accepts(k, Pruned(store), PlanQuery(k, p, estimates).value, engine.maxDistinctKeys)
    ensures result.Some? ==> Answers(k, Whole(store), p, result.value)
  {
    hide EvalPlan, EvalPhysical, Accepts, Convert, DemandsMet, PrunesSafely, Answers, Outcome, PlanReadsTyped, Pruned, Whole,
      Annotate, Steady, Attached;
    result := ExecuteQuery(k, Pruned(store), p, estimates, engine);
    if result.Some? {
      UnprunedResult(k, store, p, estimates, result.value);
    }
  }

  lemma UnprunedResult(k: Kernels, store: Store, p: Plan, estimates: Estimates, out: seq<Row>)
    requires GoodQuery(p) && PlanTyped(p) && Conforms(Whole(store), p) && DemandsMet(Rewrite(k, p))
    requires PlanReadsTyped(k, Pruned(store), Optimized(k, p)) && PrunesSafely(k, store, Rewrite(k, p))
    requires PlanQuery(k, p, estimates).Some? && Outcome(k, Pruned(store), PlanQuery(k, p, estimates).value, out)
    ensures Answers(k, Whole(store), p, out)
  {
    hide EvalPlan, EvalPhysical, Convert, DemandsMet, PrunesSafely, Answers, Outcome, PlanReadsTyped, Pruned, Whole, Steady,
      Attached;
    var r, a := Rewrite(k, p), Optimized(k, p);
    RewriteGoodQuery(k, p);
    RewritePreserves(k, Whole(store), p);
    OptimizedAttached(k, p);
    PrunedConforms(store, a, r);
    OptimizedAnswers(k, Pruned(store), p, estimates, out);
    LimitFreeSteady(k, r, []);
    AnswersUnpruned(k, store, r, a, out);
    AnswersRewritten(k, Whole(store), p, out);
  }

  /** With a LIMIT: the first rows of an answer over the whole files. */
  method RunPrunedLimitedQuery(k: Kernels, store: Store, p: Plan, n: int, estimates: Estimates,
                               engine: Engine)
    returns (result: Option<seq<Row>>, ghost full: seq<Row>)
    requires Splits(engine) && GoodQuery(p) && PlanTyped(p) && Conforms(Whole(store), p)
    requires PlanReadsTyped(k, Pruned(store), WithoutLimit(Optimized(k, Limit(p, n))))
    requires PrunesSafely(k, store, Rewrite(k, p))
    ensures DemandsMet(Rewrite(k, Limit(p, n))) ==> PlanQuery(k, Limit(p, n), estimates).Some?
    ensures result.Some? <==>
      && DemandsMet(Rewrite(k, Limit(p, n)))
      && Accepts(k, Pruned(store), PlanQuery(k, Limit(p, n), estimates).value, engine.maxDistinctKeys)
    ensures result.Some? ==> Answers(k, Whole(store), p, full) && result.value == TakeRows(n, full)
  {
    hide EvalPlan, EvalPhysical, Accepts, Convert, DemandsMet, PrunesSafely, Answers, Outcome, PlanReadsTyped, Pruned, Whole,
      Annotate, Steady, Attached, TakeRows;
    full := [];
    result := ExecuteLimitedQuery(k, Pruned(store), p, n, estimates, engine);
    if result.Some? {
      full := UnprunedLimitedResult(k, store, p, n, estimates, result.value);
    }
  }

  /** Inserting a LIMIT under projections forwards the same predicates. */
  lemma {:induction false} AttachedUnderLimit(a: Plan, n: int, pushable: seq<PushablePredicate>)
    requires Attached(InsertLimit(a, n), pushable)
    ensures Attached(a, pushable)
  {
    if a.Project? {
      AttachedUnderLimit(a.child, n, pushable);
    }
  }

  lemma UnprunedLimitedResult(k: Kernels, store: Store, p: Plan, n: int, estimates: Estimates,
                              out: seq<Row>) returns (full: seq<Row>)
    requires GoodQuery(p) && PlanTyped(p) && Conforms(Whole(store), p) && PlanQuery(k, Limit(p, n), estimates).Some?
    requires PlanReadsTyped(k, Pruned(store), WithoutLimit(Optimized(k, Limit(p, n))))
    requires PrunesSafely(k, store, Rewrite(k, p))
    requires Outcome(k, Pruned(store), PlanQuery(k, Limit(p, n), estimates).value, out)
    ensures Answers(k, Whole(store), p, full) && out == TakeRows(n, full)
  {
    hide EvalPlan, EvalPhysical, Convert, PrunesSafely, Answers, Outcome, PlanReadsTyped, Pruned, Whole, Steady, Attached,
      TakeRows, Annotate;
    var r, a := Rewrite(k, p), WithoutLimit(Optimized(k, Limit(p, n)));
    RewriteGoodQuery(k, p);
    RewritePreserves(k, Whole(store), p);
    LimitedOptimized(k, p, n);
    OptimizedAttached(k, Limit(p, n));
    AttachedUnderLimit(a, n, []);
    PrunedConforms(store, a, r);
    full := LimitedOptimizedAnswers(k, Pruned(store), p, n, estimates, out);
    LimitFreeSteady(k, r, []);
    AnswersUnpruned(k, store, r, a, full);
    AnswersRewritten(k, Whole(store), p, full);
  }

  /** And for a query of any nesting, joins of subqueries included. */
  method RunPrunedNestedQuery(k: Kernels, store: Store, p: Plan, estimates: Estimates, engine: Engine)
    returns (result: Option<seq<Row>>)
    requires Splits(engine) && Query(p) && InRange(p) && PlanTyped(p) && Conforms(Whole(store), p)
    requires PlanReadsTyped(k, Pruned(store), Optimized(k, p)) && PrunesSafely(k, store, Rewrite(k, p))
    ensures Met(Rewrite(k, p), {}) ==> PlanQuery(k, p, estimates).Some?
    ensures result.Some? <==>
      Met(Rewrite(k, p), {}) && Accepts(k, Pruned(store), PlanQuery(k, p, estimates).value, engine.maxDistinctKeys)
    ensures result.Some? ==> Answers(k, Whole(store), p, result.value)
  {
    hide EvalPlan, EvalPhysical, Accepts, Convert, PrunesSafely, Answers, Outcome, PlanReadsTyped, Pruned, Whole, Annotate, Query,
      Met, InRange;
    result := ExecuteNestedQuery(k, Pruned(store), p, estimates, engine);
    if result.Some? {
      UnprunedNestedResult(k, store, p, estimates, result.value);
    }
  }

  lemma UnprunedNestedResult(k: Kernels, store: Store, p: Plan, estimates: Estimates, out: seq<Row>)
    requires Query(p) && InRange(p) && PlanTyped(p) && Conforms(Whole(store), p) && PlanQuery(k, p, estimates).Some?
    requires PlanReadsTyped(k, Pruned(store), Optimized(k, p)) && PrunesSafely(k, store, Rewrite(k, p))
    requires Outcome(k, Pruned(store), PlanQuery(k, p, estimates).value, out)
    ensures Answers(k, Whole(store), p, out)
  {
    hide EvalPlan, EvalPhysical, Convert, PrunesSafely, Answers, Outcome, PlanReadsTyped, Pruned, Whole, Steady, Attached, Query;
    var r, a := Rewrite(k, p), Optimized(k, p);
    RewriteNested(k, p);
    RewritePreserves(k, Whole(store), p);
    AnnotatedNested(r, {}, []);
    NestedConvertible(r);
    OptimizedAttached(k, p);
    PrunedConforms(store, a, r);
    NestedAnswers(k, Pruned(store), a, estimates, out);
    LimitFreeSteady(k, r, []);
    AnswersUnpruned(k, store, r, a, out);
    AnswersRewritten(k, Whole(store), p, out);
  }

  method RunPrunedLimitedNestedQuery(k: Kernels, store: Store, p: Plan, n: int, estimates: Estimates,
                                     engine: Engine)
    returns (result: Option<seq<Row>>, ghost full: seq<Row>)
    requires Splits(engine) && Query(p) && InRange(p) && PlanTyped(p) && Conforms(Whole(store), p)
    requires PlanReadsTyped(k, Pruned(store), WithoutLimit(Optimized(k, Limit(p, n))))
    requires PrunesSafely(k, store, Rewrite(k, p))
    ensures Met(Rewrite(k, Limit(p, n)), {}) ==> PlanQuery(k, Limit(p, n), estimates).Some?
    ensures result.Some? <==>
      && Met(Rewrite(k, Limit(p, n)), {})
      && Accepts(k, Pruned(store), PlanQuery(k, Limit(p, n), estimates).value, engine.maxDistinctKeys)
    ensures result.Some? ==> Answers(k, Whole(store), p, full) && result.value == TakeRows(n, full)
  {
    hide EvalPlan, EvalPhysical, Accepts, Convert, PrunesSafely, Answers, Outcome, PlanReadsTyped, Pruned, Whole, Annotate, Query,
      Met, InRange, TakeRows;
    full := [];
    result := ExecuteLimitedNestedQuery(k, Pruned(store), p, n, estimates, engine);
    if result.Some? {
      full := UnprunedLimitedNestedResult(k, store, p, n, estimates, result.value);
    }
  }

  lemma UnprunedLimitedNestedResult(k: Kernels, store: Store, p: Plan, n: int, estimates: Estimates,
                                    out: seq<Row>) returns (full: seq<Row>)
    requires Query(p) && InRange(p) && PlanTyped(p) && Conforms(Whole(store), p) && PlanQuery(k, Limit(p, n), estimates).Some?
    requires PlanReadsTyped(k, Pruned(store), WithoutLimit(Optimized(k, Limit(p, n))))
    requires PrunesSafely(k, store, Rewrite(k, p))
    requires Outcome(k, Pruned(store), PlanQuery(k, Limit(p, n), estimates).value, out)
    ensures Answers(k, Whole(store), p, full) && out == TakeRows(n, full)
  {
    hide EvalPlan, EvalPhysical, Convert, PrunesSafely, Answers, Outcome, PlanReadsTyped, Pruned, Whole, Steady, Attached,
      TakeRows, Annotate, Query, InRange;
    var r, a := Rewrite(k, p), WithoutLimit(Optimized(k, Limit(p, n)));
    RewritePreserves(k, Whole(store), p);
    LimitedNested(k, p, n);
    NestedConvertible(r);
    OptimizedAttached(k, Limit(p, n));
    AttachedUnderLimit(a, n, []);
    PrunedConforms(store, a, r);
    full := LimitedNestedAnswers(k, Pruned(store), p, n, estimates, out);
    LimitFreeSteady(k, r, []);
    AnswersUnpruned(k, store, r, a, full);
    AnswersRewritten(k, Whole(store), p, full);
  }
}
