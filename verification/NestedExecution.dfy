/** Queries of any nesting, end to end. */
module NestedExecution {
  import opened Expressions
  import opened Relational
  import opened LogicalPlans
  import opened SortOrder
  import opened PhysicalPlanner
  import opened PlannerCorrectness
  import opened BlockShapes
  import opened DerivedColumns
  import opened SingleBlocks
  import opened RequiredColumns
  import opened Rewriter
  import opened QueryPlanning
  import opened OrderAndLimit
  import opened QueryExecution
  import opened NestedQueries
  import opened NestedRewrites

  // ---------------------------------------------------------------------------
  // Query blocks are the simplest case
  // ---------------------------------------------------------------------------

  lemma {:induction false} MetByBlock(p: Plan, required: set<nat>)
    requires SingleBlock(p)
    ensures Met(p, required) <==> Within(ScanDemand(p, required), FullWidth(Block(p)))
  {
    hide Within, FullWidth, Demand;
    if !ScanBlock(p) {
      MetByBlock(p.child, Demand(p, required));
    }
  }

  lemma {:induction false} BlocksAreQueries(p: Plan)
    requires GoodQuery(p)
    ensures Query(p) && (Met(p, {}) <==> DemandsMet(p))
  {
    hide KeepsColumns, NodeColumns, Met, ScanDemand;
    MetByBlock(p, {});
    if ScanBlock(p.child) {
      BlockIsTree(p.child);
    } else {
      BlocksAreQueries(p.child);
    }
  }

  // ---------------------------------------------------------------------------
  // Any nesting
  // ---------------------------------------------------------------------------

  /** A converted query delivers its rows, ordered as it asks. */
  lemma NestedAnswers(k: Kernels, tables: Tables, p: Plan, estimates: Estimates, out: seq<Row>)
    requires Query(p) && Conforms(tables, p) && PlanReadsTyped(k, tables, p) && Convert(p, estimates).Some?
    requires Outcome(k, tables, Convert(p, estimates).value, out)
    ensures Answers(k, tables, p, out)
  {
    hide EvalPlan, EvalPhysical, Convert, Outcome, OrderedBy, Presents, LibrarySorts, ChildResolves, Realizes, ReadsRight;
    QueryRealizes(k, tables, p, estimates);
    NestedConvertible(p);
    ConvertUnlimited(p, estimates);
    RealizedRows(k, tables, p, Convert(p, estimates).value, out);
    if LibrarySorts(k) && p.Sort? {
      NodeResolves(p, estimates);
      SortOnTopOrdered(k, tables, p, estimates, out);
    } else if LibrarySorts(k) && p.Project? && p.child.Sort? {
      var sorted := NestedPresents(k, tables, p, estimates, out);
    }
  }

  lemma NestedPresents(k: Kernels, tables: Tables, p: Plan, estimates: Estimates, out: seq<Row>)
    returns (sorted: seq<Row>)
    requires Query(p) && p.Project? && p.child.Sort? && LimitFree(p) && Conforms(tables, p) && PlanReadsTyped(k, tables, p)
    requires LibrarySorts(k) && Convert(p, estimates).Some? && Outcome(k, tables, Convert(p, estimates).value, out)
    ensures Presents(k, tables, p, out, sorted)
  {
    hide EvalPlan, EvalPhysical, Convert, Outcome, OrderedBy, Presents, LibrarySorts, ChildResolves, Realizes, ReadsRight;
    ChildConverts(p, estimates);
    ChildConverts(p.child, estimates);
    if Tree(p.child) {
      TreeShape(p.child);
      var layout := TreeDelivers(k, tables, p.child.child, estimates);
      sorted := PresentsBlock(k, tables, p, estimates, layout, out);
    } else {
      NodeResolves(p, estimates);
      NodeResolves(p.child, estimates);
      QueryRealizes(k, tables, p.child, estimates);
      sorted := PresentsDerived(k, tables, p, estimates, out);
    }
  }

  /** A query of any nesting is planned exactly when its rewritten form demands no position that
      its scans do not have. */
  lemma NestedPlanned(k: Kernels, p: Plan, estimates: Estimates)
    requires Query(p) && InRange(p)
    ensures PlanQuery(k, p, estimates).Some? <==> Met(Rewrite(k, p), {})
  {
    RewriteNested(k, p);
    AnnotatesExactly(Rewrite(k, p), {}, []);
    if Met(Rewrite(k, p), {}) {
      QueryConverts(Rewrite(k, p), {}, [], estimates);
    }
  }

  /** Optimize, plan and execute a query of any nesting, whatever its scans read: it fails exactly
      when it demands a position its scans do not have or an operator refuses its part of the
      plan. */
  method ExecuteNestedQuery(k: Kernels, tables: Tables, p: Plan, estimates: Estimates, engine: Engine)
    returns (result: Option<seq<Row>>)
    requires Splits(engine) && Query(p) && InRange(p)
    ensures Met(Rewrite(k, p), {}) ==> PlanQuery(k, p, estimates).Some?
    ensures result.Some? <==>
      Met(Rewrite(k, p), {}) && Accepts(k, tables, PlanQuery(k, p, estimates).value, engine.maxDistinctKeys)
    ensures result.Some? ==> Outcome(k, tables, PlanQuery(k, p, estimates).value, result.value)
  {
    hide EvalPlan, EvalPhysical, Accepts, Convert, Outcome, Query, Met, InRange;
    NestedPlanned(k, p, estimates);
    var plan := PlanQuery(k, p, estimates);
    if plan.None? {
      return None;
    }
    RewriteNested(k, p);
    AnnotatedNested(Rewrite(k, p), {}, []);
    NestedConvertible(Optimized(k, p));
    ConvertShaped(Optimized(k, p), estimates);
    result := Execute(k, tables, plan.value, engine);
  }

  /** Over whole tables, a query that does not fail delivers exactly its rows, in the order of its
      ORDER BY. */
  method RunNestedQuery(k: Kernels, tables: Tables, p: Plan, estimates: Estimates, engine: Engine)
    returns (result: Option<seq<Row>>)
    requires Splits(engine) && Query(p) && InRange(p)
    requires PlanTyped(p) && Plain(tables) && Conforms(tables, p) && PlanReadsTyped(k, tables, p)
    ensures Met(Rewrite(k, p), {}) ==> PlanQuery(k, p, estimates).Some?
    ensures result.Some? <==>
      Met(Rewrite(k, p), {}) && Accepts(k, tables, PlanQuery(k, p, estimates).value, engine.maxDistinctKeys)
    ensures result.Some? ==> Answers(k, tables, p, result.value)
  {
    hide EvalPlan, EvalPhysical, Accepts, Convert, Answers, Outcome, Query, PlanReadsTyped, Met, InRange;
    result := ExecuteNestedQuery(k, tables, p, estimates, engine);
    if result.Some? {
      NestedResult(k, tables, p, estimates, result.value);
    }
  }

  lemma NestedResult(k: Kernels, tables: Tables, p: Plan, estimates: Estimates, out: seq<Row>)
    requires Query(p) && InRange(p) && PlanTyped(p) && Plain(tables) && Conforms(tables, p)
    requires PlanReadsTyped(k, tables, p) && PlanQuery(k, p, estimates).Some?
    requires Outcome(k, tables, PlanQuery(k, p, estimates).value, out)
    ensures Answers(k, tables, p, out)
  {
    hide EvalPlan, EvalPhysical, Convert, Answers, Outcome, Query, PlanReadsTyped;
    var r := Rewrite(k, p);
    var a := Annotate(r, {}, []).value;
    RewriteNested(k, p);
    RewritePreserves(k, tables, p);
    RewriteReadsTyped(k, tables, p);
    AnnotatedNested(r, {}, []);
    AnnotateBare(r, {}, []);
    AnnotateMeaning(k, tables, r, {}, []);
    NestedAnswers(k, tables, a, estimates, out);
    AnswersBare(k, tables, a, r, out);
    AnswersRewritten(k, tables, p, out);
  }

  // ---------------------------------------------------------------------------
  // With a LIMIT
  // ---------------------------------------------------------------------------

  lemma {:induction false} LimitKeeps(p: Plan, n: int)
    ensures var r := InsertLimit(p, n);
            && Width(r) == Width(p) && NamesOf(r) == NamesOf(p) && (InRange(r) <==> InRange(p))
            && (ScanBlock(r) <==> ScanBlock(p)) && (ReferencesScanSchema(r) <==> ReferencesScanSchema(p)) && KeepsWhat(r, p)
  {
    if p.Project? {
      LimitKeeps(p.child, n);
    }
  }

  /** After push-down, planning such a query with a LIMIT never reports a missing column. */
  lemma {:induction false} LimitedConverts(p: Plan, n: int, required: set<nat>, pushable: seq<PushablePredicate>,
                                           estimates: Estimates)
    requires (Tree(p) || Query(p)) && InRange(p) && Annotate(InsertLimit(p, n), required, pushable).Some?
    ensures Convert(Annotate(InsertLimit(p, n), required, pushable).value, estimates).Some?
    ensures Tree(p) ==>
      Supplies(Convert(Annotate(InsertLimit(p, n), required, pushable).value, estimates).value, Width(p), required)
  {
    hide Annotate, Convert, Covered, OwnsRead, Supplies, NodeColumns, Within, InRange, ReferencesScanSchema, KeepsColumns, Query,
      ReadsRight;
    var limited := InsertLimit(p, n);
    var demand, preds := Demand(limited, required), Forwarded(limited, pushable);
    var r := Annotate(limited, required, pushable).value;
    AnnotateStep(limited, required, pushable);
    AnnotateShape(limited.child, demand, preds);
    if p.Project? {
      QueryChild(p);
      ReadsWithin(p);
      assert NodeColumns(r) == NodeColumns(p) by { SameColumns(p, r.child); }
      LimitKeeps(p.child, n);
      LimitedConverts(p.child, n, demand, preds, estimates);
      if Tree(p.child) {
        LimitDemands(p, n, required);
        SuppliesCovers(Convert(r.child, estimates).value, Width(p.child), demand, NodeColumns(p));
      } else {
        LimitedReads(p, n, r.child, demand, preds, estimates);
      }
      NodeConverts(r, estimates);
    } else if Tree(p) {
      TreeConverts(p, required, pushable, estimates);
      LimitSupplies(Convert(r.child, estimates).value, n, Width(p), required);
      LimitNodeConverts(r, estimates);
    } else {
      QueryConverts(p, required, pushable, estimates);
      LimitNodeConverts(r, estimates);
    }
  }

  lemma QueryChild(p: Plan)
    requires p.Project? && (Tree(p) || Query(p)) && InRange(p)
    ensures Query(p) && !Tree(p) && InRange(p.child)
    ensures Tree(p.child) || (Query(p.child) && ReadsRight(p.child, NodeColumns(p)))
  {
  }

  lemma LimitDemands(p: Plan, n: int, required: set<nat>)
    requires p.Project?
    ensures NodeColumns(p) <= Demand(InsertLimit(p, n), required)
  {
  }

  lemma LimitNodeConverts(r: Plan, estimates: Estimates)
    requires r.Limit? && Convert(r.child, estimates).Some?
    ensures Convert(r, estimates) == Some(LimitNode(Convert(r.child, estimates).value, r.count))
  {
  }

  /** The select list above the LIMIT reads by position what it read without it. */
  lemma LimitedReads(p: Plan, n: int, c: Plan, demand: set<nat>, preds: seq<PushablePredicate>, estimates: Estimates)
    requires p.Project? && ReadsRight(p.child, NodeColumns(p)) && Within(NodeColumns(p), Width(p.child))
    requires Annotate(InsertLimit(p.child, n), demand, preds) == Some(c) && Convert(c, estimates).Some?
    ensures ReferencesScanSchema(c) ==> Covered(NodeColumns(p), Boundary(Convert(c, estimates).value))
  {
    hide Annotate, Convert, Covered, OwnsRead, NodeColumns, Within, KeepsColumns;
    var limited := InsertLimit(p.child, n);
    LimitKeeps(p.child, n);
    AnnotateBare(limited, demand, preds);
    AnnotateShape(limited, demand, preds);
    if ReferencesScanSchema(c) {
      BareKeeps(c, NodeColumns(p));
      BareKeeps(limited, NodeColumns(p));
      PositionsOwned(c, estimates, NodeColumns(p));
      OwnCovers(Convert(c, estimates).value, Width(p.child), NodeColumns(p));
    }
  }

  lemma LimitedNestedPlanned(k: Kernels, p: Plan, n: int, estimates: Estimates)
    requires Query(p) && InRange(p)
    ensures PlanQuery(k, Limit(p, n), estimates).Some? <==> Met(Rewrite(k, Limit(p, n)), {})
  {
    hide Annotate, Convert, Query, Met;
    var r := Rewrite(k, p);
    RewriteNested(k, p);
    LimitKeeps(r, n);
    AnnotatesExactly(InsertLimit(r, n), {}, []);
    if Met(InsertLimit(r, n), {}) {
      LimitedConverts(r, n, {}, [], estimates);
    }
  }

  /** The optimized plan of a query with a LIMIT is such a query with the LIMIT inserted. */
  lemma LimitedNested(k: Kernels, p: Plan, n: int)
    requires Query(p) && InRange(p) && Annotate(Rewrite(k, Limit(p, n)), {}, []).Some?
    ensures var a := WithoutLimit(Optimized(k, Limit(p, n)));
            Optimized(k, Limit(p, n)) == InsertLimit(a, n) && Bare(a) == Bare(Rewrite(k, p)) && Query(a) && Query(Rewrite(k, p))
  {
    hide Annotate, Query;
    RewriteNested(k, p);
    AnnotateBare(InsertLimit(Rewrite(k, p), n), {}, []);
    LimitTakenOut(Optimized(k, Limit(p, n)), Rewrite(k, p), n);
    BareNested(WithoutLimit(Optimized(k, Limit(p, n))));
    BareNested(Rewrite(k, p));
  }

  method ExecuteLimitedNestedQuery(k: Kernels, tables: Tables, p: Plan, n: int, estimates: Estimates, engine: Engine)
    returns (result: Option<seq<Row>>)
    requires Splits(engine) && Query(p) && InRange(p)
    ensures Met(Rewrite(k, Limit(p, n)), {}) ==> PlanQuery(k, Limit(p, n), estimates).Some?
    ensures result.Some? <==>
      && Met(Rewrite(k, Limit(p, n)), {})
      && Accepts(k, tables, PlanQuery(k, Limit(p, n), estimates).value, engine.maxDistinctKeys)
    ensures result.Some? ==> Outcome(k, tables, PlanQuery(k, Limit(p, n), estimates).value, result.value)
  {
    hide EvalPlan, EvalPhysical, Accepts, Convert, Outcome, Query, Met, InRange, Rewrite;
    LimitedNestedPlanned(k, p, n, estimates);
    var plan := PlanQuery(k, Limit(p, n), estimates);
    if plan.None? {
      return None;
    }
    LimitedNested(k, p, n);
    NestedConvertible(WithoutLimit(Optimized(k, Limit(p, n))));
    LimitServed(WithoutLimit(Optimized(k, Limit(p, n))), n, estimates);
    result := Serve(k, tables, plan.value, engine);
  }

  /** Whatever the scans read, the first rows of an answer to the optimized plan without the LIMIT. */
  lemma LimitedNestedAnswers(k: Kernels, tables: Tables, p: Plan, n: int, estimates: Estimates, out: seq<Row>)
    returns (full: seq<Row>)
    requires Query(p) && InRange(p) && PlanQuery(k, Limit(p, n), estimates).Some?
    requires Conforms(tables, WithoutLimit(Optimized(k, Limit(p, n))))
    requires PlanReadsTyped(k, tables, WithoutLimit(Optimized(k, Limit(p, n))))
    requires Outcome(k, tables, PlanQuery(k, Limit(p, n), estimates).value, out)
    ensures Answers(k, tables, WithoutLimit(Optimized(k, Limit(p, n))), full) && out == TakeRows(n, full)
  {
    hide EvalPlan, EvalPhysical, Answers, Outcome, Convert, Annotate, Rewrite, Query, InRange, TakeRows;
    var a := WithoutLimit(Optimized(k, Limit(p, n)));
    LimitedNested(k, p, n);
    full := LimitOutcome(k, tables, a, n, estimates, out);
    NestedAnswers(k, tables, a, estimates, full);
  }

  lemma LimitedNestedResult(k: Kernels, tables: Tables, p: Plan, n: int, estimates: Estimates, out: seq<Row>)
    returns (full: seq<Row>)
    requires Query(p) && InRange(p) && PlanTyped(p) && Plain(tables) && Conforms(tables, p) && PlanReadsTyped(k, tables, p)
    requires PlanQuery(k, Limit(p, n), estimates).Some?
    requires Outcome(k, tables, PlanQuery(k, Limit(p, n), estimates).value, out)
    ensures Answers(k, tables, p, full) && out == TakeRows(n, full)
  {
    hide EvalPlan, EvalPhysical, Answers, Outcome, Convert, Annotate, Query, InRange, TakeRows;
    var rewritten, a := Rewrite(k, p), WithoutLimit(Optimized(k, Limit(p, n)));
    RewritePreserves(k, tables, p);
    RewriteReadsTyped(k, tables, p);
    LimitedNested(k, p, n);
    BareMeaning(k, tables, a);
    BareMeaning(k, tables, rewritten);
    full := LimitedNestedAnswers(k, tables, p, n, estimates, out);
    AnswersBare(k, tables, a, rewritten, full);
    AnswersRewritten(k, tables, p, full);
  }

  /** With a LIMIT, it delivers the first rows of such an answer. */
  method RunLimitedNestedQuery(k: Kernels, tables: Tables, p: Plan, n: int, estimates: Estimates,
                               engine: Engine)
    returns (result: Option<seq<Row>>, ghost full: seq<Row>)
    requires Splits(engine) && Query(p) && InRange(p)
    requires PlanTyped(p) && Plain(tables) && Conforms(tables, p) && PlanReadsTyped(k, tables, p)
    ensures Met(Rewrite(k, Limit(p, n)), {}) ==> PlanQuery(k, Limit(p, n), estimates).Some?
    ensures result.Some? <==>
      && Met(Rewrite(k, Limit(p, n)), {})
      && Accepts(k, tables, PlanQuery(k, Limit(p, n), estimates).value, engine.maxDistinctKeys)
    ensures result.Some? ==> Answers(k, tables, p, full) && result.value == TakeRows(n, full)
  {
    hide EvalPlan, EvalPhysical, Accepts, Convert, Answers, Outcome, Query, PlanReadsTyped, Met, InRange, Rewrite, TakeRows;
    full := [];
    result := ExecuteLimitedNestedQuery(k, tables, p, n, estimates, engine);
    if result.Some? {
      full := LimitedNestedResult(k, tables, p, n, estimates, result.value);
    }
  }
}
