/** The whole path from a bound logical plan to a physical plan: rewriting, projection
push-down, physical planning. For a query block it succeeds exactly when every position it
demands is a column of its scans, and then it keeps the result. */
module QueryPlanning {
  import opened Expressions
  import opened Relational
  import opened Aggregation
  import opened JoinSemantics
  import opened LogicalPlans
  import opened Simplifier
  import opened Rewriter
  import opened PhysicalPlanner
  import opened BlockShapes
  import opened DerivedColumns
  import opened SingleBlocks
  import opened RequiredColumns

  /** `optimize` followed by `convert`. */
  function PlanQuery(k: Kernels, p: Plan, estimates: Estimates): Option<PhysicalPlan>
  {
    match Annotate(Rewrite(k, p), {}, [])
    case Some(annotated) => Convert(annotated, estimates)
    case None => None
  }

  /** The plan `optimize` hands to `convert`; where push-down fails, there is none to hand on. */
  function Optimized(k: Kernels, p: Plan): Plan
  {
    match Annotate(Rewrite(k, p), {}, [])
    case Some(annotated) => annotated
    case None => Rewrite(k, p)
  }

  // ---------------------------------------------------------------------------
  // Simplification reads no new columns
  // ---------------------------------------------------------------------------

  /** Folding yields one operand, a literal, or the node itself. */
  lemma FoldShape(k: Kernels, op: BinaryOp, l: Expr, r: Expr, t: TypeId)
    ensures var folded := FoldBinary(k, op, l, r, t);
            folded == l || folded == r || folded.Literal? || folded == Binary(op, l, r, t)
  {
  }

  lemma FoldColumns(k: Kernels, op: BinaryOp, l: Expr, r: Expr, t: TypeId)
    ensures Columns(FoldBinary(k, op, l, r, t)) <= Columns(l) + Columns(r)
  {
    hide FoldBinary;
    FoldShape(k, op, l, r, t);
  }

  lemma ExpansionColumns(s: Expr, lo: Expr, hi: Expr)
    ensures Columns(Expansion(s, lo, hi)) == Columns(s) + Columns(lo) + Columns(hi)
  {
    assert Columns(Binary(GreaterEqual, s, lo, Boolean)) == Columns(s) + Columns(lo);
    assert Columns(Binary(LessEqual, s, hi, Boolean)) == Columns(s) + Columns(hi);
  }

  lemma {:induction false} SimplifyColumns(k: Kernels, e: Expr)
    ensures Columns(Simplify(k, e)) <= Columns(e)
    decreases BetweenCount(e), e
  {
    hide FoldBinary;
    match e
    case Between(s, lo, hi) =>
      SimplifyColumns(k, s);
      SimplifyColumns(k, lo);
      SimplifyColumns(k, hi);
      var s', lo', hi' := Simplify(k, s), Simplify(k, lo), Simplify(k, hi);
      ExpansionCount(s', lo', hi');
      ExpansionColumns(s', lo', hi');
      SimplifyColumns(k, Expansion(s', lo', hi'));
    case Unary(_, o, _) => SimplifyColumns(k, o);
    case Binary(op, l, r, t) =>
      SimplifyColumns(k, l);
      SimplifyColumns(k, r);
      FoldColumns(k, op, Simplify(k, l), Simplify(k, r), t);
    case Cast(o, _) => SimplifyColumns(k, o);
    case Like(s, _, _) => SimplifyColumns(k, s);
    case Case(c, r, o, _) => SimplifyColumns(k, c); SimplifyColumns(k, r); SimplifyColumns(k, o);
    case Extract(_, o, _) => SimplifyColumns(k, o);
    case Substring(o, _, _, _) => SimplifyColumns(k, o);
    case Column(_, _, _) =>
    case Literal(_, _) =>
  }

  lemma FoldReadsTyped(k: Kernels, op: BinaryOp, l: Expr, r: Expr, t: TypeId, row: Row)
    requires ReadsTyped(l, row) && ReadsTyped(r, row)
    ensures ReadsTyped(FoldBinary(k, op, l, r, t), row)
  {
    hide FoldBinary;
    FoldShape(k, op, l, r, t);
  }

  lemma ExpansionReadsTyped(s: Expr, lo: Expr, hi: Expr, row: Row)
    requires ReadsTyped(s, row) && ReadsTyped(lo, row) && ReadsTyped(hi, row)
    ensures ReadsTyped(Expansion(s, lo, hi), row)
  {
    assert ReadsTyped(Binary(GreaterEqual, s, lo, Boolean), row);
    assert ReadsTyped(Binary(LessEqual, s, hi, Boolean), row);
  }

  lemma {:induction false} SimplifyReadsTyped(k: Kernels, e: Expr, row: Row)
    requires ReadsTyped(e, row)
    ensures ReadsTyped(Simplify(k, e), row)
    decreases BetweenCount(e), e
  {
    hide FoldBinary;
    match e
    case Between(s, lo, hi) =>
      SimplifyReadsTyped(k, s, row);
      SimplifyReadsTyped(k, lo, row);
      SimplifyReadsTyped(k, hi, row);
      var s', lo', hi' := Simplify(k, s), Simplify(k, lo), Simplify(k, hi);
      ExpansionCount(s', lo', hi');
      ExpansionReadsTyped(s', lo', hi', row);
      SimplifyReadsTyped(k, Expansion(s', lo', hi'), row);
    case Unary(_, o, _) => SimplifyReadsTyped(k, o, row);
    case Binary(op, l, r, t) =>
      SimplifyReadsTyped(k, l, row);
      SimplifyReadsTyped(k, r, row);
      FoldReadsTyped(k, op, Simplify(k, l), Simplify(k, r), t, row);
    case Cast(o, _) => SimplifyReadsTyped(k, o, row);
    case Like(s, _, _) => SimplifyReadsTyped(k, s, row);
    case Case(c, r, o, _) =>
      SimplifyReadsTyped(k, c, row);
      SimplifyReadsTyped(k, r, row);
      SimplifyReadsTyped(k, o, row);
    case Extract(_, o, _) => SimplifyReadsTyped(k, o, row);
    case Substring(o, _, _, _) => SimplifyReadsTyped(k, o, row);
    case Column(_, _, _) =>
    case Literal(_, _) =>
  }

  lemma {:induction false} SimplifyItemsColumns(k: Kernels, items: seq<NamedExpr>)
    ensures ItemColumns(SimplifyItems(k, items)) <= ItemColumns(items)
  {
    if items != [] {
      var simple := (item: NamedExpr) => NamedExpr(Simplify(k, item.expr), item.name);
      assert items == [items[0]] + items[1..];
      MapAppend(simple, [items[0]], items[1..]);
      assert SimplifyItems(k, items)[1..] == SimplifyItems(k, items[1..]);
      SimplifyColumns(k, items[0].expr);
      SimplifyItemsColumns(k, items[1..]);
    }
  }

  lemma {:induction false} SimplifyCallsColumns(k: Kernels, calls: seq<AggregateCall>)
    ensures CallColumns(SimplifyCalls(k, calls)) <= CallColumns(calls)
  {
    if calls != [] {
      var simple := (call: AggregateCall) => AggregateCall(call.func, Simplify(k, call.argument), call.name);
      assert calls == [calls[0]] + calls[1..];
      MapAppend(simple, [calls[0]], calls[1..]);
      assert SimplifyCalls(k, calls)[1..] == SimplifyCalls(k, calls[1..]);
      SimplifyColumns(k, calls[0].argument);
      SimplifyCallsColumns(k, calls[1..]);
    }
  }

  lemma {:induction false} SimplifyKeysColumns(k: Kernels, keys: seq<SortKey>)
    ensures KeyColumns(SimplifyKeys(k, keys)) <= KeyColumns(keys)
  {
    if keys != [] {
      var simple := (key: SortKey) => SortKey(Simplify(k, key.expr), key.ascending);
      assert keys == [keys[0]] + keys[1..];
      MapAppend(simple, [keys[0]], keys[1..]);
      assert SimplifyKeys(k, keys)[1..] == SimplifyKeys(k, keys[1..]);
      SimplifyColumns(k, keys[0].expr);
      SimplifyKeysColumns(k, keys[1..]);
    }
  }

  // ---------------------------------------------------------------------------
  // Pushed conjuncts stay in range
  // ---------------------------------------------------------------------------

  lemma {:induction false} ConjunctsWithin(e: Expr, n: nat)
    requires Within(Columns(e), n)
    ensures forall c :: c in Conjuncts(e) ==> Within(Columns(c), n)
  {
    if e.Binary? && e.bop.And? {
      ConjunctsWithin(e.left, n);
      ConjunctsWithin(e.right, n);
    }
  }

  lemma {:induction false} ConjunctionWithin(es: seq<Expr>, n: nat)
    requires es != [] && forall c :: c in es ==> Within(Columns(c), n)
    ensures Within(Columns(Conjunction(es)), n)
  {
    if |es| > 1 {
      assert es[|es| - 1] in es;
      ConjunctionWithin(es[..|es| - 1], n);
    }
  }

  lemma {:induction false} ShiftWithin(e: Expr, delta: nat, n: nat)
    requires Within(Columns(e), n) && Rename(e, ShiftBy(delta)).Some?
    ensures forall i :: i in Columns(Rename(e, ShiftBy(delta)).value) ==> i + delta < n
  {
    match e
    case Column(_, i, _) => assert i in Columns(e);
    case Literal(_, _) =>
    case Binary(_, l, r, _) => ShiftWithin(l, delta, n); ShiftWithin(r, delta, n);
    case Unary(_, o, _) => ShiftWithin(o, delta, n);
    case Cast(o, _) => ShiftWithin(o, delta, n);
    case Between(s, lo, hi) => ShiftWithin(s, delta, n); ShiftWithin(lo, delta, n); ShiftWithin(hi, delta, n);
    case Like(s, _, _) => ShiftWithin(s, delta, n);
    case Case(c, r, o, _) => ShiftWithin(c, delta, n); ShiftWithin(r, delta, n); ShiftWithin(o, delta, n);
    case Extract(_, o, _) => ShiftWithin(o, delta, n);
    case Substring(o, _, _, _) => ShiftWithin(o, delta, n);
  }

  lemma SplitWithin(condition: Expr, n: nat, m: nat, pushable: bool)
    requires Within(Columns(condition), n + m)
    ensures var split := SplitConjuncts(Conjuncts(condition), n, pushable);
            && (forall e :: e in split.left ==> Within(Columns(e), n))
            && (forall e :: e in split.right ==> Within(Columns(e), m))
  {
    var es := Conjuncts(condition);
    var split := SplitConjuncts(es, n, pushable);
    SplitIsFaithful(es, n, pushable);
    ConjunctsWithin(condition, n + m);
    forall e | e in split.right ensures Within(Columns(e), m) {
      var o :| o in es && ReadsOnlyRight(o, n) && e == ShiftColumns(o, n);
      RenameDefined(o, ShiftBy(n));
      ShiftWithin(o, n, n + m);
    }
  }

  // ---------------------------------------------------------------------------
  // Rewriting keeps the block shape
  // ---------------------------------------------------------------------------

  /** A well-indexed join tree with WHERE and ORDER BY. */
  ghost predicate GoodBlock(p: Plan)
  {
    ScanBlock(p) && InRange(p) && LimitFree(p)
  }

  /** A good block with the columns of `p`. */
  ghost predicate SameBlock(r: Plan, p: Plan)
    requires ScanBlock(p)
  {
    GoodBlock(r) && Width(r) == Width(p) && FullWidth(r) == FullWidth(p) && NamesOf(r) == NamesOf(p)
  }

  lemma {:induction false} PushedGoodSide(k: Kernels, side: Plan, es: seq<Expr>) returns (r: Plan)
    requires GoodBlock(side) && forall e :: e in es ==> Within(Columns(e), Width(side))
    ensures r == if es == [] then side else Rewrite(k, Filter(side, Conjunction(es)))
    ensures SameBlock(r, side)
    decreases NonFilters(side), FilterChain(side) + 2
  {
    if es == [] {
      r := side;
    } else {
      ConjunctionWithin(es, Width(side));
      r := Rewrite(k, Filter(side, Conjunction(es)));
      RewriteGoodBlock(k, Filter(side, Conjunction(es)));
    }
  }

  lemma GoodJoin(join: Plan, l: Plan, r: Plan, remaining: seq<Expr>)
    requires join.Join? && GoodBlock(join) && SameBlock(l, join.left) && SameBlock(r, join.right)
    requires forall e :: e in remaining ==> Within(Columns(e), Width(join))
    ensures SameBlock(FilterUnlessEmpty(join.(left := l, right := r), remaining), join)
  {
    if remaining != [] {
      ConjunctionWithin(remaining, Width(join));
    }
  }

  lemma RemainingWithin(condition: Expr, n: nat, pushable: bool, width: nat)
    requires Within(Columns(condition), width)
    ensures forall e :: e in SplitConjuncts(Conjuncts(condition), n, pushable).remaining ==> Within(Columns(e), width)
  {
    SplitIsFaithful(Conjuncts(condition), n, pushable);
    ConjunctsWithin(condition, width);
  }

  lemma {:induction false} PushGoodBlock(k: Kernels, join: Plan, condition: Expr)
    requires join.Join? && GoodBlock(join) && Within(Columns(condition), Width(join))
    ensures SameBlock(PushThroughJoin(k, join, condition), join)
    decreases NonFilters(join), 0
  {
    NonFiltersPositive(join.left);
    NonFiltersPositive(join.right);
    var split := SplitConjuncts(Conjuncts(condition), Width(join.left), join.joinType.Inner?);
    SplitWithin(condition, Width(join.left), Width(join.right), join.joinType.Inner?);
    RemainingWithin(condition, Width(join.left), join.joinType.Inner?, Width(join));
    if split.left != [] || split.right != [] {
      var l := PushedGoodSide(k, join.left, split.left);
      var r := PushedGoodSide(k, join.right, split.right);
      GoodJoin(join, l, r, split.remaining);
    }
  }

  lemma {:induction false} FilterGoodBlock(k: Kernels, p: Plan)
    requires p.Filter? && GoodBlock(p)
    ensures SameBlock(Rewrite(k, p), p)
    decreases NonFilters(p), FilterChain(p), 0
  {
    RewriteGoodBlock(k, p.child);
    var child := Rewrite(k, p.child);
    var simplified := Simplify(k, p.condition);
    SimplifyColumns(k, p.condition);
    if child.Filter? {
      var both := Binary(And, simplified, child.condition, Boolean);
      ShorterChain(p, child.child, Simplify(k, both));
      SimplifyColumns(k, both);
      assert Within(Columns(both), Width(child.child));
      RewriteGoodBlock(k, Filter(child.child, Simplify(k, both)));
    } else if simplified.Literal? && simplified.value.Bool? {
    } else if child.Join? {
      PushGoodBlock(k, child, simplified);
    }
  }

  lemma {:induction false} RewriteGoodBlock(k: Kernels, p: Plan)
    requires GoodBlock(p)
    ensures SameBlock(Rewrite(k, p), p)
    decreases NonFilters(p), FilterChain(p), 1
  {
    match p
    case Scan(_, _, _, _) =>
    case Join(l, r, _, _, _, _) =>
      NonFiltersPositive(l);
      NonFiltersPositive(r);
      RewriteGoodBlock(k, l);
      RewriteGoodBlock(k, r);
    case Filter(_, _) => FilterGoodBlock(k, p);
    case Sort(c, keys) =>
      RewriteGoodBlock(k, c);
      SimplifyKeysColumns(k, keys);
  }

  /** A well-indexed query block without LIMIT: projections, aggregations, HAVING, WHERE over
      derived tables and ORDER BY over a join tree, reading its derived tables by position. */
  ghost predicate GoodQuery(p: Plan)
  {
    SingleBlock(p) && !ScanBlock(p) && InRange(p) && LimitFree(p) && DerivedByPosition(p)
  }

  lemma SimplifiedWidths(k: Kernels, items: seq<NamedExpr>, calls: seq<AggregateCall>)
    ensures |SimplifyItems(k, items)| == |items| && |SimplifyCalls(k, calls)| == |calls|
  {
    MapIndex((item: NamedExpr) => NamedExpr(Simplify(k, item.expr), item.name), items);
    MapIndex((call: AggregateCall) => AggregateCall(call.func, Simplify(k, call.argument), call.name), calls);
  }

  lemma SimplifiedNames(k: Kernels, items: seq<NamedExpr>, calls: seq<AggregateCall>)
    ensures (set item | item in SimplifyItems(k, items) :: item.name) == (set item | item in items :: item.name)
    ensures (set call | call in SimplifyCalls(k, calls) :: call.name) == (set call | call in calls :: call.name)
  {
    var items', calls' := SimplifyItems(k, items), SimplifyCalls(k, calls);
    MapIndex((item: NamedExpr) => NamedExpr(Simplify(k, item.expr), item.name), items);
    MapIndex((call: AggregateCall) => AggregateCall(call.func, Simplify(k, call.argument), call.name), calls);
    assert forall i :: 0 <= i < |items| ==> items'[i] in items' && items[i] in items;
    assert forall i :: 0 <= i < |calls| ==> calls'[i] in calls' && calls[i] in calls;
  }

  lemma SimplifiedPositions(k: Kernels, items: seq<NamedExpr>, names: set<string>)
    ensures forall columns :: AlignedAt(items, columns) ==> AlignedAt(SimplifyItems(k, items), columns)
    ensures Renames(items, names) ==> Renames(SimplifyItems(k, items), names)
  {
    var items' := SimplifyItems(k, items);
    MapIndex((item: NamedExpr) => NamedExpr(Simplify(k, item.expr), item.name), items);
    if Renames(items, names) {
      var i :| 0 <= i < |items| && items[i].name !in names;
      assert items'[i] in items';
    }
  }

  /** What the node above needs to know of a rewritten child. */
  ghost predicate KeepsShape(r: Plan, p: Plan)
    requires SingleBlock(p)
  {
    && Width(r) == Width(p) && NamesOf(r) == NamesOf(p)
    && (if ScanBlock(p) then GoodBlock(r) else GoodQuery(r))
    && SingleBlock(r) && FullWidth(Block(r)) == FullWidth(Block(p))
    && (!ReferencesScanSchema(p) ==> !ReferencesScanSchema(r))
    && KeepsWhat(r, p)
  }

  /** Columns that keep their positions in `p` do so in `r`. */
  ghost predicate KeepsWhat(r: Plan, p: Plan)
  {
    forall columns :: KeepsColumns(p, columns) ==> KeepsColumns(r, columns)
  }

  lemma BlockKeepsShape(r: Plan, p: Plan)
    requires ScanBlock(p) && SameBlock(r, p)
    ensures SingleBlock(p) && KeepsShape(r, p)
  {
    ScanBlockReferences(p);
    ScanBlockReferences(r);
    forall columns ensures !KeepsColumns(p, columns) {
      NoPositions(p, columns);
    }
  }

  lemma {:induction false} NoPositions(p: Plan, columns: set<nat>)
    requires ScanBlock(p)
    ensures !KeepsColumns(p, columns)
  {
    if p.Filter? || p.Sort? || p.Limit? { NoPositions(p.child, columns); }
  }

  /** One step down a query block. */
  lemma BlockChild(p: Plan)
    requires GoodQuery(p)
    ensures !p.Scan? && !p.Join? && !p.Limit? && SingleBlock(p.child) && InRange(p.child)
    ensures ReadByPosition(p.child, NodeColumns(p))
    ensures if ScanBlock(p.child) then GoodBlock(p.child) else GoodQuery(p.child)
    ensures p.Filter? || p.Sort? ==> !ScanBlock(p.child)
    ensures Block(p) == Block(p.child)
  {
  }

  /** One node over a child that kept its shape. */
  lemma NodeKeepsShape(r: Plan, p: Plan)
    requires GoodQuery(p) && !r.Scan? && !r.Join? && !r.Limit? && SingleBlock(p.child) && KeepsShape(r.child, p.child)
    requires (r.Filter? && p.Filter?) || (r.Sort? && p.Sort?) || (r.Project? && p.Project?) || (r.Group? && p.Group?)
    requires InRange(r) && Width(r) == Width(p) && NamesOf(r) == NamesOf(p)
    requires p.Filter? && p.child.Group? ==> r.child.Group?
    requires KeepsWhat(r, p) && NodeColumns(r) <= NodeColumns(p)
    ensures KeepsShape(r, p)
  {
    BlockChild(p);
    if ScanBlock(p.child) {
      BlocksReadNoDerived(r.child);
    } else {
      StillByPosition(r.child, p.child, NodeColumns(p), NodeColumns(r));
    }
  }

  lemma StillByPosition(r: Plan, p: Plan, more: set<nat>, fewer: set<nat>)
    requires SingleBlock(p) && !ScanBlock(p) && KeepsShape(r, p) && ReadByPosition(p, more) && fewer <= more
    ensures ReadByPosition(r, fewer)
  {
    if KeepsColumns(p, more) {
      KeepsFewer(r, more, fewer);
    }
  }

  lemma {:induction false} FilterGoodQuery(k: Kernels, p: Plan)
    requires p.Filter? && GoodQuery(p) && SingleBlock(p.child) && KeepsShape(Rewrite(k, p.child), p.child)
    requires !ScanBlock(p.child)
    ensures KeepsShape(Rewrite(k, p), p)
    decreases NonFilters(p), FilterChain(p), 0
  {
    hide NamesOf;
    var child := Rewrite(k, p.child);
    var simplified := Simplify(k, p.condition);
    SimplifyColumns(k, p.condition);
    if child.Filter? {
      StillByPosition(child, p.child, Columns(p.condition), Columns(p.condition));
      var merged := Merged(k, p, child);
      ShorterChain(p, child.child, merged.condition);
      RewriteGoodQuery(k, merged);
      FilterNames(p);
      FilterNames(child);
      FilterNames(merged);
      FilterKeeps(p, child, merged);
    } else if simplified.Literal? && simplified.value == Bool(true) {
      FilterNames(p);
    } else {
      var r := Filter(child, simplified);
      FilterNames(p);
      FilterNames(r);
      NodeKeepsShape(r, p);
    }
  }

  lemma FilterNames(p: Plan)
    requires p.Filter?
    ensures NamesOf(p) == NamesOf(p.child)
  {
  }

  lemma FilterKeeps(p: Plan, child: Plan, merged: Plan)
    requires p.Filter? && child.Filter? && merged.Filter? && merged.child == child.child && KeepsWhat(child, p.child)
    ensures KeepsWhat(merged, p)
  {
    forall columns | KeepsColumns(p, columns) ensures KeepsColumns(merged, columns) {
      assert KeepsColumns(p.child, columns) && KeepsColumns(child, columns);
    }
  }

  /** Two stacked filters merged into one over the same child. */
  lemma Merged(k: Kernels, p: Plan, child: Plan) returns (merged: Plan)
    requires p.Filter? && GoodQuery(p) && child.Filter? && GoodQuery(child) && Width(child) == Width(p)
    requires ReadByPosition(child, Columns(p.condition))
    ensures merged == Filter(child.child, Simplify(k, Binary(And, Simplify(k, p.condition), child.condition, Boolean)))
    ensures GoodQuery(merged)
    ensures Columns(merged.condition) <= Columns(p.condition) + Columns(child.condition)
  {
    var both := Binary(And, Simplify(k, p.condition), child.condition, Boolean);
    SimplifyColumns(k, p.condition);
    SimplifyColumns(k, both);
    merged := Filter(child.child, Simplify(k, both));
    assert Within(Columns(both), Width(child.child));
    if !ScanBlock(child.child) && ReferencesScanSchema(child.child) {
      KeepsBoth(child.child, Columns(p.condition), Columns(child.condition));
      KeepsFewer(child.child, Columns(p.condition) + Columns(child.condition), Columns(merged.condition));
    }
  }

  /** Rewriting keeps query blocks query blocks. */
  lemma {:induction false} RewriteGoodQuery(k: Kernels, p: Plan)
    requires GoodQuery(p) || GoodBlock(p)
    ensures SingleBlock(p) && KeepsShape(Rewrite(k, p), p)
    decreases NonFilters(p), FilterChain(p), 1
  {
    hide KeepsShape;
    if ScanBlock(p) {
      RewriteGoodBlock(k, p);
      BlockKeepsShape(Rewrite(k, p), p);
    } else {
      BlockChild(p);
      RewriteGoodQuery(k, p.child);
      match p
      case Filter(_, _) => FilterGoodQuery(k, p);
      case Project(_, _) => ProjectGoodQuery(k, p);
      case Group(_, _, _) => GroupGoodQuery(k, p);
      case Sort(_, _) => SortGoodQuery(k, p);
    }
  }

  lemma ProjectGoodQuery(k: Kernels, p: Plan)
    requires p.Project? && GoodQuery(p) && SingleBlock(p.child) && KeepsShape(Rewrite(k, p.child), p.child)
    ensures KeepsShape(Rewrite(k, p), p)
  {
    SimplifyItemsColumns(k, p.items);
    SimplifiedWidths(k, p.items, []);
    SimplifiedNames(k, p.items, []);
    SimplifiedPositions(k, p.items, NamesOf(p.child));
    BlockChild(p);
    NodeKeepsShape(Rewrite(k, p), p);
  }

  lemma GroupGoodQuery(k: Kernels, p: Plan)
    requires p.Group? && GoodQuery(p) && SingleBlock(p.child) && KeepsShape(Rewrite(k, p.child), p.child)
    ensures KeepsShape(Rewrite(k, p), p)
  {
    SimplifyItemsColumns(k, p.groupBy);
    SimplifyCallsColumns(k, p.calls);
    SimplifiedWidths(k, p.groupBy, p.calls);
    SimplifiedNames(k, p.groupBy, p.calls);
    NodeKeepsShape(Rewrite(k, p), p);
  }

  lemma SortGoodQuery(k: Kernels, p: Plan)
    requires p.Sort? && GoodQuery(p) && SingleBlock(p.child) && KeepsShape(Rewrite(k, p.child), p.child)
    ensures KeepsShape(Rewrite(k, p), p)
  {
    SimplifyKeysColumns(k, p.keys);
    NodeKeepsShape(Rewrite(k, p), p);
  }

  // ---------------------------------------------------------------------------
  // Rewriting demands no more columns
  // ---------------------------------------------------------------------------

  lemma {:induction false} ScanDemandGrows(p: Plan, fewer: set<nat>, more: set<nat>)
    requires SingleBlock(p) && fewer <= more
    ensures ScanDemand(p, fewer) <= ScanDemand(p, more)
  {
    if !ScanBlock(p) {
      ScanDemandGrows(p.child, Demand(p, fewer), Demand(p, more));
    }
  }

  lemma {:induction false} RewrittenDemand(k: Kernels, p: Plan, fewer: set<nat>, more: set<nat>)
    requires GoodQuery(p) || GoodBlock(p)
    requires fewer <= more
    ensures SingleBlock(p) && SingleBlock(Rewrite(k, p))
    ensures ScanDemand(Rewrite(k, p), fewer) <= ScanDemand(p, more)
    decreases NonFilters(p), FilterChain(p), 1
  {
    hide KeepsShape, GoodQuery;
    RewriteGoodQuery(k, p);
    RewrittenBlock(k, p);
    if !ScanBlock(p) {
      BlockChild(p);
      RewriteGoodQuery(k, p.child);
      RewrittenBlock(k, p.child);
      match p
      case Filter(_, _) => FilterDemand(k, p, fewer, more);
      case Project(c, items) =>
        SimplifyItemsColumns(k, items);
        RewrittenDemand(k, c, Demand(Rewrite(k, p), fewer), Demand(p, more));
      case Group(c, groupBy, calls) =>
        SimplifyItemsColumns(k, groupBy);
        SimplifyCallsColumns(k, calls);
        RewrittenDemand(k, c, Demand(Rewrite(k, p), fewer), Demand(p, more));
      case Sort(c, keys) =>
        SimplifyKeysColumns(k, keys);
        RewrittenDemand(k, c, Demand(Rewrite(k, p), fewer), Demand(p, more));
    }
  }

  lemma RewrittenBlock(k: Kernels, p: Plan)
    requires GoodQuery(p) || GoodBlock(p)
    requires SingleBlock(p) && KeepsShape(Rewrite(k, p), p)
    ensures SingleBlock(Rewrite(k, p)) && (ScanBlock(Rewrite(k, p)) <==> ScanBlock(p))
  {
  }

  lemma {:induction false} FilterDemand(k: Kernels, p: Plan, fewer: set<nat>, more: set<nat>)
    requires p.Filter? && GoodQuery(p) && !ScanBlock(p.child) && fewer <= more
    ensures SingleBlock(p) && SingleBlock(Rewrite(k, p))
    ensures ScanDemand(Rewrite(k, p), fewer) <= ScanDemand(p, more)
    decreases NonFilters(p), FilterChain(p), 0
  {
    BlockChild(p);
    RewriteGoodQuery(k, p);
    RewriteGoodQuery(k, p.child);
    var child := Rewrite(k, p.child);
    var simplified := Simplify(k, p.condition);
    SimplifyColumns(k, p.condition);
    if child.Filter? {
      MergedDemand(k, p, child, fewer, more);
    } else if simplified.Literal? && simplified.value == Bool(true) {
      RewrittenDemand(k, p.child, fewer, Demand(p, more));
    } else {
      RewrittenDemand(k, p.child, Demand(Filter(child, simplified), fewer), Demand(p, more));
    }
  }

  lemma {:induction false} MergedDemand(k: Kernels, p: Plan, child: Plan, fewer: set<nat>, more: set<nat>)
    requires p.Filter? && GoodQuery(p) && !ScanBlock(p.child) && fewer <= more
    requires child == Rewrite(k, p.child) && child.Filter? && GoodQuery(child) && Width(child) == Width(p)
    ensures SingleBlock(p) && SingleBlock(Rewrite(k, p))
    ensures ScanDemand(Rewrite(k, p), fewer) <= ScanDemand(p, more)
    decreases NonFilters(p), FilterChain(p), 0, 0
  {
    BlockChild(p);
    BlockChild(child);
    RewriteGoodQuery(k, p.child);
    StillByPosition(child, p.child, Columns(p.condition), Columns(p.condition));
    var merged := Merged(k, p, child);
    ShorterChain(p, child.child, merged.condition);
    RewrittenDemand(k, merged, fewer, fewer);
    RewrittenDemand(k, p.child, Demand(p, more), Demand(p, more));
    ScanDemandGrows(child.child, Demand(merged, fewer), Demand(child, Demand(p, more)));
  }

  /** A query whose demands are met stays one. */
  lemma DemandsStayMet(k: Kernels, p: Plan)
    requires GoodQuery(p) && DemandsMet(p)
    ensures DemandsMet(Rewrite(k, p))
  {
    RewriteGoodQuery(k, p);
    RewrittenDemand(k, p, {}, {});
  }

  // ---------------------------------------------------------------------------
  // The theorem
  // ---------------------------------------------------------------------------

  lemma SimplifiedItemsReadTyped(k: Kernels, items: seq<NamedExpr>, rows: seq<Row>)
    requires ItemsReadTyped(items, rows)
    ensures ItemsReadTyped(SimplifyItems(k, items), rows)
  {
    var simple := (item: NamedExpr) => NamedExpr(Simplify(k, item.expr), item.name);
    forall row, item | row in rows && item in SimplifyItems(k, items) ensures ReadsTyped(item.expr, row) {
      MapMember(simple, items, item);
      var original :| original in items && item == simple(original);
      SimplifyReadsTyped(k, original.expr, row);
    }
  }

  lemma {:induction false} PushedReadsTyped(k: Kernels, tables: Tables, side: Plan, es: seq<Expr>)
    requires Conforms(tables, side) && PlanTyped(side) && PlanReadsTyped(k, tables, side) && forall e :: e in es ==> Condition(e)
    ensures PlanReadsTyped(k, tables, if es == [] then side else Rewrite(k, Filter(side, Conjunction(es))))
    decreases NonFilters(side), FilterChain(side) + 2
  {
    if es != [] {
      ConjunctionTyped(es);
      RewriteReadsTyped(k, tables, Filter(side, Conjunction(es)));
    }
  }

  lemma {:induction false} PushReadsTyped(k: Kernels, tables: Tables, join: Plan, condition: Expr)
    requires join.Join? && Conforms(tables, join) && PlanTyped(join) && PlanReadsTyped(k, tables, join) && Condition(condition)
    ensures PlanReadsTyped(k, tables, PushThroughJoin(k, join, condition))
    decreases NonFilters(join), 0
  {
    hide Condition;
    NonFiltersPositive(join.left);
    NonFiltersPositive(join.right);
    var split := SplitConjuncts(Conjuncts(condition), Width(join.left), join.joinType.Inner?);
    SplitTyped(k, condition, Width(join.left), join.joinType.Inner?);
    if split.left != [] || split.right != [] {
      PushedReadsTyped(k, tables, join.left, split.left);
      PushedReadsTyped(k, tables, join.right, split.right);
    }
  }

  lemma {:induction false} FilterReadsTyped(k: Kernels, tables: Tables, p: Plan)
    requires p.Filter? && PlanTyped(p) && Conforms(tables, p) && PlanReadsTyped(k, tables, p)
    ensures PlanReadsTyped(k, tables, Rewrite(k, p))
    decreases NonFilters(p), FilterChain(p), 0
  {
    hide EvalPlan;
    RewriteReadsTyped(k, tables, p.child);
    RewritePreserves(k, tables, p.child);
    var child := Rewrite(k, p.child);
    var simplified := Simplify(k, p.condition);
    if child.Filter? {
      var merged := Simplify(k, Binary(And, simplified, child.condition, Boolean));
      ShorterChain(p, child.child, merged);
      MergePreserves(k, p.condition, child.condition, []);
      RewriteReadsTyped(k, tables, Filter(child.child, merged));
    } else if simplified.Literal? && simplified.value.Bool? {
    } else if child.Join? {
      SimplifyFilter(k, p.condition, []);
      PushReadsTyped(k, tables, child, simplified);
    }
  }

  lemma {:induction false} LimitReadsTyped(k: Kernels, tables: Tables, p: Plan, n: int)
    requires PlanTyped(p) && Conforms(tables, p) && PlanReadsTyped(k, tables, p)
    ensures PlanReadsTyped(k, tables, InsertLimit(p, n))
  {
    hide EvalPlan;
    if p.Project? {
      LimitReadsTyped(k, tables, p.child, n);
      InsertLimitPreserves(k, tables, p.child, n);
      var rows := EvalPlan(k, tables, p.child);
      assert forall row :: row in TakeRows(n, rows) ==> row in rows;
      assert ItemsReadTyped(p.items, TakeRows(n, rows));
    }
  }

  /** Rewriting any plan keeps the types of what its projections read. */
  lemma {:induction false} RewriteReadsTyped(k: Kernels, tables: Tables, p: Plan)
    requires PlanTyped(p) && Conforms(tables, p) && PlanReadsTyped(k, tables, p)
    ensures PlanReadsTyped(k, tables, Rewrite(k, p))
    decreases NonFilters(p), FilterChain(p), 1
  {
    hide EvalPlan;
    match p
    case Scan(_, _, _, _) =>
    case Join(l, r, _, _, _, _) =>
      NonFiltersPositive(l);
      NonFiltersPositive(r);
      RewriteReadsTyped(k, tables, l);
      RewriteReadsTyped(k, tables, r);
    case Filter(_, _) => FilterReadsTyped(k, tables, p);
    case Project(c, items) =>
      RewriteReadsTyped(k, tables, c);
      RewritePreserves(k, tables, c);
      SimplifiedItemsReadTyped(k, items, EvalPlan(k, tables, c));
    case Group(c, _, _) => RewriteReadsTyped(k, tables, c);
    case Sort(c, _) => RewriteReadsTyped(k, tables, c);
    case Limit(c, n) =>
      RewriteReadsTyped(k, tables, c);
      RewritePreserves(k, tables, c);
      LimitReadsTyped(k, tables, Rewrite(k, c), n);
  }

  // ---------------------------------------------------------------------------
  // When planning succeeds
  // ---------------------------------------------------------------------------

  /** The rewritten, annotated plan, and all that is known of it. */
  lemma Annotated(k: Kernels, p: Plan) returns (annotated: Plan)
    requires GoodQuery(p) && Annotate(Rewrite(k, p), {}, []).Some?
    ensures annotated == Annotate(Rewrite(k, p), {}, []).value && Bare(annotated) == Bare(Rewrite(k, p))
    ensures GoodQuery(Rewrite(k, p)) && GoodQuery(annotated)
  {
    RewriteGoodQuery(k, p);
    annotated := Annotate(Rewrite(k, p), {}, []).value;
    AnnotateBare(Rewrite(k, p), {}, []);
    SameShape(annotated, Rewrite(k, p));
  }

  /** A query block is planned exactly when every position that its rewritten form demands above
      the scans is a column of the scans; it is enough that the query as written meets this. */
  lemma PlanQuerySucceeds(k: Kernels, p: Plan, estimates: Estimates)
    requires GoodQuery(p)
    ensures PlanQuery(k, p, estimates).Some? <==> DemandsMet(Rewrite(k, p))
    ensures DemandsMet(p) ==> DemandsMet(Rewrite(k, p))
  {
    hide GoodQuery, DemandsMet, KeepsShape;
    var rewritten := Rewrite(k, p);
    if DemandsMet(p) {
      DemandsStayMet(k, p);
    }
    RewrittenAnnotates(k, p);
    if DemandsMet(rewritten) {
      var annotated := Annotated(k, p);
      ResolvedConverts(rewritten, {}, estimates);
    }
  }

  lemma RewrittenAnnotates(k: Kernels, p: Plan)
    requires GoodQuery(p)
    ensures Annotate(Rewrite(k, p), {}, []).Some? <==> DemandsMet(Rewrite(k, p))
  {
    RewriteGoodQuery(k, p);
    QueryAnnotates(Rewrite(k, p), {}, []);
  }

  lemma ResolvedConverts(p: Plan, required: set<nat>, estimates: Estimates)
    requires GoodQuery(p) && Annotate(p, required, []).Some?
    ensures Convert(Annotate(p, required, []).value, estimates).Some?
  {
    AnnotateShape(p, required, []);
    PositionsResolve(Annotate(p, required, []).value, estimates);
    SingleBlockConverts(p, required, [], estimates);
  }

  // SELECT a, COUNT(*) AS c FROM t GROUP BY a HAVING COUNT(*) > 1, on a table with one column.

  const A := Column("a", 0, Int64)
  const C := Column("c", 1, Int64)
  const HAVING_QUERY :=
    Project(Filter(Group(Scan("t", [Field("a", Int64)], {}, []), [NamedExpr(A, "a")], [AggregateCall(CountStar, A, "c")]),
                   Binary(Greater, C, Literal(Int(1), Int64), Boolean)),
            [NamedExpr(A, "a"), NamedExpr(C, "c")])

  lemma HavingQueryColumns()
    ensures ItemColumns(HAVING_QUERY.items) == {0, 1}
    ensures ItemColumns(HAVING_QUERY.child.child.groupBy) == {0} && CallColumns(HAVING_QUERY.child.child.calls) == {0}
  {
    var items, group := HAVING_QUERY.items, HAVING_QUERY.child.child;
    assert items[1..] == [NamedExpr(C, "c")] && items[1..][1..] == [];
    assert ItemColumns(items[1..]) == {1} + ItemColumns([]);
    assert group.groupBy[1..] == [] && group.calls[1..] == [];
  }

  lemma HavingQueryGood()
    ensures GoodQuery(HAVING_QUERY) && PlanTyped(HAVING_QUERY)
  {
    var filter, group := HAVING_QUERY.child, HAVING_QUERY.child.child;
    HavingQueryColumns();
    assert InRange(group) && InRange(filter) by {
      assert InRange(group.child) && Width(group.child) == 1 && Width(group) == 2;
    }
    assert LimitFree(group) && LimitFree(filter) by { assert LimitFree(group.child); }
    assert SingleBlock(group) && SingleBlock(filter) by { assert SingleBlock(group.child); }
    assert DerivedByPosition(group) && DerivedByPosition(filter) by { assert DerivedByPosition(group.child); }
    assert PlanTyped(group) && PlanTyped(filter) by { assert PlanTyped(group.child); }
  }

  lemma HavingQueryRewritten(k: Kernels)
    ensures var group := Rewrite(k, HAVING_QUERY.child.child);
            && group.Group? && group.child == HAVING_QUERY.child.child.child
            && Rewrite(k, HAVING_QUERY) == Project(Filter(group, HAVING_QUERY.child.condition), HAVING_QUERY.items)
  {
    var filter, items := HAVING_QUERY.child, HAVING_QUERY.items;
    MapIndex((item: NamedExpr) => NamedExpr(Simplify(k, item.expr), item.name), items);
    assert SimplifyItems(k, items) == items;
    assert Simplify(k, filter.condition) == filter.condition;
    assert Rewrite(k, filter) == Filter(Rewrite(k, filter.child), filter.condition);
  }

  /** The second column of the aggregate's output is demanded of the scan, which has one. */
  lemma HavingQueryRejected(k: Kernels, estimates: Estimates)
    ensures GoodQuery(HAVING_QUERY) && PlanTyped(HAVING_QUERY)
    ensures PlanQuery(k, HAVING_QUERY, estimates).None?
  {
    hide Rewrite, Annotate, Convert;
    HavingQueryGood();
    HavingQueryColumns();
    HavingQueryRewritten(k);
    RewriteGoodQuery(k, HAVING_QUERY);
    var group := Rewrite(k, HAVING_QUERY.child.child);
    SelectOverHaving(group.child, group.groupBy, group.calls, HAVING_QUERY.child.condition, HAVING_QUERY.items);
    assert 1 in ItemColumns(HAVING_QUERY.items);
  }

  // ---------------------------------------------------------------------------
  // The theorem
  // ---------------------------------------------------------------------------

  /** A query block whose demands are met is planned without internal errors, and the physical
      plan produces the rows of the original logical plan. */
  lemma PlanQueryPreserves(k: Kernels, tables: Tables, p: Plan, estimates: Estimates)
    requires GoodQuery(p) && PlanTyped(p) && Plain(tables) && Conforms(tables, p) && PlanReadsTyped(k, tables, p)
    requires DemandsMet(Rewrite(k, p))
    ensures PlanQuery(k, p, estimates).Some?
    ensures SameRows(EvalPhysical(k, tables, PlanQuery(k, p, estimates).value), EvalPlan(k, tables, p))
  {
    hide EvalPlan, DemandsMet;
    PlanQuerySucceeds(k, p, estimates);
    RewritePreserves(k, tables, p);
    RewriteReadsTyped(k, tables, p);
    var annotated := Annotated(k, p);
    AnnotateMeaning(k, tables, Rewrite(k, p), {}, []);
    PositionsResolve(annotated, estimates);
    ConvertPreserves(k, tables, annotated, estimates);
  }

  lemma PlainDemands(p: Plan)
    requires p.Project? && ScanBlock(p.child) && InRange(p)
    ensures DemandsMet(p)
  {
    ScanBlockReferences(p.child);
    var demand := {} + ItemColumns(p.items);
    assert !p.child.Group? && Demand(p, {}) == demand;
    assert ScanDemand(p.child, demand) == demand && Block(p.child) == p.child;
  }

  /** A query without aggregation is always planned, and keeps its rows. */
  lemma PlainQueryPreserves(k: Kernels, tables: Tables, p: Plan, estimates: Estimates)
    requires p.Project? && ScanBlock(p.child) && InRange(p) && LimitFree(p)
    requires PlanTyped(p) && Plain(tables) && Conforms(tables, p) && PlanReadsTyped(k, tables, p)
    ensures PlanQuery(k, p, estimates).Some?
    ensures SameRows(EvalPhysical(k, tables, PlanQuery(k, p, estimates).value), EvalPlan(k, tables, p))
  {
    hide EvalPlan, EvalPhysical, Annotate, Convert, Rewrite;
    ScanBlockReferences(p.child);
    BlocksReadNoDerived(p.child);
    PlainDemands(p);
    DemandsStayMet(k, p);
    PlanQueryPreserves(k, tables, p, estimates);
  }
}
