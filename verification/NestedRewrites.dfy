/** Rewriting keeps queries of any nesting what they are: filters move into the inputs of joins,
subqueries included, and each node still reads the subqueries below it by position. */
module NestedRewrites {
  import opened Expressions
  import opened Relational
  import opened LogicalPlans
  import opened PhysicalPlanner
  import opened BlockShapes
  import opened DerivedColumns
  import opened RequiredColumns
  import opened Simplifier
  import opened Rewriter
  import opened QueryPlanning
  import opened NestedQueries

  /** What the node above needs to know of a rewritten plan. */
  ghost predicate SameNested(r: Plan, p: Plan)
  {
    && InRange(r) && Width(r) == Width(p) && NamesOf(r) == NamesOf(p)
    && (ScanBlock(p) ==> ScanBlock(r)) && (Tree(p) ==> Tree(r)) && (Query(p) ==> Query(r)) && (Sealed(p) ==> Sealed(r))
    && KeepsWhat(r, p) && (!ReferencesScanSchema(p) ==> !ReferencesScanSchema(r))
  }

  lemma {:induction false} BlockIsTree(p: Plan)
    requires ScanBlock(p) && LimitFree(p)
    ensures Tree(p)
  {
    if p.Join? {
      BlockIsTree(p.left);
      BlockIsTree(p.right);
    } else if !p.Scan? {
      BlockIsTree(p.child);
    }
  }

  /** A subquery none of whose columns moves keeps any columns it has. */
  lemma {:induction false} SealedKeeps(p: Plan, columns: set<nat>)
    requires Sealed(p) && Within(columns, Width(p))
    ensures KeepsColumns(p, columns)
  {
    if p.Filter? || p.Sort? || (p.Project? && !Renames(p.items, NamesOf(p.child)) && !ScanBlock(p.child)) {
      SealedKeeps(p.child, columns);
    }
  }

  lemma {:induction false} KeepersNotBlocks(p: Plan, columns: set<nat>)
    requires KeepsColumns(p, columns) || Sealed(p)
    ensures !ScanBlock(p)
  {
    if p.Filter? || p.Sort? || p.Limit? { KeepersNotBlocks(p.child, columns); }
  }

  /** What is read by position stays so. */
  lemma StillReadsRight(r: Plan, p: Plan, more: set<nat>, fewer: set<nat>)
    requires SameNested(r, p) && ReadsRight(p, more) && fewer <= more
    ensures ReadsRight(r, fewer)
  {
    if KeepsColumns(p, more) {
      KeepsFewer(r, more, fewer);
    }
  }

  lemma BlockRewritten(k: Kernels, p: Plan)
    requires ScanBlock(p) && LimitFree(p) && InRange(p)
    ensures SameNested(Rewrite(k, p), p)
  {
    hide Tree, Query, Sealed, KeepsColumns;
    RewriteGoodBlock(k, p);
    BlockIsTree(p);
    BlockIsTree(Rewrite(k, p));
    TreeShape(p);
    TreeShape(Rewrite(k, p));
    forall columns ensures !KeepsColumns(p, columns) {
      NoPositions(p, columns);
    }
  }

  // ---------------------------------------------------------------------------
  // Filters pushed into joins
  // ---------------------------------------------------------------------------

  lemma {:induction false} PushedInput(k: Kernels, side: Plan, es: seq<Expr>) returns (r: Plan)
    requires Input(side) && InRange(side) && forall e :: e in es ==> Within(Columns(e), Width(side))
    ensures r == if es == [] then side else Rewrite(k, Filter(side, Conjunction(es)))
    ensures Input(r) && InRange(r) && Width(r) == Width(side) && NamesOf(r) == NamesOf(side)
    decreases NonFilters(side), FilterChain(side) + 2
  {
    if es == [] {
      r := side;
    } else {
      var filter := Filter(side, Conjunction(es));
      ConjunctionWithin(es, Width(side));
      FilteredInput(side, Conjunction(es));
      r := Rewrite(k, filter);
      RewriteNested(k, filter);
    }
  }

  lemma FilteredInput(side: Plan, condition: Expr)
    requires Input(side) && InRange(side) && Within(Columns(condition), Width(side))
    ensures var filter := Filter(side, condition);
            && (Tree(filter) || (Query(filter) && Sealed(filter))) && InRange(filter)
            && Width(filter) == Width(side) && NamesOf(filter) == NamesOf(side)
  {
    if !Tree(side) {
      SealedKeeps(side, Columns(condition));
    }
  }

  lemma RejoinedTree(join: Plan, l: Plan, r: Plan, remaining: seq<Expr>)
    requires join.Join? && Tree(join) && InRange(join) && Input(l) && Input(r) && InRange(l) && InRange(r)
    requires Width(l) == Width(join.left) && Width(r) == Width(join.right)
    requires NamesOf(l) == NamesOf(join.left) && NamesOf(r) == NamesOf(join.right)
    requires forall e :: e in remaining ==> Within(Columns(e), Width(join))
    ensures var p := FilterUnlessEmpty(join.(left := l, right := r), remaining);
            Tree(p) && InRange(p) && Width(p) == Width(join) && NamesOf(p) == NamesOf(join)
  {
    var joined := join.(left := l, right := r);
    assert Tree(joined) && InRange(joined) && Width(joined) == Width(join) && NamesOf(joined) == NamesOf(join);
    if remaining != [] {
      ConjunctionWithin(remaining, Width(join));
    }
  }

  lemma {:induction false} PushNested(k: Kernels, join: Plan, condition: Expr)
    requires join.Join? && Tree(join) && InRange(join) && Within(Columns(condition), Width(join))
    ensures var p := PushThroughJoin(k, join, condition);
            Tree(p) && InRange(p) && Width(p) == Width(join) && NamesOf(p) == NamesOf(join)
    decreases NonFilters(join), 0
  {
    NonFiltersPositive(join.left);
    NonFiltersPositive(join.right);
    assert Input(join.left) && Input(join.right);
    var split := SplitConjuncts(Conjuncts(condition), Width(join.left), join.joinType.Inner?);
    SplitWithin(condition, Width(join.left), Width(join.right), join.joinType.Inner?);
    RemainingWithin(condition, Width(join.left), join.joinType.Inner?, Width(join));
    if split.left != [] || split.right != [] {
      var l := PushedInput(k, join.left, split.left);
      var r := PushedInput(k, join.right, split.right);
      RejoinedTree(join, l, r, split.remaining);
    }
  }

  // ---------------------------------------------------------------------------
  // Whole plans
  // ---------------------------------------------------------------------------

  /** A tree that is not a scan block has nothing else to keep. */
  lemma TreeSame(r: Plan, p: Plan)
    requires Tree(p) && !ScanBlock(p) && Tree(r) && InRange(r) && Width(r) == Width(p) && NamesOf(r) == NamesOf(p)
    ensures SameNested(r, p)
  {
    hide Tree, Query, Sealed, InRange, NamesOf;
    TreeShape(p);
    TreeShape(r);
    forall columns ensures !KeepsColumns(p, columns) {
      TreeKeepsNone(p, columns);
    }
  }

  lemma {:induction false} TreeKeepsNone(p: Plan, columns: set<nat>)
    requires Tree(p)
    ensures !KeepsColumns(p, columns)
  {
    if p.Filter? || p.Sort? { TreeKeepsNone(p.child, columns); }
  }

  /** Two stacked filters merged into one over the same child. */
  lemma MergedNested(k: Kernels, p: Plan, child: Plan) returns (merged: Plan)
    requires p.Filter? && (Tree(p) || Query(p)) && !ScanBlock(p) && InRange(p) && SameNested(child, p.child) && child.Filter?
    ensures merged == Filter(child.child, Simplify(k, Binary(And, Simplify(k, p.condition), child.condition, Boolean)))
    ensures InRange(merged) && (Tree(p) ==> Tree(merged)) && (Query(p) ==> Query(merged))
  {
    var both := Binary(And, Simplify(k, p.condition), child.condition, Boolean);
    SimplifyColumns(k, p.condition);
    SimplifyColumns(k, both);
    merged := Filter(child.child, Simplify(k, both));
    assert Within(Columns(both), Width(child.child));
    if Query(p) {
      StillReadsRight(child, p.child, Columns(p.condition), Columns(p.condition));
      if ReferencesScanSchema(child.child) {
        KeepsBoth(child.child, Columns(p.condition), Columns(child.condition));
        KeepsFewer(child.child, Columns(p.condition) + Columns(child.condition), Columns(merged.condition));
      }
    }
  }

  lemma {:induction false} FilterNested(k: Kernels, p: Plan)
    requires p.Filter? && (Tree(p) || Query(p)) && !ScanBlock(p) && InRange(p) && SameNested(Rewrite(k, p.child), p.child)
    ensures SameNested(Rewrite(k, p), p)
    decreases NonFilters(p), FilterChain(p), 0
  {
    hide NamesOf, KeepsColumns;
    var child := Rewrite(k, p.child);
    var simplified := Simplify(k, p.condition);
    SimplifyColumns(k, p.condition);
    FilterNames(p);
    if child.Filter? {
      FilterNames(child);
      var merged := MergedNested(k, p, child);
      ShorterChain(p, child.child, merged.condition);
      RewriteNested(k, merged);
      FilterNames(merged);
      MergedSame(p, child, merged, Rewrite(k, p));
    } else if simplified.Literal? && simplified.value == Bool(true) {
      FilterKept(p, child);
    } else if child.Join? && !(simplified.Literal? && simplified.value.Bool?) {
      JoinBelow(p, child);
      PushNested(k, child, simplified);
      TreeSame(Rewrite(k, p), p);
    } else {
      FilterNames(Filter(child, simplified));
      FilterSame(p, child, simplified);
    }
  }

  lemma JoinBelow(p: Plan, child: Plan)
    requires p.Filter? && (Tree(p) || Query(p)) && SameNested(child, p.child) && child.Join?
    ensures Tree(p) && Tree(child)
  {
    if Query(p) { QueryShape(child); }
  }

  lemma FilterKept(p: Plan, child: Plan)
    requires p.Filter? && (Tree(p) || Query(p)) && !ScanBlock(p) && SameNested(child, p.child) && (p.child.Group? ==> child.Group?)
    requires NamesOf(p) == NamesOf(p.child)
    ensures SameNested(child, p)
  {
    hide NamesOf, Tree, InRange;
    if Tree(p) { TreeOfFilter(p); }
    forall columns | KeepsColumns(p, columns) ensures KeepsColumns(child, columns) {
      assert KeepsColumns(p.child, columns);
    }
  }

  lemma TreeOfFilter(p: Plan)
    requires p.Filter? && Tree(p)
    ensures Tree(p.child)
  {
  }

  lemma FilterSame(p: Plan, child: Plan, condition: Expr)
    requires p.Filter? && (Tree(p) || Query(p)) && !ScanBlock(p) && InRange(p) && SameNested(child, p.child)
    requires Columns(condition) <= Columns(p.condition) && (p.child.Group? ==> child.Group?)
    requires NamesOf(p) == NamesOf(p.child) && NamesOf(Filter(child, condition)) == NamesOf(child)
    ensures SameNested(Filter(child, condition), p)
  {
    hide NamesOf;
    var r := Filter(child, condition);
    if Query(p) {
      StillReadsRight(child, p.child, Columns(p.condition), Columns(condition));
    }
    forall columns | KeepsColumns(p, columns) ensures KeepsColumns(r, columns) {
      assert KeepsColumns(p.child, columns) && KeepsColumns(child, columns);
    }
  }

  lemma MergedSame(p: Plan, child: Plan, merged: Plan, r: Plan)
    requires p.Filter? && child.Filter? && merged.Filter? && merged.child == child.child && SameNested(child, p.child)
    requires !ScanBlock(p) && SameNested(r, merged) && (p.child.Group? ==> child.Group?)
    requires (Tree(p) ==> Tree(merged)) && (Query(p) ==> Query(merged)) && NamesOf(r) == NamesOf(p)
    ensures SameNested(r, p)
  {
    hide NamesOf, Tree, Query, InRange;
    FilterKeeps(p, child, merged);
  }

  lemma ProjectNested(k: Kernels, p: Plan)
    requires p.Project? && Query(p) && InRange(p) && SameNested(Rewrite(k, p.child), p.child)
    ensures SameNested(Rewrite(k, p), p)
  {
    hide InRange;
    var r := Rewrite(k, p);
    SimplifyItemsColumns(k, p.items);
    SimplifiedWidths(k, p.items, []);
    SimplifiedNames(k, p.items, []);
    SimplifiedPositions(k, p.items, NamesOf(p.child));
    ProjectInRange(p, r);
    if !Tree(p.child) {
      StillReadsRight(r.child, p.child, NodeColumns(p), NodeColumns(r));
    }
    ProjectSealed(k, p, r);
    forall columns | KeepsColumns(p, columns) ensures KeepsColumns(r, columns) {
      ProjectKeeps(k, p, r, columns);
    }
  }

  lemma ProjectInRange(p: Plan, r: Plan)
    requires p.Project? && r.Project? && InRange(p) && InRange(r.child) && Width(r.child) == Width(p.child)
    requires ItemColumns(r.items) <= ItemColumns(p.items)
    ensures InRange(r)
  {
  }

  lemma AllAligned(items: seq<NamedExpr>, items': seq<NamedExpr>)
    requires |items'| == |items| && Aligned(items) && forall columns :: AlignedAt(items, columns) ==> AlignedAt(items', columns)
    ensures Aligned(items')
  {
    forall i: nat | i < |items'| ensures items'[i].expr.Column? && items'[i].expr.index == i {
      assert AlignedAt(items, {i});
      assert i in {i};
    }
  }

  lemma ProjectSealed(k: Kernels, p: Plan, r: Plan)
    requires p.Project? && r.Project? && SameNested(r.child, p.child) && |r.items| == |p.items|
    requires forall columns :: AlignedAt(p.items, columns) ==> AlignedAt(r.items, columns)
    requires Renames(p.items, NamesOf(p.child)) ==> Renames(r.items, NamesOf(p.child))
    ensures Sealed(p) ==> Sealed(r)
  {
    hide Renames, NamesOf, Tree, Query, InRange;
    if Sealed(p) && !Renames(p.items, NamesOf(p.child)) {
      if ScanBlock(p.child) {
        AllAligned(p.items, r.items);
      } else {
        KeepersNotBlocks(r.child, {});
      }
    }
  }

  lemma ProjectKeeps(k: Kernels, p: Plan, r: Plan, columns: set<nat>)
    requires p.Project? && r.Project? && SameNested(r.child, p.child) && KeepsColumns(p, columns)
    requires AlignedAt(p.items, columns) ==> AlignedAt(r.items, columns)
    requires Renames(p.items, NamesOf(p.child)) ==> Renames(r.items, NamesOf(p.child))
    ensures KeepsColumns(r, columns)
  {
    hide Renames, NamesOf, Tree, Query, InRange, AlignedAt;
    if !Renames(p.items, NamesOf(p.child)) && !ScanBlock(p.child) {
      KeepersNotBlocks(r.child, columns);
    }
  }

  lemma GroupNested(k: Kernels, p: Plan)
    requires p.Group? && Query(p) && InRange(p) && SameNested(Rewrite(k, p.child), p.child)
    ensures SameNested(Rewrite(k, p), p)
  {
    var r := Rewrite(k, p);
    SimplifyItemsColumns(k, p.groupBy);
    SimplifyCallsColumns(k, p.calls);
    SimplifiedWidths(k, p.groupBy, p.calls);
    SimplifiedNames(k, p.groupBy, p.calls);
    if !Tree(p.child) {
      StillReadsRight(r.child, p.child, NodeColumns(p), NodeColumns(r));
    }
  }

  lemma SortNested(k: Kernels, p: Plan)
    requires p.Sort? && (Tree(p) || Query(p)) && !ScanBlock(p) && InRange(p) && SameNested(Rewrite(k, p.child), p.child)
    ensures SameNested(Rewrite(k, p), p)
  {
    var r := Rewrite(k, p);
    SimplifyKeysColumns(k, p.keys);
    if Query(p) {
      StillReadsRight(r.child, p.child, NodeColumns(p), NodeColumns(r));
    }
    forall columns | KeepsColumns(p, columns) ensures KeepsColumns(r, columns) {
      assert KeepsColumns(p.child, columns) && KeepsColumns(r.child, columns);
    }
  }

  /** Rewriting keeps queries of any nesting what they are. */
  lemma {:induction false} RewriteNested(k: Kernels, p: Plan)
    requires (Tree(p) || Query(p)) && InRange(p)
    ensures SameNested(Rewrite(k, p), p)
    decreases NonFilters(p), FilterChain(p), 1
  {
    hide SameNested;
    NestedConvertible(p);
    if ScanBlock(p) {
      BlockRewritten(k, p);
    } else if p.Join? {
      NonFiltersPositive(p.left);
      NonFiltersPositive(p.right);
      assert Input(p.left) && Input(p.right);
      RewriteNested(k, p.left);
      RewriteNested(k, p.right);
      JoinNested(k, p);
    } else {
      ChildNested(p);
      RewriteNested(k, p.child);
      match p
      case Filter(_, _) => FilterNested(k, p);
      case Project(_, _) => ProjectNested(k, p);
      case Group(_, _, _) => GroupNested(k, p);
      case Sort(_, _) => SortNested(k, p);
    }
  }

  lemma ChildNested(p: Plan)
    requires (Tree(p) || Query(p)) && InRange(p) && !p.Scan? && !p.Join?
    ensures (Tree(p.child) || Query(p.child)) && InRange(p.child)
    ensures p.Filter? || p.Project? || p.Group? || p.Sort?
    ensures p.Project? || p.Group? ==> Query(p)
  {
  }

  lemma JoinNested(k: Kernels, p: Plan)
    requires p.Join? && Tree(p) && !ScanBlock(p) && InRange(p)
    requires SameNested(Rewrite(k, p.left), p.left) && SameNested(Rewrite(k, p.right), p.right)
    ensures SameNested(Rewrite(k, p), p)
  {
    hide KeepsWhat;
    var r := Rewrite(k, p);
    assert Input(p.left) && Input(p.right);
    assert Input(r.left) && Input(r.right);
    RejoinedTree(p, r.left, r.right, []);
    TreeSame(r, p);
  }
}
