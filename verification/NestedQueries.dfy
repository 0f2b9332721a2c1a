/** Queries of any nesting: joins of tables and subqueries, with WHERE and ORDER BY, below select
lists, aggregations, HAVING and ORDER BY, which may be subqueries of further joins. Planning and
executing such a query is right whenever each node reads the subqueries below it by position. */
module NestedQueries {
  import opened Expressions
  import opened Relational
  import opened Aggregation
  import opened JoinSemantics
  import opened LogicalPlans
  import opened PhysicalPlanner
  import opened PlannerCorrectness
  import opened BlockShapes
  import opened DerivedColumns
  import opened SingleBlocks
  import opened RequiredColumns
  import opened QueryPlanning
  import opened DerivedSources
  import opened OrderAndLimit
  import opened QueryExecution

  // ---------------------------------------------------------------------------
  // Shapes
  // ---------------------------------------------------------------------------

  /** Joins, WHEREs and ORDER BYs, down to tables and subqueries. */
  predicate Tree(p: Plan)
    decreases p, 0
  {
    match p
    case Scan(_, _, _, _) => true
    case Join(l, r, _, _, jt, residual) => Input(l) && Input(r) && (residual.Some? ==> jt.LeftSemi? || jt.LeftAnti?)
    case Filter(c, _) => Tree(c)
    case Sort(c, _) => Tree(c)
    case _ => false
  }

  predicate Input(p: Plan)
    decreases p, 1
  {
    Tree(p) || (Query(p) && Sealed(p))
  }

  /** A select list or an aggregation over such a tree, and whatever stands above it. */
  predicate Query(p: Plan)
    decreases p, 0
  {
    match p
    case Project(c, _) => Tree(c) || (Query(c) && ReadsRight(c, NodeColumns(p)))
    case Group(c, _, _) => Tree(c) || (Query(c) && ReadsRight(c, NodeColumns(p)))
    case Filter(c, _) => Query(c) && ReadsRight(c, NodeColumns(p))
    case Sort(c, _) => Query(c) && ReadsRight(c, NodeColumns(p))
    case _ => false
  }

  predicate ReadsRight(c: Plan, columns: set<nat>)
  {
    !ReferencesScanSchema(c) || KeepsColumns(c, columns)
  }

  /** No column of the subquery is lost or moved, even if its select list is dropped as an
      identity. */
  predicate Sealed(p: Plan)
  {
    match p
    case Group(_, _, _) => true
    case Project(c, items) =>
      Renames(items, NamesOf(c)) ||
      (if ScanBlock(c) then Aligned(items) && |items| == Width(c) else Sealed(c) && |items| <= Width(c))
    case Filter(c, _) => Sealed(c)
    case Sort(c, _) => Sealed(c)
    case _ => false
  }

  lemma {:induction false} TreeShape(p: Plan)
    requires Tree(p)
    ensures ReferencesScanSchema(p) && !Sealed(p) && !Query(p)
  {
    if p.Filter? || p.Sort? { TreeShape(p.child); }
  }

  lemma {:induction false} QueryShape(p: Plan)
    requires Query(p)
    ensures !ScanBlock(p) && !p.Scan? && !p.Join? && !p.Limit?
  {
    if p.Filter? || p.Sort? { QueryShape(p.child); }
  }

  lemma {:induction false} NestedConvertible(p: Plan)
    requires Tree(p) || Query(p)
    ensures LimitFree(p) && Convertible(p)
  {
    if p.Join? {
      assert Input(p.left) && Input(p.right);
      NestedConvertible(p.left);
      NestedConvertible(p.right);
    } else if !p.Scan? {
      NestedConvertible(p.child);
    }
  }

  /** None of this depends on annotations. */
  lemma {:induction false} BareNested(p: Plan)
    ensures Tree(Bare(p)) == Tree(p) && Query(Bare(p)) == Query(p) && Sealed(Bare(p)) == Sealed(p)
  {
    hide KeepsColumns, Renames, Aligned;
    if p.Join? {
      BareNested(p.left);
      BareNested(p.right);
    } else if !p.Scan? {
      var c := p.child;
      assert NodeColumns(Bare(p)) == NodeColumns(p);
      BareNested(c);
      BareBlocks(c);
      BareKeeps(c, NodeColumns(p));
    }
  }

  lemma AnnotatedNested(p: Plan, required: set<nat>, pushable: seq<PushablePredicate>)
    requires Annotate(p, required, pushable).Some?
    ensures var r := Annotate(p, required, pushable).value;
            Tree(r) == Tree(p) && Query(r) == Query(p) && Sealed(r) == Sealed(p)
  {
    hide Tree, Query, Sealed;
    AnnotateBare(p, required, pushable);
    BareNested(p);
    BareNested(Annotate(p, required, pushable).value);
  }

  // ---------------------------------------------------------------------------
  // Column maps
  // ---------------------------------------------------------------------------

  lemma NodeResolves(p: Plan, estimates: Estimates)
    requires !p.Scan? && !p.Join? && Query(p.child) && ReadsRight(p.child, NodeColumns(p))
    ensures !ScanBlock(p.child) && ChildResolves(p.child, NodeColumns(p), estimates)
  {
    hide KeepsColumns, Query, OwnsRead;
    QueryShape(p.child);
    if ReferencesScanSchema(p.child) && Convert(p.child, estimates).Some? {
      PositionsOwned(p.child, estimates, NodeColumns(p));
    }
  }

  /** The column names a query asks for, in order. */
  function SelectedNames(p: Plan): seq<string>
  {
    match p
    case Project(_, items) => seq(|items|, i requires 0 <= i < |items| => items[i].name)
    case Group(_, groupBy, calls) =>
      seq(|groupBy|, i requires 0 <= i < |groupBy| => groupBy[i].name) + seq(|calls|, i requires 0 <= i < |calls| => calls[i].name)
    case Filter(c, _) => SelectedNames(c)
    case Sort(c, _) => SelectedNames(c)
    case _ => []
  }

  lemma ProjectedNames(c: Plan, items: seq<NamedExpr>, estimates: Estimates)
    requires Convert(Project(c, items), estimates).Some?
    ensures OutputNames(Convert(Project(c, items), estimates).value) == SelectedNames(Project(c, items))
  {
    hide RemapItems;
    var q := Convert(c, estimates).value;
    var remap := ReferencesScanSchema(c);
    var items' := if remap then RemapItems(items, Boundary(q)).value else items;
    if remap { RemapItemsNames(items, Boundary(q)); }
    MapIndex((item: NamedExpr) => item.name, items');
  }

  lemma GroupedNames(c: Plan, groupBy: seq<NamedExpr>, calls: seq<AggregateCall>, estimates: Estimates)
    requires Convert(Group(c, groupBy, calls), estimates).Some?
    ensures OutputNames(Convert(Group(c, groupBy, calls), estimates).value) == SelectedNames(Group(c, groupBy, calls))
  {
    hide RemapItems, RemapCalls, Boundary;
    var q := Convert(c, estimates).value;
    if ReferencesScanSchema(c) {
      RemapItemsNames(groupBy, Boundary(q));
      RemapCallsNames(calls, Boundary(q));
    }
    var node := Convert(Group(c, groupBy, calls), estimates).value;
    MapIndex((item: NamedExpr) => item.name, node.groupBy);
    MapIndex((call: AggregateCall) => call.name, node.calls);
  }

  /** A planned query has the columns it asks for, under their names and in their order. */
  lemma {:induction false} QueryNames(p: Plan, estimates: Estimates)
    requires Query(p) && Convert(p, estimates).Some?
    ensures OutputNames(Convert(p, estimates).value) == SelectedNames(p) && |SelectedNames(p)| == Width(p)
  {
    hide RemapItems, RemapCalls, RemapKeys, Remap, IsIdentityProjection, ReadsRight;
    match p
    case Filter(c, _) => QueryNames(c, estimates);
    case Sort(c, _) => QueryNames(c, estimates);
    case Project(c, items) => ProjectedNames(c, items, estimates);
    case Group(c, groupBy, calls) => GroupedNames(c, groupBy, calls, estimates);
  }

  /** A sealed subquery is read through the identity map. */
  lemma {:induction false} SealedBoundary(p: Plan, estimates: Estimates)
    requires Query(p) && Sealed(p) && Convert(p, estimates).Some?
    ensures Boundary(Convert(p, estimates).value) == IdentityMap(Width(p))
  {
    hide RemapItems, RemapCalls, RemapKeys, Remap, IsIdentityProjection, ReadsRight, Renames, Aligned, NamesOf, Dropped;
    match p
    case Filter(c, _) => SealedBoundary(c, estimates);
    case Sort(c, _) => SealedBoundary(c, estimates);
    case Group(c, groupBy, calls) => GroupWidth(c, groupBy, calls, estimates);
    case Project(c, items) =>
      DroppedConverts(c, items, estimates);
      ProjectWidth(c, items, estimates);
      if Renames(items, NamesOf(c)) {
        RenamedSurvives(c, items, estimates);
      } else if ScanBlock(c) {
        ProjectionIsSource(c, items, estimates);
      } else if Dropped(c, items, estimates) {
        if Tree(c) { TreeShape(c); }
        SealedBoundary(c, estimates);
        QueryNames(c, estimates);
      }
  }

  // ---------------------------------------------------------------------------
  // Rows
  // ---------------------------------------------------------------------------

  lemma {:induction false} TreeDelivers(k: Kernels, tables: Tables, p: Plan, estimates: Estimates)
    returns (layout: seq<nat>)
    requires Tree(p) && Conforms(tables, p) && PlanReadsTyped(k, tables, p) && Convert(p, estimates).Some?
    ensures Delivers(k, tables, p, Convert(p, estimates).value, layout)
    decreases p, 0
  {
    hide ConvertJoin, Remap, RemapKeys;
    match p
    case Scan(_, _, _, _) =>
      ScanFits(p);
      layout := ConvertScan(p).kept;
    case Join(l, r, _, _, _, _) =>
      var a := InputDelivers(k, tables, l, estimates);
      var b := InputDelivers(k, tables, r, estimates);
      layout := JoinDelivers(k, tables, p, estimates, Convert(l, estimates).value, Convert(r, estimates).value, a, b);
    case Filter(c, condition) =>
      TreeShape(c);
      layout := TreeDelivers(k, tables, c, estimates);
      FilterDelivers(k, tables, c, Convert(c, estimates).value, layout, condition);
    case Sort(c, keys) =>
      TreeShape(c);
      layout := TreeDelivers(k, tables, c, estimates);
      SortDelivers(k, tables, c, Convert(c, estimates).value, layout, keys);
  }

  lemma {:induction false} InputDelivers(k: Kernels, tables: Tables, p: Plan, estimates: Estimates)
    returns (layout: seq<nat>)
    requires Input(p) && Conforms(tables, p) && PlanReadsTyped(k, tables, p) && Convert(p, estimates).Some?
    ensures Delivers(k, tables, p, Convert(p, estimates).value, layout)
    decreases p, 1
  {
    hide Convert, Delivers, Realizes;
    if Tree(p) {
      layout := TreeDelivers(k, tables, p, estimates);
    } else {
      layout := Positions(Width(p));
      QueryRealizes(k, tables, p, estimates);
      SealedBoundary(p, estimates);
      DerivedDelivers(k, tables, p, Convert(p, estimates).value);
    }
  }

  /** Physical planning keeps the rows of every such query. */
  lemma {:induction false} QueryRealizes(k: Kernels, tables: Tables, p: Plan, estimates: Estimates)
    requires Query(p) && Conforms(tables, p) && PlanReadsTyped(k, tables, p) && Convert(p, estimates).Some?
    ensures Realizes(k, tables, p, Convert(p, estimates).value)
    decreases p, 0
  {
    hide EvalPlan, EvalPhysical, Realizes, Boundary, OutputNames, IsIdentityProjection, RemapItems, RemapCalls, RemapKeys, Remap,
      ChildResolves, ReferencesScanSchema, ReadsRight, Delivers, Tree;
    var q := Convert(p.child, estimates).value;
    if Tree(p.child) {
      TreeShape(p.child);
      var layout := TreeDelivers(k, tables, p.child, estimates);
      match p
      case Project(c, items) => ProjectOverBlock(k, tables, c, q, layout, items);
      case Group(c, groupBy, calls) => GroupOverBlock(k, tables, c, q, layout, groupBy, calls);
    } else {
      QueryRealizes(k, tables, p.child, estimates);
      NodeResolves(p, estimates);
      ReadsAsWritten(p, estimates);
      match p
      case Filter(c, condition) => FilterOnTop(k, tables, c, q, condition);
      case Project(c, items) => ProjectOnTop(k, tables, c, q, items);
      case Group(c, groupBy, calls) => GroupOnTop(k, tables, c, q, groupBy, calls);
      case Sort(c, keys) => SortOnTop(k, tables, c, q, keys);
    }
  }

  // ---------------------------------------------------------------------------
  // Push-down and conversion
  // ---------------------------------------------------------------------------

  /** Every position demanded of a scan block is one of its columns, subqueries included: what a
      join demands is split between its inputs. */
  ghost predicate Met(p: Plan, required: set<nat>)
  {
    if ScanBlock(p) then Within(required, FullWidth(p))
    else if p.Join? then
      var all := required + ResidualColumns(p.residual);
      && Met(p.left, LeftPart(all, Width(p.left)) + {p.leftKey})
      && Met(p.right, RightPart(all, Width(p.left)) + {p.rightKey})
    else Met(p.child, Demand(p, required))
  }

  /** Push-down succeeds on a plan exactly when the demands are met, whatever the plan. */
  lemma {:induction false} AnnotatesExactly(p: Plan, required: set<nat>, pushable: seq<PushablePredicate>)
    requires InRange(p)
    ensures Annotate(p, required, pushable).Some? <==> Met(p, required)
  {
    hide Within, FullWidth, Demand;
    if ScanBlock(p) {
      BlockAnnotates(p, required, pushable);
    } else if p.Join? {
      var all := required + ResidualColumns(p.residual);
      AnnotatesExactly(p.left, LeftPart(all, Width(p.left)) + {p.leftKey}, []);
      AnnotatesExactly(p.right, RightPart(all, Width(p.left)) + {p.rightKey}, []);
    } else {
      AnnotateStep(p, required, pushable);
      ChildInRange(p);
      AnnotatesExactly(p.child, Demand(p, required), Forwarded(p, pushable));
    }
  }

  lemma {:induction false} TreeConverts(p: Plan, required: set<nat>, pushable: seq<PushablePredicate>, estimates: Estimates)
    requires Tree(p) && InRange(p) && Annotate(p, required, pushable).Some?
    ensures Convert(Annotate(p, required, pushable).value, estimates).Some?
    ensures Supplies(Convert(Annotate(p, required, pushable).value, estimates).value, Width(p), required)
    decreases p, 0
  {
    hide Supplies, ConvertScan, ConvertJoin, Remap, RemapKeys;
    var r := Annotate(p, required, pushable).value;
    match p
    case Scan(_, _, _, _) => ScanSupplies(p, required, pushable);
    case Filter(c, condition) =>
      TreeShape(c);
      TreeConverts(c, required + Columns(condition), pushable + CollectPushable(condition), estimates);
      AnnotateShape(c, required + Columns(condition), pushable + CollectPushable(condition));
      FilterConverts(r.child, condition, Width(c), required, estimates);
    case Sort(c, keys) =>
      TreeShape(c);
      TreeConverts(c, required + KeyColumns(keys), pushable, estimates);
      AnnotateShape(c, required + KeyColumns(keys), pushable);
      SortConverts(r.child, keys, Width(c), required, estimates);
    case Join(left, right, leftKey, rightKey, _, residual) =>
      var all := required + ResidualColumns(residual);
      InputConverts(left, LeftPart(all, Width(left)) + {leftKey}, [], estimates);
      InputConverts(right, RightPart(all, Width(left)) + {rightKey}, [], estimates);
      AnnotateJoinShape(p, required, pushable);
      JoinConverts(r, estimates, required, Convert(r.left, estimates).value, Convert(r.right, estimates).value);
  }

  lemma {:induction false} InputConverts(p: Plan, required: set<nat>, pushable: seq<PushablePredicate>, estimates: Estimates)
    requires Input(p) && InRange(p) && Annotate(p, required, pushable).Some?
    ensures Convert(Annotate(p, required, pushable).value, estimates).Some?
    ensures Supplies(Convert(Annotate(p, required, pushable).value, estimates).value, Width(p), required)
    decreases p, 1
  {
    hide Convert, Annotate, Boundary;
    if Tree(p) {
      TreeConverts(p, required, pushable, estimates);
    } else {
      QueryConverts(p, required, pushable, estimates);
      AnnotatedNested(p, required, pushable);
      AnnotateShape(p, required, pushable);
      SealedBoundary(Annotate(p, required, pushable).value, estimates);
    }
  }

  /** After push-down, planning such a query never reports a missing column. */
  lemma {:induction false} QueryConverts(p: Plan, required: set<nat>, pushable: seq<PushablePredicate>, estimates: Estimates)
    requires Query(p) && InRange(p) && Annotate(p, required, pushable).Some?
    ensures Convert(Annotate(p, required, pushable).value, estimates).Some?
    decreases p, 0
  {
    hide Annotate, Convert, Covered, OwnsRead, Supplies, NodeColumns, Demand, Within, InRange, ReferencesScanSchema, KeepsColumns,
      Tree;
    QueryShape(p);
    var r := Annotate(p, required, pushable).value;
    var demand, preds := Demand(p, required), Forwarded(p, pushable);
    AnnotateStep(p, required, pushable);
    AnnotateShape(p.child, demand, preds);
    ChildInRange(p);
    ReadsWithin(p);
    assert NodeColumns(r) == NodeColumns(p) by { SameColumns(p, r.child); }
    if Tree(p.child) {
      TreeShape(p.child);
      TreeDemands(p, required);
      TreeConverts(p.child, demand, preds, estimates);
      SuppliesCovers(Convert(r.child, estimates).value, Width(p.child), demand, NodeColumns(p));
    } else {
      QueryConverts(p.child, demand, preds, estimates);
      AnnotatedNested(p, required, pushable);
      AnnotatedNested(p.child, demand, preds);
      NodeResolves(r, estimates);
      if ReferencesScanSchema(r.child) {
        OwnCovers(Convert(r.child, estimates).value, Width(p.child), NodeColumns(p));
      }
    }
    NodeConverts(r, estimates);
  }

  lemma ReadsWithin(p: Plan)
    requires !p.Scan? && !p.Join? && InRange(p)
    ensures Within(NodeColumns(p), Width(p.child))
  {
  }

  lemma TreeDemands(p: Plan, required: set<nat>)
    requires (p.Project? || p.Group?) && Tree(p.child)
    ensures NodeColumns(p) <= Demand(p, required)
  {
  }
}
