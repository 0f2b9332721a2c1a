/** Projection push-down demands enough columns: after it, physical planning never meets a
pruned column. It can also demand too many: positions of an intermediate result are demanded
of the scan, and push-down fails exactly when one of them is beyond the scan's schema. */
module RequiredColumns {
  import opened Expressions
  import opened Relational
  import opened Aggregation
  import opened JoinSemantics
  import opened LogicalPlans
  import opened PhysicalPlanner
  import opened BlockShapes
  import opened DerivedColumns
  import opened SingleBlocks

  // ---------------------------------------------------------------------------
  // Annotation changes nothing but the annotations
  // ---------------------------------------------------------------------------

  /** What a node above a scan block adds to the demanded columns. */
  function Demand(p: Plan, required: set<nat>): set<nat>
  {
    match p
    case Filter(c, condition) => if c.Group? then required else required + Columns(condition)
    case Project(c, items) => if c.Group? then required else required + ItemColumns(items)
    case Group(c, groupBy, calls) => required + ItemColumns(groupBy) + CallColumns(calls)
    case Sort(c, keys) => required + KeyColumns(keys)
    case _ => required
  }

  function Forwarded(p: Plan, pushable: seq<PushablePredicate>): seq<PushablePredicate>
  {
    if p.Filter? && !p.child.Group? then pushable + CollectPushable(p.condition) else pushable
  }

  lemma AnnotateStep(p: Plan, required: set<nat>, pushable: seq<PushablePredicate>)
    requires !p.Scan? && !p.Join?
    ensures Annotate(p, required, pushable).Some? <==> Annotate(p.child, Demand(p, required), Forwarded(p, pushable)).Some?
    ensures Annotate(p, required, pushable).Some? ==>
      Annotate(p, required, pushable).value
      == p.(child := Annotate(p.child, Demand(p, required), Forwarded(p, pushable)).value)
  {
  }

  lemma {:induction false} AnnotateBare(p: Plan, required: set<nat>, pushable: seq<PushablePredicate>)
    requires Annotate(p, required, pushable).Some?
    ensures Bare(Annotate(p, required, pushable).value) == Bare(p)
  {
    match p
    case Scan(_, _, _, _) =>
    case Join(l, r, leftKey, rightKey, _, residual) =>
      var all := required + ResidualColumns(residual);
      AnnotateBare(l, LeftPart(all, Width(l)) + {leftKey}, []);
      AnnotateBare(r, RightPart(all, Width(l)) + {rightKey}, []);
    case _ =>
      AnnotateStep(p, required, pushable);
      AnnotateBare(p.child, Demand(p, required), Forwarded(p, pushable));
  }

  /** Two plans that differ only in their annotations. */
  lemma SameShape(r: Plan, p: Plan)
    requires Bare(r) == Bare(p)
    ensures Width(r) == Width(p) && LimitFree(r) == LimitFree(p) && InRange(r) == InRange(p)
    ensures ScanBlock(r) == ScanBlock(p) && SingleBlock(r) == SingleBlock(p)
    ensures ReferencesScanSchema(r) == ReferencesScanSchema(p) && DerivedByPosition(r) == DerivedByPosition(p)
  {
    BareBlocks(r);
    BareBlocks(p);
    BarePositions(r);
    BarePositions(p);
  }

  lemma AnnotateShape(p: Plan, required: set<nat>, pushable: seq<PushablePredicate>)
    requires Annotate(p, required, pushable).Some?
    ensures var r := Annotate(p, required, pushable).value;
            && Width(r) == Width(p) && LimitFree(r) == LimitFree(p) && InRange(r) == InRange(p)
            && ScanBlock(r) == ScanBlock(p) && SingleBlock(r) == SingleBlock(p)
            && ReferencesScanSchema(r) == ReferencesScanSchema(p) && DerivedByPosition(r) == DerivedByPosition(p)
  {
    AnnotateBare(p, required, pushable);
    SameShape(Annotate(p, required, pushable).value, p);
  }

  lemma {:induction false} BareMeaning(k: Kernels, tables: Tables, p: Plan)
    requires Plain(tables)
    ensures EvalPlan(k, tables, Bare(p)) == EvalPlan(k, tables, p)
    ensures Conforms(tables, Bare(p)) == Conforms(tables, p)
    ensures PlanReadsTyped(k, tables, Bare(p)) == PlanReadsTyped(k, tables, p)
  {
    hide FilterRows, ProjectRows, SortRows, GroupRows, JoinRows, TakeRows, ItemsReadTyped;
    match p
    case Scan(_, _, _, _) =>
    case Join(l, r, _, _, _, _) => BareMeaning(k, tables, l); BareMeaning(k, tables, r); BareBlocks(r);
    case Filter(c, _) => BareMeaning(k, tables, c);
    case Project(c, _) => BareMeaning(k, tables, c);
    case Group(c, _, _) => BareMeaning(k, tables, c);
    case Sort(c, _) => BareMeaning(k, tables, c);
    case Limit(c, _) => BareMeaning(k, tables, c);
  }

  /** Over whole tables, annotating a plan does not change its rows, nor the hypotheses made of
      them. */
  lemma AnnotateMeaning(k: Kernels, tables: Tables, p: Plan, required: set<nat>, pushable: seq<PushablePredicate>)
    requires Plain(tables) && Annotate(p, required, pushable).Some?
    ensures var r := Annotate(p, required, pushable).value;
            && EvalPlan(k, tables, r) == EvalPlan(k, tables, p)
            && (Conforms(tables, r) <==> Conforms(tables, p))
            && (PlanReadsTyped(k, tables, r) <==> PlanReadsTyped(k, tables, p))
  {
    AnnotateBare(p, required, pushable);
    BareMeaning(k, tables, p);
    BareMeaning(k, tables, Annotate(p, required, pushable).value);
  }

  // ---------------------------------------------------------------------------
  // Enough columns
  // ---------------------------------------------------------------------------

  /** Every column of `columns` survives narrowing. */
  ghost predicate Covered(columns: set<nat>, columnMap: ColumnMap)
  {
    forall i :: i in columns ==> Lookup(columnMap, i).Some?
  }

  lemma RemapCovered(e: Expr, columnMap: ColumnMap)
    requires Covered(Columns(e), columnMap)
    ensures Remap(e, columnMap).Some?
  {
    RenameDefined(e, (i: nat) => Lookup(columnMap, i));
  }

  lemma {:induction false} RemapItemsCovered(items: seq<NamedExpr>, columnMap: ColumnMap)
    requires Covered(ItemColumns(items), columnMap)
    ensures RemapItems(items, columnMap).Some?
  {
    if items != [] {
      RemapCovered(items[0].expr, columnMap);
      RemapItemsCovered(items[1..], columnMap);
    }
  }

  lemma {:induction false} RemapCallsCovered(calls: seq<AggregateCall>, columnMap: ColumnMap)
    requires Covered(CallColumns(calls), columnMap)
    ensures RemapCalls(calls, columnMap).Some?
  {
    if calls != [] {
      RemapCovered(calls[0].argument, columnMap);
      RemapCallsCovered(calls[1..], columnMap);
    }
  }

  lemma {:induction false} RemapKeysCovered(keys: seq<SortKey>, columnMap: ColumnMap)
    requires Covered(KeyColumns(keys), columnMap)
    ensures RemapKeys(keys, columnMap).Some?
  {
    if keys != [] {
      RemapCovered(keys[0].expr, columnMap);
      RemapKeysCovered(keys[1..], columnMap);
    }
  }

  /** A converted block whose map covers every in-range demanded column. */
  ghost predicate Supplies(q: PhysicalPlan, width: nat, required: set<nat>)
  {
    |Boundary(q)| == width && forall i :: i in required && i < width ==> Boundary(q)[i].Some?
  }

  lemma SuppliesCovers(q: PhysicalPlan, width: nat, required: set<nat>, columns: set<nat>)
    requires Supplies(q, width, required) && columns <= required && Within(columns, width)
    ensures Covered(columns, Boundary(q))
  {
  }

  lemma ResidualResolves(e: Expr, left: PhysicalPlan, right: PhysicalPlan, n: nat, m: nat, all: set<nat>)
    requires Supplies(left, n, LeftPart(all, n)) && Supplies(right, m, RightPart(all, n))
    requires Columns(e) <= all && Within(Columns(e), n + m)
    ensures Rename(e, ResolveResidual(Boundary(left), Boundary(right), |OutputNames(left)|)).Some?
  {
    var resolve := ResolveResidual(Boundary(left), Boundary(right), |OutputNames(left)|);
    forall i | i in Columns(e) ensures resolve(i).Some? {
      if i >= n { assert i - n in RightPart(all, n); }
    }
    RenameDefined(e, resolve);
  }

  lemma CombinedSupplies(joinType: JoinType, swap: bool, left: PhysicalPlan, right: PhysicalPlan,
                         n: nat, m: nat, required: set<nat>, i: nat)
    requires Supplies(left, n, LeftPart(required, n)) && Supplies(right, m, RightPart(required, n))
    ensures var columnMap := CombinedMap(joinType, swap, left, right);
            var width := if joinType.LeftSemi? || joinType.LeftAnti? then n else n + m;
            |columnMap| == width && (i in required && i < width ==> columnMap[i].Some?)
  {
    if i >= n && i in required { assert i - n in RightPart(required, n); }
  }

  lemma JoinConverts(p: Plan, estimates: Estimates, required: set<nat>, left: PhysicalPlan, right: PhysicalPlan)
    requires p.Join? && p.leftKey < Width(p.left) && p.rightKey < Width(p.right)
    requires Within(ResidualColumns(p.residual), Width(p.left) + Width(p.right))
    requires var all := required + ResidualColumns(p.residual);
             && Supplies(left, Width(p.left), LeftPart(all, Width(p.left)) + {p.leftKey})
             && Supplies(right, Width(p.right), RightPart(all, Width(p.left)) + {p.rightKey})
    ensures ConvertJoin(p, estimates, left, right).Some?
    ensures Supplies(ConvertJoin(p, estimates, left, right).value, Width(p), required)
  {
    hide Rename, CombinedMap, SwapsSides, OutputNames;
    var n, m := Width(p.left), Width(p.right);
    var all := required + ResidualColumns(p.residual);
    assert p.leftKey in LeftPart(all, n) + {p.leftKey} && p.rightKey in RightPart(all, n) + {p.rightKey};
    if p.residual.Some? {
      ResidualResolves(p.residual.value, left, right, n, m, all);
    }
    var swap := SwapsSides(p.joinType, estimates, left, right);
    CombinedSupplies(p.joinType, swap, left, right, n, m, all, 0);
    forall i | i in required && i < Width(p) ensures CombinedMap(p.joinType, swap, left, right)[i].Some? {
      CombinedSupplies(p.joinType, swap, left, right, n, m, all, i);
    }
  }

  lemma ScanSupplies(p: Plan, required: set<nat>, pushable: seq<PushablePredicate>)
    requires p.Scan? && Annotate(p, required, pushable).Some?
    ensures Supplies(ConvertScan(Annotate(p, required, pushable).value), |p.fields|, required)
  {
    PlannerCorrectness.ScanFits(Annotate(p, required, pushable).value);
  }

  lemma AnnotateJoinShape(p: Plan, required: set<nat>, pushable: seq<PushablePredicate>)
    requires p.Join? && InRange(p) && Annotate(p, required, pushable).Some?
    ensures var r := Annotate(p, required, pushable).value;
            && r.Join? && Width(r.left) == Width(p.left) && Width(r.right) == Width(p.right)
            && r == p.(left := r.left, right := r.right)
  {
    var all := required + ResidualColumns(p.residual);
    AnnotateShape(p.left, LeftPart(all, Width(p.left)) + {p.leftKey}, []);
    AnnotateShape(p.right, RightPart(all, Width(p.left)) + {p.rightKey}, []);
  }

  lemma FilterConverts(c: Plan, condition: Expr, n: nat, required: set<nat>, estimates: Estimates)
    requires ReferencesScanSchema(c) && Convert(c, estimates).Some? && Within(Columns(condition), n)
    requires Supplies(Convert(c, estimates).value, n, required + Columns(condition))
    ensures Convert(Filter(c, condition), estimates).Some?
    ensures Supplies(Convert(Filter(c, condition), estimates).value, n, required)
  {
    var q := Convert(c, estimates).value;
    SuppliesCovers(q, n, required + Columns(condition), Columns(condition));
    RemapCovered(condition, Boundary(q));
  }

  lemma SortConverts(c: Plan, keys: seq<SortKey>, n: nat, required: set<nat>, estimates: Estimates)
    requires ReferencesScanSchema(c) && Convert(c, estimates).Some? && Within(KeyColumns(keys), n)
    requires Supplies(Convert(c, estimates).value, n, required + KeyColumns(keys))
    ensures Convert(Sort(c, keys), estimates).Some?
    ensures Supplies(Convert(Sort(c, keys), estimates).value, n, required)
  {
    var q := Convert(c, estimates).value;
    SuppliesCovers(q, n, required + KeyColumns(keys), KeyColumns(keys));
    RemapKeysCovered(keys, Boundary(q));
  }

  lemma LimitSupplies(q: PhysicalPlan, n: int, width: nat, required: set<nat>)
    requires Supplies(q, width, required)
    ensures Supplies(LimitNode(q, n), width, required)
  {
  }

  /** Projection push-down keeps every column a scan block, or anything above it, reads. */
  lemma {:induction false} BlockConverts(p: Plan, required: set<nat>, pushable: seq<PushablePredicate>,
                                         estimates: Estimates)
    requires ScanBlock(p) && InRange(p) && Annotate(p, required, pushable).Some?
    ensures Convert(Annotate(p, required, pushable).value, estimates).Some?
    ensures Supplies(Convert(Annotate(p, required, pushable).value, estimates).value, Width(p), required)
  {
    hide Supplies, ConvertScan, ConvertJoin, Remap, RemapKeys;
    var r := Annotate(p, required, pushable).value;
    AnnotateShape(p, required, pushable);
    match p
    case Scan(_, _, _, _) => ScanSupplies(p, required, pushable);
    case Filter(c, condition) =>
      BlockConverts(c, required + Columns(condition), pushable + CollectPushable(condition), estimates);
      ScanBlockReferences(r.child);
      FilterConverts(r.child, condition, Width(c), required, estimates);
    case Sort(c, keys) =>
      BlockConverts(c, required + KeyColumns(keys), pushable, estimates);
      ScanBlockReferences(r.child);
      SortConverts(r.child, keys, Width(c), required, estimates);
    case Limit(c, n) =>
      BlockConverts(c, required, pushable, estimates);
      LimitSupplies(Convert(r.child, estimates).value, n, Width(c), required);
    case Join(left, right, leftKey, rightKey, _, residual) =>
      var all := required + ResidualColumns(residual);
      BlockConverts(left, LeftPart(all, Width(left)) + {leftKey}, [], estimates);
      BlockConverts(right, RightPart(all, Width(left)) + {rightKey}, [], estimates);
      AnnotateJoinShape(p, required, pushable);
      JoinConverts(r, estimates, required, Convert(r.left, estimates).value, Convert(r.right, estimates).value);
  }

  /** A node is converted when the columns it reads through the map of its child are there. */
  lemma NodeConverts(p: Plan, estimates: Estimates)
    requires !p.Scan? && !p.Join? && Convert(p.child, estimates).Some?
    requires ReferencesScanSchema(p.child) && !p.Limit? ==> Covered(NodeColumns(p), Boundary(Convert(p.child, estimates).value))
    ensures Convert(p, estimates).Some?
  {
    hide Covered, Boundary, Remap, RemapItems, RemapCalls, RemapKeys, IsIdentityProjection;
    if ReferencesScanSchema(p.child) {
      var columnMap := Boundary(Convert(p.child, estimates).value);
      match p
      case Filter(_, condition) => RemapCovered(condition, columnMap);
      case Project(_, items) => RemapItemsCovered(items, columnMap);
      case Group(_, groupBy, calls) =>
        CoveredParts(ItemColumns(groupBy), CallColumns(calls), columnMap);
        RemapItemsCovered(groupBy, columnMap);
        RemapCallsCovered(calls, columnMap);
      case Sort(_, keys) => RemapKeysCovered(keys, columnMap);
      case Limit(_, _) =>
    }
  }

  lemma CoveredParts(a: set<nat>, b: set<nat>, columnMap: ColumnMap)
    requires Covered(a + b, columnMap)
    ensures Covered(a, columnMap) && Covered(b, columnMap)
  {
  }

  lemma OwnCovers(q: PhysicalPlan, width: nat, columns: set<nat>)
    requires OwnsRead(q, columns, width) && Within(columns, width)
    ensures Covered(columns, Boundary(q))
  {
  }

  /** Push-down demands of a scan block what the node above it reads. */
  lemma DemandsOwnColumns(p: Plan, required: set<nat>)
    requires SingleBlock(p) && !ScanBlock(p) && InRange(p)
    ensures Within(NodeColumns(p), Width(p.child))
    ensures ScanBlock(p.child) ==> NodeColumns(p) <= Demand(p, required)
  {
  }

  /** After push-down, planning a single block never reports a missing column. */
  lemma {:induction false} SingleBlockConverts(p: Plan, required: set<nat>, pushable: seq<PushablePredicate>,
                                               estimates: Estimates)
    requires SingleBlock(p) && InRange(p) && Annotate(p, required, pushable).Some?
    requires Resolves(Annotate(p, required, pushable).value, estimates)
    ensures Convert(Annotate(p, required, pushable).value, estimates).Some?
  {
    hide Annotate, Convert, Covered, OwnsRead, Supplies, NodeColumns, Demand, Within, InRange, ReferencesScanSchema;
    if ScanBlock(p) {
      BlockConverts(p, required, pushable, estimates);
    } else {
      var r := Annotate(p, required, pushable).value;
      var demand, preds := Demand(p, required), Forwarded(p, pushable);
      AnnotateStep(p, required, pushable);
      AnnotateShape(p.child, demand, preds);
      DemandsOwnColumns(p, required);
      ChildInRange(p);
      assert NodeColumns(r) == NodeColumns(p) by { SameColumns(p, r.child); }
      if ScanBlock(p.child) {
        BlockConverts(p.child, demand, preds, estimates);
        SuppliesCovers(Convert(r.child, estimates).value, Width(p.child), demand, NodeColumns(p));
      } else {
        SingleBlockConverts(p.child, demand, preds, estimates);
        if !p.Limit? && ReferencesScanSchema(r.child) {
          OwnCovers(Convert(r.child, estimates).value, Width(p.child), NodeColumns(p));
        }
      }
      NodeConverts(r, estimates);
    }
  }

  lemma ChildInRange(p: Plan)
    requires !p.Scan? && !p.Join? && InRange(p)
    ensures InRange(p.child)
  {
  }

  lemma SameColumns(p: Plan, c: Plan)
    requires !p.Scan? && !p.Join?
    ensures NodeColumns(p.(child := c)) == NodeColumns(p)
  {
  }

  // ---------------------------------------------------------------------------
  // Too many columns
  // ---------------------------------------------------------------------------

  /** How many columns push-down can index from the top of a scan block. A semi or anti join
      outputs its left columns only, yet indices beyond them still reach its right input. */
  function FullWidth(p: Plan): (n: nat)
    requires ScanBlock(p)
    ensures Width(p) <= n
  {
    match p
    case Scan(_, fields, _, _) => |fields|
    case Join(l, r, _, _, _, _) => Width(l) + FullWidth(r)
    case Filter(c, _) => FullWidth(c)
    case Sort(c, _) => FullWidth(c)
    case Limit(c, _) => FullWidth(c)
  }

  lemma RightWithin(columns: set<nat>, n: nat, m: nat)
    ensures Within(RightPart(columns, n), m) <==> Within(columns, n + m)
  {
    if Within(RightPart(columns, n), m) {
      forall i | i in columns ensures i < n + m {
        if n <= i { assert i - n in RightPart(columns, n); }
      }
    }
  }

  /** Push-down over a scan block succeeds exactly when every demanded index is one it has. */
  lemma {:induction false} BlockAnnotates(p: Plan, required: set<nat>, pushable: seq<PushablePredicate>)
    requires ScanBlock(p) && InRange(p)
    ensures Annotate(p, required, pushable).Some? <==> Within(required, FullWidth(p))
  {
    match p
    case Scan(_, _, _, _) =>
    case Filter(c, condition) =>
      BlockAnnotates(c, required + Columns(condition), pushable + CollectPushable(condition));
    case Sort(c, keys) => BlockAnnotates(c, required + KeyColumns(keys), pushable);
    case Limit(c, _) => BlockAnnotates(c, required, pushable);
    case Join(l, r, leftKey, rightKey, _, residual) =>
      var all := required + ResidualColumns(residual);
      BlockAnnotates(l, LeftPart(all, Width(l)) + {leftKey}, []);
      BlockAnnotates(r, RightPart(all, Width(l)) + {rightKey}, []);
      RightWithin(all, Width(l), FullWidth(r));
  }

  /** What the nodes above the scan block demand of it, in all. */
  function ScanDemand(p: Plan, required: set<nat>): set<nat>
    requires SingleBlock(p)
  {
    if ScanBlock(p) then required else ScanDemand(p.child, Demand(p, required))
  }

  /** Every position demanded by the query is a column of the scans. */
  ghost predicate DemandsMet(p: Plan)
  {
    SingleBlock(p) && Within(ScanDemand(p, {}), FullWidth(Block(p)))
  }

  /** Push-down over a query block, LIMITs included, succeeds exactly when every index demanded
      above its scan block is one that the block has. */
  lemma {:induction false} QueryAnnotates(p: Plan, required: set<nat>, pushable: seq<PushablePredicate>)
    requires SingleBlock(p) && InRange(p)
    ensures Annotate(p, required, pushable).Some? <==> Within(ScanDemand(p, required), FullWidth(Block(p)))
  {
    hide Annotate, Within, FullWidth, Demand;
    if ScanBlock(p) {
      BlockAnnotates(p, required, pushable);
    } else {
      AnnotateStep(p, required, pushable);
      ChildInRange(p);
      QueryAnnotates(p.child, Demand(p, required), Forwarded(p, pushable));
    }
  }

  /** For example, ORDER BY positions of an aggregate query index its output, yet they are
      demanded of the scan, besides what the aggregation reads. */
  lemma OrderByOverAggregate(c: Plan, groupBy: seq<NamedExpr>, calls: seq<AggregateCall>, items: seq<NamedExpr>,
                             keys: seq<SortKey>)
    requires ScanBlock(c) && InRange(Sort(Project(Group(c, groupBy, calls), items), keys))
    ensures Annotate(Sort(Project(Group(c, groupBy, calls), items), keys), {}, []).Some?
       <==> Within(KeyColumns(keys), FullWidth(c))
  {
    var group := Group(c, groupBy, calls);
    var project := Project(group, items);
    var query := Sort(project, keys);
    ScanBlockReferences(c);
    assert SingleBlock(group) && SingleBlock(project) && InRange(project) && InRange(group);
    QueryAnnotates(query, {}, []);
    assert ScanDemand(query, {}) == ScanDemand(project, {} + KeyColumns(keys)) == ScanDemand(group, {} + KeyColumns(keys));
    assert ScanDemand(group, {} + KeyColumns(keys)) == {} + KeyColumns(keys) + ItemColumns(groupBy) + CallColumns(calls);
    assert Block(query) == Block(project) == Block(group) == c;
  }

  /** A LIMIT moved below the select list has the same effect as HAVING. */
  lemma LimitOverAggregate(c: Plan, groupBy: seq<NamedExpr>, calls: seq<AggregateCall>, n: int, items: seq<NamedExpr>)
    requires ScanBlock(c) && InRange(Project(Limit(Group(c, groupBy, calls), n), items))
    ensures Annotate(Project(Limit(Group(c, groupBy, calls), n), items), {}, []).Some?
       <==> Within(ItemColumns(items), FullWidth(c))
  {
    var group := Group(c, groupBy, calls);
    var limit := Limit(group, n);
    var query := Project(limit, items);
    ScanBlockReferences(c);
    assert SingleBlock(group) && SingleBlock(limit) && InRange(limit) && InRange(group);
    QueryAnnotates(query, {}, []);
    assert ScanDemand(query, {}) == ScanDemand(limit, {} + ItemColumns(items)) == ScanDemand(group, {} + ItemColumns(items));
    assert ScanDemand(group, {} + ItemColumns(items)) == {} + ItemColumns(items) + ItemColumns(groupBy) + CallColumns(calls);
    assert Block(query) == Block(limit) == Block(group) == c;
  }

  /** The select list over HAVING indexes the aggregate's output, and is demanded of the scan
      all the same. */
  lemma SelectOverHaving(c: Plan, groupBy: seq<NamedExpr>, calls: seq<AggregateCall>, having: Expr,
                         items: seq<NamedExpr>)
    requires ScanBlock(c) && InRange(Project(Filter(Group(c, groupBy, calls), having), items))
    ensures Annotate(Project(Filter(Group(c, groupBy, calls), having), items), {}, []).Some?
       <==> Within(ItemColumns(items), FullWidth(c))
  {
    var group := Group(c, groupBy, calls);
    var filter := Filter(group, having);
    var query := Project(filter, items);
    ScanBlockReferences(c);
    assert SingleBlock(group) && SingleBlock(filter) && InRange(filter) && InRange(group);
    QueryAnnotates(query, {}, []);
    assert ScanDemand(query, {}) == ScanDemand(filter, {} + ItemColumns(items)) == ScanDemand(group, {} + ItemColumns(items));
    assert ScanDemand(group, {} + ItemColumns(items)) == {} + ItemColumns(items) + ItemColumns(groupBy) + CallColumns(calls);
    assert Block(query) == Block(filter) == Block(group) == c;
  }
}
