/** Joins whose inputs are finished subqueries, and what goes wrong when a subquery's projection
has been dropped.

A derived table's columns are its select list, so whatever stands above it must read them by
position. The planner does so through the identity map of the subquery's projection or
aggregation; when the projection has been dropped as an identity, it reads them through the
map of the narrowed scan underneath instead. */
module DerivedSources {
  import opened Expressions
  import opened Relational
  import opened JoinSemantics
  import opened LogicalPlans
  import opened PhysicalPlanner
  import opened PlannerCorrectness
  import opened Aggregation
  import opened Simplifier
  import opened Rewriter
  import opened BlockShapes
  import opened DerivedColumns
  import opened SingleBlocks
  import opened RequiredColumns
  import opened QueryPlanning

  function Positions(n: nat): (layout: seq<nat>)
    ensures |layout| == n && forall j :: 0 <= j < n ==> layout[j] == j
  {
    seq(n, j => j)
  }

  lemma GatherPositions(row: Row)
    ensures Gather(Positions(|row|), row) == row
  {
    GatherAt(Positions(|row|), row);
  }

  /** A derived table read through the identity map is a proper join input. */
  lemma DerivedDelivers(k: Kernels, tables: Tables, p: Plan, q: PhysicalPlan)
    requires Conforms(tables, p) && Realizes(k, tables, p, q) && Boundary(q) == IdentityMap(Width(p))
    ensures Delivers(k, tables, p, q, Positions(Width(p)))
  {
    var rows := EvalPlan(k, tables, p);
    EvalPlanWidth(k, tables, p);
    forall row | row in rows ensures Gather(Positions(Width(p)), row) == row {
      GatherPositions(row);
    }
    MapId(row => Gather(Positions(Width(p)), row), rows);
  }

  /** A subquery the planner reads by position, none of its columns lost. */
  ghost predicate Derived(k: Kernels, tables: Tables, p: Plan, estimates: Estimates)
    requires Convert(p, estimates).Some?
  {
    && SingleBlock(p) && !ScanBlock(p) && LimitFree(p) && Conforms(tables, p) && PlanReadsTyped(k, tables, p)
    && Resolves(p, estimates) && Boundary(Convert(p, estimates).value) == IdentityMap(Width(p))
  }

  /** A join input: a scan block, a subquery, or a tree of joins, WHEREs and ORDER BYs over such
      inputs. */
  ghost predicate Source(k: Kernels, tables: Tables, p: Plan, estimates: Estimates)
  {
    && Convert(p, estimates).Some?
    && (|| (ScanBlock(p) && LimitFree(p) && Conforms(tables, p))
        || Derived(k, tables, p, estimates)
        || (p.Join? && (p.residual.Some? ==> p.joinType.LeftSemi? || p.joinType.LeftAnti?)
            && Source(k, tables, p.left, estimates) && Source(k, tables, p.right, estimates))
        || ((p.Filter? || p.Sort?) && ReferencesScanSchema(p.child) && Source(k, tables, p.child, estimates)))
  }

  lemma {:induction false} SourceConforms(k: Kernels, tables: Tables, p: Plan, estimates: Estimates)
    requires Source(k, tables, p, estimates)
    ensures Conforms(tables, p)
  {
    if !Conforms(tables, p) {
      if p.Join? {
        SourceConforms(k, tables, p.left, estimates);
        SourceConforms(k, tables, p.right, estimates);
      } else {
        SourceConforms(k, tables, p.child, estimates);
      }
    }
  }

  /** Every such input delivers its logical rows. */
  lemma {:induction false} SourceDelivers(k: Kernels, tables: Tables, p: Plan, estimates: Estimates)
    returns (layout: seq<nat>)
    requires Source(k, tables, p, estimates)
    ensures Delivers(k, tables, p, Convert(p, estimates).value, layout)
  {
    hide Delivers, EvalPlan, EvalPhysical, Remap, RemapKeys, Resolves, PlanReadsTyped;
    SourceConforms(k, tables, p, estimates);
    if ScanBlock(p) && LimitFree(p) {
      layout := BlockDelivers(k, tables, p, estimates);
    } else if Derived(k, tables, p, estimates) {
      layout := Positions(Width(p));
      ConvertPreserves(k, tables, p, estimates);
      DerivedDelivers(k, tables, p, Convert(p, estimates).value);
    } else {
      match p
      case Join(l, r, _, _, _, _) =>
        var a := SourceDelivers(k, tables, l, estimates);
        var b := SourceDelivers(k, tables, r, estimates);
        layout := JoinDelivers(k, tables, p, estimates, Convert(l, estimates).value, Convert(r, estimates).value, a, b);
      case Filter(c, condition) =>
        layout := SourceDelivers(k, tables, c, estimates);
        FilterDelivers(k, tables, c, Convert(c, estimates).value, layout, condition);
      case Sort(c, keys) =>
        layout := SourceDelivers(k, tables, c, estimates);
        SortDelivers(k, tables, c, Convert(c, estimates).value, layout, keys);
    }
  }

  /** A join of scan blocks and derived tables, themselves joined or not, delivers the logical
      join's rows. */
  lemma JoinOfSources(k: Kernels, tables: Tables, p: Plan, estimates: Estimates) returns (layout: seq<nat>)
    requires p.Join? && (p.residual.Some? ==> p.joinType.LeftSemi? || p.joinType.LeftAnti?)
    requires Source(k, tables, p.left, estimates) && Source(k, tables, p.right, estimates)
    requires Convert(p, estimates).Some?
    ensures Delivers(k, tables, p, Convert(p, estimates).value, layout)
  {
    layout := SourceDelivers(k, tables, p, estimates);
  }

  /** A select list or an aggregation over such a join keeps the rows. */
  lemma QueryOfSources(k: Kernels, tables: Tables, p: Plan, estimates: Estimates)
    requires (p.Project? && ItemsReadTyped(p.items, EvalPlan(k, tables, p.child))) || p.Group?
    requires Source(k, tables, p.child, estimates) && ReferencesScanSchema(p.child) && Convert(p, estimates).Some?
    ensures Realizes(k, tables, p, Convert(p, estimates).value)
  {
    hide Delivers, EvalPlan, EvalPhysical, RemapItems, RemapCalls, Realizes, Boundary, OutputNames, IsIdentityProjection,
      ItemsReadTyped;
    var q := Convert(p.child, estimates).value;
    SourceConforms(k, tables, p.child, estimates);
    var layout := SourceDelivers(k, tables, p.child, estimates);
    match p
    case Project(c, items) => ProjectOverBlock(k, tables, c, q, layout, items);
    case Group(c, groupBy, calls) => GroupOverBlock(k, tables, c, q, layout, groupBy, calls);
  }

  /** Which projections over a scan block make a join input: those that survive, and those that
      select every column in its place. */
  lemma ProjectionIsSource(c: Plan, items: seq<NamedExpr>, estimates: Estimates)
    requires ScanBlock(c) && Convert(Project(c, items), estimates).Some?
    ensures Boundary(Convert(Project(c, items), estimates).value) == IdentityMap(|items|)
       <==> !Dropped(c, items, estimates) || (Aligned(items) && |items| == Width(c))
  {
    hide Dropped, Aligned;
    var q := Convert(Project(c, items), estimates).value;
    ProjectionOwnsColumns(c, items, estimates);
    DroppedConverts(c, items, estimates);
    ProjectWidth(c, items, estimates);
    if Dropped(c, items, estimates) {
      var layout := BlockFits(c, estimates);
      if Boundary(q) == IdentityMap(|items|) {
        assert OwnColumns(q, |items|);
      }
      if OwnColumns(q, |items|) && |items| == Width(c) {
        forall i | 0 <= i < |items| ensures Boundary(q)[i] == IdentityMap(|items|)[i] {
          assert Lookup(Boundary(q), i) == Some(i);
        }
      }
    }
  }

  // ---------------------------------------------------------------------------
  // A dropped projection
  // ---------------------------------------------------------------------------

  // SELECT ... FROM (SELECT b, c FROM t) AS d LEFT JOIN u ON d.c = u.k

  const T := Scan("t", [Field("a", Int64), Field("b", Int64), Field("c", Int64)], {}, [])
  const U := Scan("u", [Field("k", Int64)], {}, [])
  const B_AND_C := [NamedExpr(Column("b", 1, Int64), "b"), NamedExpr(Column("c", 2, Int64), "c")]
  const JOIN_QUERY := Join(Project(T, B_AND_C), U, 1, 0, LeftOuter, None)

  // What push-down makes of the two scans.

  const SCAN_T := T.(required := {"b", "c"})
  const SCAN_U := U.(required := {"k"})
  const ANNOTATED_JOIN := JOIN_QUERY.(left := Project(SCAN_T, B_AND_C), right := SCAN_U)

  lemma ColumnsOfB_AND_C()
    ensures ItemColumns(B_AND_C) == {1, 2}
  {
    assert B_AND_C[1..][1..] == [] && B_AND_C[1..][0] == B_AND_C[1];
    assert ItemColumns(B_AND_C[1..]) == {2} + ItemColumns([]);
  }

  lemma AnnotatedT(required: set<nat>)
    requires required <= {1, 2}
    ensures Annotate(Project(T, B_AND_C), required, []) == Some(Project(SCAN_T, B_AND_C))
  {
    ColumnsOfB_AND_C();
    var demand := required + ItemColumns(B_AND_C);
    assert demand == {1, 2};
    var names := set i | i in demand && i < 3 :: T.fields[i].name;
    assert 1 in demand && 2 in demand && T.fields[1].name in names && T.fields[2].name in names;
    assert names == {"b", "c"};
    assert Annotate(T, demand, []) == Some(SCAN_T);
  }

  lemma AnnotatedU(required: set<nat>)
    requires required == {0}
    ensures Annotate(U, required, []) == Some(SCAN_U)
  {
    var names := set i | i in required && i < 1 :: U.fields[i].name;
    assert 0 in required && U.fields[0].name in names;
    assert names == {"k"};
  }

  /** These annotations do arise from the whole join. */
  lemma JoinAnnotated()
    ensures Annotate(JOIN_QUERY, {}, []) == Some(ANNOTATED_JOIN)
  {
    var all: set<nat> := {} + ResidualColumns(None);
    assert LeftPart(all, 2) + {1} == {1} && RightPart(all, 2) + {0} == {0};
    AnnotatedT({1});
    AnnotatedU({0});
    assert Width(JOIN_QUERY.left) == 2;
  }

  lemma NarrowedT()
    ensures ConvertScan(SCAN_T) == ParquetScan("t", [], [1, 2], ["b", "c"], [None, Some(0), Some(1)])
  {
    var fields, required := SCAN_T.fields, SCAN_T.required;
    assert Kept(fields, required, 1) == [] && NarrowMap(fields, required, 1) == [None];
    assert Kept(fields, required, 2) == [1] && NarrowMap(fields, required, 2) == [None, Some(0)];
    assert Kept(fields, required, 3) == [1, 2] && NarrowMap(fields, required, 3) == [None, Some(0), Some(1)];
    MapIndex((i: nat) => if i < |fields| then fields[i].name else "", [1, 2]);
    assert FieldNames(fields, [1, 2]) == ["b", "c"];
  }

  lemma NarrowedU()
    ensures ConvertScan(SCAN_U) == ParquetScan("u", [], [0], ["k"], [Some(0)])
  {
    var fields, required := SCAN_U.fields, SCAN_U.required;
    assert Kept(fields, required, 1) == [0] && NarrowMap(fields, required, 1) == [Some(0)];
    MapIndex((i: nat) => if i < |fields| then fields[i].name else "", [0]);
    assert FieldNames(fields, [0]) == ["k"];
  }

  lemma RemappedItems()
    ensures RemapItems(B_AND_C, [None, Some(0), Some(1)])
         == Some([NamedExpr(Column("b", 0, Int64), "b"), NamedExpr(Column("c", 1, Int64), "c")])
  {
    var items, columnMap := B_AND_C, [None, Some(0), Some(1)];
    var b, c := NamedExpr(Column("b", 0, Int64), "b"), NamedExpr(Column("c", 1, Int64), "c");
    assert Remap(items[0].expr, columnMap) == Some(b.expr);
    assert Remap(items[1].expr, columnMap) == Some(c.expr);
    var tail := items[1..];
    assert tail[0] == items[1] && tail[1..] == [];
    assert RemapItems(tail[1..], columnMap) == Some([]);
    assert RemapItems(tail, columnMap) == Some([c] + []);
    assert [c] + [] == [c] && [b] + [c] == [b, c];
  }

  /** The projection is dropped, and column `c` of the subquery is looked up where `b` is. */
  lemma SubqueryDropped(estimates: Estimates)
    ensures Dropped(SCAN_T, B_AND_C, estimates)
    ensures Convert(Project(SCAN_T, B_AND_C), estimates) == Some(ConvertScan(SCAN_T))
    ensures Lookup(Boundary(ConvertScan(SCAN_T)), 1) == Some(0)
  {
    NarrowedT();
    RemappedItems();
  }

  /** The join key `d.c` becomes the physical column `b`. */
  lemma JoinConverted(estimates: Estimates)
    ensures Convert(ANNOTATED_JOIN, estimates).Some?
    ensures var q := Convert(ANNOTATED_JOIN, estimates).value;
            && q.HashJoin? && q.left == ConvertScan(SCAN_T) && q.right == ConvertScan(SCAN_U)
            && PhysicalSpec(q) == JoinSpec(LeftOuter, 0, 0, 1, None)
  {
    hide CombinedMap, ConvertScan;
    SubqueryDropped(estimates);
    NarrowedU();
  }

  /** One row on each side of a left join: matched or padded. */
  lemma OneByOne(k: Kernels, spec: JoinSpec, l: Row, r: Row)
    requires spec.joinType.LeftOuter? && spec.residual.None?
    ensures JoinRows(k, spec, [l], [r]) == [if Matches(k, spec, l, r) then l + r else l + Nulls(spec.rightWidth)]
  {
    if Matches(k, spec, l, r) {
      SelectAll(x => Matches(k, spec, l, x), [r]);
      MapAppend(x => l + x, [r], []);
      assert JoinOne(k, spec, l, [r]) == [l + r];
    } else {
      SelectNone(x => Matches(k, spec, l, x), [r]);
      assert JoinOne(k, spec, l, [r]) == [l + Nulls(spec.rightWidth)];
    }
    assert [l][1..] == [] && JoinRows(k, spec, [], [r]) == [];
  }

  lemma SubqueryRows(k: Kernels, tables: Tables)
    requires tables("t", []) == [[Int(0), Int(1), Int(2)]]
    ensures EvalPlan(k, tables, Project(T, B_AND_C)) == [[Int(1), Int(2)]]
    ensures EvalPhysical(k, tables, ConvertScan(SCAN_T)) == [[Int(1), Int(2)]]
  {
    var row := [Int(0), Int(1), Int(2)];
    NarrowedT();
    MapIndex((item: NamedExpr) => Eval(k, item.expr, row), B_AND_C);
    assert EvalItems(k, B_AND_C, row) == [Int(1), Int(2)];
    MapAppend(r => EvalItems(k, B_AND_C, r), [row], []);
    GatherAt([1, 2], row);
    assert Gather([1, 2], row) == [Int(1), Int(2)];
    MapAppend(r => Gather([1, 2], r), [row], []);
  }

  lemma UsersRows(k: Kernels, tables: Tables)
    requires tables("u", []) == [[Int(1)]]
    ensures EvalPhysical(k, tables, ConvertScan(SCAN_U)) == [[Int(1)]]
  {
    NarrowedU();
    GatherAt([0], [Int(1)]);
    assert Gather([0], [Int(1)]) == [Int(1)];
    MapAppend(r => Gather([0], r), [[Int(1)]], []);
  }

  /** With t = {(0, 1, 2)} and u = {(1)}, `d.c` is 2 and matches nothing, yet the plan matches
      `d.b`, which is 1: the join is answered with other rows. */
  lemma DroppedProjectionMisjoins(k: Kernels, tables: Tables, estimates: Estimates)
    requires tables("t", []) == [[Int(0), Int(1), Int(2)]] && tables("u", []) == [[Int(1)]]
    ensures Annotate(JOIN_QUERY, {}, []) == Some(ANNOTATED_JOIN) && Convert(ANNOTATED_JOIN, estimates).Some?
    ensures EvalPlan(k, tables, JOIN_QUERY) == [[Int(1), Int(2), Null]]
    ensures EvalPhysical(k, tables, Convert(ANNOTATED_JOIN, estimates).value) == [[Int(1), Int(2), Int(1)]]
    ensures !SameRows(EvalPhysical(k, tables, Convert(ANNOTATED_JOIN, estimates).value), EvalPlan(k, tables, JOIN_QUERY))
  {
    hide Convert, ConvertScan, JoinRows, Annotate;
    JoinAnnotated();
    JoinConverted(estimates);
    SubqueryRows(k, tables);
    UsersRows(k, tables);
    var l, r := [Int(1), Int(2)], [Int(1)];
    var logical, physical := JoinSpec(LeftOuter, 1, 0, 1, None), JoinSpec(LeftOuter, 0, 0, 1, None);
    OneByOne(k, logical, l, r);
    OneByOne(k, physical, l, r);
    assert Nulls(1) == [Null] && l + Nulls(1) == [Int(1), Int(2), Null] && l + r == [Int(1), Int(2), Int(1)];
    assert EvalPlan(k, tables, JOIN_QUERY) == JoinRows(k, logical, [l], [r]);
    assert [Int(1), Int(2), Null][2] != [Int(1), Int(2), Int(1)][2];
    assert [Int(1), Int(2), Int(1)] !in multiset([[Int(1), Int(2), Null]]);
    assert [Int(1), Int(2), Int(1)] in multiset([[Int(1), Int(2), Int(1)]]);
  }

  // SELECT c FROM (SELECT b, c FROM t) AS d WHERE c IS NOT NULL

  const C_OF_D := NamedExpr(Column("c", 1, Int64), "c")
  const HAS_C := Unary(IsNotNull, Column("c", 1, Int64), Boolean)
  const WHERE_QUERY := Project(Filter(Project(T, B_AND_C), HAS_C), [C_OF_D])
  const ANNOTATED_WHERE := Project(Filter(Project(SCAN_T, B_AND_C), HAS_C), [C_OF_D])

  /** A well-indexed, well-typed query block; only it does not read `d` by position. */
  lemma WhereShape()
    ensures SingleBlock(WHERE_QUERY) && InRange(WHERE_QUERY) && LimitFree(WHERE_QUERY) && PlanTyped(WHERE_QUERY)
    ensures !DerivedByPosition(WHERE_QUERY)
  {
    var derived, filter := WHERE_QUERY.child.child, WHERE_QUERY.child;
    ColumnsOfB_AND_C();
    assert [C_OF_D][1..] == [] && ItemColumns([C_OF_D]) == {1};
    assert SingleBlock(derived) && InRange(derived) && LimitFree(derived) && PlanTyped(derived) by {
      assert SingleBlock(T) && InRange(T) && LimitFree(T) && PlanTyped(T) && Width(T) == 3;
    }
    assert SingleBlock(filter) && InRange(filter) && LimitFree(filter) && PlanTyped(filter);
    assert Columns(HAS_C) == {1};
    assert !ScanBlock(derived) && !KeepsColumns(derived, {1}) by {
      assert NamesOf(T) == {"a", "b", "c"} by { NamesOfT(); }
      assert B_AND_C[1].expr.index != 1 && 1 in {1};
    }
    assert !ReadByPosition(filter, NodeColumns(WHERE_QUERY));
  }

  lemma NamesOfT()
    ensures NamesOf(T) == {"a", "b", "c"}
  {
    var f := T.fields;
    assert f[0] in f && f[1] in f && f[2] in f;
  }

  lemma WhereRewritten(k: Kernels)
    ensures Rewrite(k, WHERE_QUERY) == WHERE_QUERY
  {
    var derived, filter := WHERE_QUERY.child.child, WHERE_QUERY.child;
    MapIndex((item: NamedExpr) => NamedExpr(Simplify(k, item.expr), item.name), B_AND_C);
    MapIndex((item: NamedExpr) => NamedExpr(Simplify(k, item.expr), item.name), [C_OF_D]);
    assert SimplifyItems(k, B_AND_C) == B_AND_C && SimplifyItems(k, [C_OF_D]) == [C_OF_D];
    assert Rewrite(k, derived) == derived;
    assert Simplify(k, HAS_C) == HAS_C;
    assert Rewrite(k, filter) == filter;
  }

  lemma WhereAnnotated()
    ensures Annotate(WHERE_QUERY, {}, []) == Some(ANNOTATED_WHERE)
  {
    var filter := WHERE_QUERY.child;
    assert [C_OF_D][1..] == [] && ItemColumns([C_OF_D]) == {1};
    var one: set<nat> := {1};
    assert {} + ItemColumns([C_OF_D]) == one;
    assert Demand(filter, one) == one && Forwarded(filter, []) == [] by {
      assert Columns(HAS_C) == one && CollectPushable(HAS_C) == [];
    }
    AnnotatedT(one);
    AnnotateStep(filter, one, []);
    AnnotateStep(WHERE_QUERY, {}, []);
  }

  /** The outer select list is re-indexed, as if it read the scan: `c` becomes physical `b`. */
  lemma WhereConverted(estimates: Estimates)
    ensures Convert(ANNOTATED_WHERE, estimates)
         == Some(ProjectionNode(FilterNode(ConvertScan(SCAN_T), HAS_C), [NamedExpr(Column("c", 0, Int64), "c")]))
  {
    var scan := ConvertScan(SCAN_T);
    SubqueryDropped(estimates);
    NarrowedT();
    assert Convert(ANNOTATED_WHERE.child, estimates) == Some(FilterNode(scan, HAS_C));
    assert [C_OF_D][1..] == [] && RemapItems([], Boundary(scan)) == Some([]);
    var item := NamedExpr(Column("c", 0, Int64), "c");
    assert Remap(C_OF_D.expr, Boundary(scan)) == Some(item.expr) && [item] + [] == [item];
    assert RemapItems([C_OF_D], Boundary(FilterNode(scan, HAS_C))) == Some([item]);
  }

  lemma OneItem(k: Kernels, item: NamedExpr, row: Row)
    ensures ProjectRows(k, [item], [row]) == [[Eval(k, item.expr, row)]]
  {
    MapAppend((i: NamedExpr) => Eval(k, i.expr, row), [item], []);
    MapAppend(r => EvalItems(k, [item], r), [row], []);
  }

  /** With t = {(0, 1, 2)} this well-formed query asks for 2 and is answered 1. */
  lemma DroppedProjectionMisreads(k: Kernels, tables: Tables, estimates: Estimates)
    requires tables("t", []) == [[Int(0), Int(1), Int(2)]]
    ensures SingleBlock(WHERE_QUERY) && InRange(WHERE_QUERY) && LimitFree(WHERE_QUERY) && PlanTyped(WHERE_QUERY)
    ensures !DerivedByPosition(WHERE_QUERY) && PlanQuery(k, WHERE_QUERY, estimates).Some?
    ensures EvalPlan(k, tables, WHERE_QUERY) == [[Int(2)]]
    ensures EvalPhysical(k, tables, PlanQuery(k, WHERE_QUERY, estimates).value) == [[Int(1)]]
  {
    hide Rewrite, Annotate, Convert, ConvertScan, DerivedByPosition, InRange;
    WhereShape();
    WhereRewritten(k);
    WhereAnnotated();
    WhereConverted(estimates);
    SubqueryRows(k, tables);
    var row := [Int(1), Int(2)];
    assert Eval(k, HAS_C.operand, row) == Int(2) && Eval(k, HAS_C, row) == Bool(true);
    SelectAll(r => Holds(k, HAS_C, r), [row]);
    assert EvalPlan(k, tables, WHERE_QUERY.child) == [row];
    OneItem(k, C_OF_D, row);
    OneItem(k, NamedExpr(Column("c", 0, Int64), "c"), row);
  }
}
