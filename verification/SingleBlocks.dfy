/** Query blocks the planner handles: join trees with WHERE and ORDER BY over scans, then
aggregation, HAVING, projection and ORDER BY on top. For these, physical planning keeps the
rows, and after projection push-down it never meets a pruned column. */
module SingleBlocks {
  import opened Expressions
  import opened Relational
  import opened Distinctness
  import opened Aggregation
  import opened JoinSemantics
  import opened LogicalPlans
  import opened PhysicalPlanner
  import opened PlannerCorrectness
  import opened BlockShapes
  import opened DerivedColumns

  /** Every column reference in `e` reads a value of its declared type. */
  ghost predicate ReadsTyped(e: Expr, row: Row)
  {
    match e
    case Column(_, i, t) => ReadAs(t, At(row, i)) == At(row, i)
    case Literal(_, _) => true
    case Binary(_, l, r, _) => ReadsTyped(l, row) && ReadsTyped(r, row)
    case Unary(_, o, _) => ReadsTyped(o, row)
    case Cast(o, _) => ReadsTyped(o, row)
    case Between(s, lo, hi) => ReadsTyped(s, row) && ReadsTyped(lo, row) && ReadsTyped(hi, row)
    case Like(s, _, _) => ReadsTyped(s, row)
    case Case(c, r, o, _) => ReadsTyped(c, row) && ReadsTyped(r, row) && ReadsTyped(o, row)
    case Extract(_, o, _) => ReadsTyped(o, row)
    case Substring(o, _, _, _) => ReadsTyped(o, row)
  }

  /** The data has the types the query was bound against, wherever a projection reads it. */
  ghost predicate PlanReadsTyped(k: Kernels, tables: Tables, p: Plan)
  {
    match p
    case Scan(_, _, _, _) => true
    case Join(l, r, _, _, _, _) => PlanReadsTyped(k, tables, l) && PlanReadsTyped(k, tables, r)
    case Filter(c, _) => PlanReadsTyped(k, tables, c)
    case Project(c, items) => PlanReadsTyped(k, tables, c) && ItemsReadTyped(items, EvalPlan(k, tables, c))
    case Group(c, _, _) => PlanReadsTyped(k, tables, c)
    case Sort(c, _) => PlanReadsTyped(k, tables, c)
    case Limit(c, _) => PlanReadsTyped(k, tables, c)
  }

  ghost predicate ItemsReadTyped(items: seq<NamedExpr>, rows: seq<Row>)
  {
    forall row, item :: row in rows && item in items ==> ReadsTyped(item.expr, row)
  }

  // ---------------------------------------------------------------------------
  // Aggregation over rearranged and gathered rows
  // ---------------------------------------------------------------------------
  lemma CallResultsSameRows(k: Kernels, calls: seq<AggregateCall>, rows: seq<Row>, rows': seq<Row>)
    requires SameRows(rows, rows')
    ensures CallResults(k, calls, rows) == CallResults(k, calls, rows')
  {
    forall call | call in calls
      ensures Aggregate(k, call.func, CallValues(k, call, rows)) == Aggregate(k, call.func, CallValues(k, call, rows'))
    {
      MapSameRows(row => Eval(k, call.argument, row), rows, rows');
      AggregateSameRows(k, call.func, CallValues(k, call, rows), CallValues(k, call, rows'));
    }
    MapExt((call: AggregateCall) => Aggregate(k, call.func, CallValues(k, call, rows)),
           (call: AggregateCall) => Aggregate(k, call.func, CallValues(k, call, rows')), calls);
  }

  /** Aggregation depends on its input only as a multiset. */
  lemma GroupSameRows(k: Kernels, groupBy: seq<NamedExpr>, calls: seq<AggregateCall>, rows: seq<Row>, rows': seq<Row>)
    requires SameRows(rows, rows')
    ensures SameRows(GroupRows(k, groupBy, calls, rows), GroupRows(k, groupBy, calls, rows'))
  {
    if groupBy == [] {
      CallResultsSameRows(k, calls, rows, rows');
    } else {
      var all, all' := ProjectRows(k, groupBy, rows), ProjectRows(k, groupBy, rows');
      MapSameRows(row => EvalItems(k, groupBy, row), rows, rows');
      SameRowsMembers(all, all');
      DistinctSameRows(all, all');
      SelectSameRows(k.groupKept, Distinct(all), Distinct(all'));
      var keys, keys' := Select(k.groupKept, Distinct(all)), Select(k.groupKept, Distinct(all'));
      var f := (key: Row) => key + CallResults(k, calls, GroupMembers(k, groupBy, rows, key));
      var f' := (key: Row) => key + CallResults(k, calls, GroupMembers(k, groupBy, rows', key));
      forall key | key in keys ensures f(key) == f'(key) {
        SelectSameRows(row => EvalItems(k, groupBy, row) == key, rows, rows');
        CallResultsSameRows(k, calls, GroupMembers(k, groupBy, rows, key), GroupMembers(k, groupBy, rows', key));
      }
      MapExt(f, f', keys);
      MapSameRows(f', keys, keys');
    }
  }

  /** `calls'` over gathered rows is `calls` over the originals. */
  lemma {:induction false} CallResultsOfGathered(k: Kernels, calls: seq<AggregateCall>, columnMap: ColumnMap,
                                                 layout: seq<nat>, n: nat, rows: seq<Row>)
    requires Fits(columnMap, layout, n) && AllWidth(rows, n) && RemapCalls(calls, columnMap).Some?
    ensures CallResults(k, RemapCalls(calls, columnMap).value, Map(row => Gather(layout, row), rows))
         == CallResults(k, calls, rows)
  {
    if calls != [] {
      var call := calls[0];
      var first := AggregateCall(call.func, Remap(call.argument, columnMap).value, call.name);
      var rest := RemapCalls(calls[1..], columnMap).value;
      var rows' := Map(row => Gather(layout, row), rows);
      forall row | row in rows
        ensures Eval(k, first.argument, Gather(layout, row)) == Eval(k, call.argument, row)
      {
        RemapPreserves(k, call.argument, columnMap, layout, row);
      }
      MapMap(row => Eval(k, first.argument, row), row => Gather(layout, row), row => Eval(k, call.argument, row), rows);
      CallResultsOfGathered(k, calls[1..], columnMap, layout, n, rows);
      var result := (c: AggregateCall) => Aggregate(k, c.func, CallValues(k, c, rows));
      var result' := (c: AggregateCall) => Aggregate(k, c.func, CallValues(k, c, rows'));
      assert calls == [call] + calls[1..];
      MapAppend(result, [call], calls[1..]);
      MapAppend(result', [first], rest);
    }
  }

  lemma MembersOfGathered(k: Kernels, groupBy: seq<NamedExpr>, columnMap: ColumnMap, layout: seq<nat>, n: nat,
                          rows: seq<Row>, key: Row)
    requires Fits(columnMap, layout, n) && AllWidth(rows, n) && RemapItems(groupBy, columnMap).Some?
    ensures GroupMembers(k, RemapItems(groupBy, columnMap).value, Map(row => Gather(layout, row), rows), key)
         == Map(row => Gather(layout, row), GroupMembers(k, groupBy, rows, key))
    ensures AllWidth(GroupMembers(k, groupBy, rows, key), n)
  {
    var groupBy' := RemapItems(groupBy, columnMap).value;
    forall row | row in rows
      ensures EvalItems(k, groupBy', Gather(layout, row)) == EvalItems(k, groupBy, row)
    {
      RemapItemsPreserves(k, groupBy, columnMap, layout, row);
    }
    SelectOfMap(row => EvalItems(k, groupBy', row) == key, row => Gather(layout, row),
                row => EvalItems(k, groupBy, row) == key, rows);
    forall row | row in GroupMembers(k, groupBy, rows, key) ensures row in rows {
      SelectMember(row => EvalItems(k, groupBy, row) == key, rows, row);
    }
  }

  lemma ProjectOfGathered(k: Kernels, items: seq<NamedExpr>, columnMap: ColumnMap, layout: seq<nat>, n: nat,
                          rows: seq<Row>)
    requires Fits(columnMap, layout, n) && AllWidth(rows, n) && RemapItems(items, columnMap).Some?
    ensures ProjectRows(k, RemapItems(items, columnMap).value, Map(row => Gather(layout, row), rows))
         == ProjectRows(k, items, rows)
  {
    var items' := RemapItems(items, columnMap).value;
    forall row | row in rows ensures EvalItems(k, items, row) == EvalItems(k, items', Gather(layout, row)) {
      RemapItemsPreserves(k, items, columnMap, layout, row);
    }
    MapMap(row => EvalItems(k, items', row), row => Gather(layout, row), row => EvalItems(k, items, row), rows);
  }

  lemma GroupOfGathered(k: Kernels, groupBy: seq<NamedExpr>, calls: seq<AggregateCall>, columnMap: ColumnMap,
                        layout: seq<nat>, n: nat, rows: seq<Row>)
    requires Fits(columnMap, layout, n) && AllWidth(rows, n)
    requires RemapItems(groupBy, columnMap).Some? && RemapCalls(calls, columnMap).Some?
    ensures GroupRows(k, RemapItems(groupBy, columnMap).value, RemapCalls(calls, columnMap).value,
                      Map(row => Gather(layout, row), rows))
         == GroupRows(k, groupBy, calls, rows)
  {
    var groupBy', calls' := RemapItems(groupBy, columnMap).value, RemapCalls(calls, columnMap).value;
    var rows' := Map(row => Gather(layout, row), rows);
    RemapItemsLength(groupBy, columnMap);
    CallResultsOfGathered(k, calls, columnMap, layout, n, rows);
    if groupBy != [] {
      ProjectOfGathered(k, groupBy, columnMap, layout, n, rows);
      var keys := Select(k.groupKept, Distinct(ProjectRows(k, groupBy, rows)));
      forall key | key in keys
        ensures CallResults(k, calls', GroupMembers(k, groupBy', rows', key))
             == CallResults(k, calls, GroupMembers(k, groupBy, rows, key))
      {
        MembersOfGathered(k, groupBy, columnMap, layout, n, rows, key);
        CallResultsOfGathered(k, calls, columnMap, layout, n, GroupMembers(k, groupBy, rows, key));
      }
      MapExt(key => key + CallResults(k, calls', GroupMembers(k, groupBy', rows', key)),
             key => key + CallResults(k, calls, GroupMembers(k, groupBy, rows, key)), keys);
    }
  }

  // ---------------------------------------------------------------------------
  // Scan blocks
  // ---------------------------------------------------------------------------

  lemma FilterOfGathered(k: Kernels, condition: Expr, columnMap: ColumnMap, layout: seq<nat>, n: nat, rows: seq<Row>,
                         rows': seq<Row>)
    requires Fits(columnMap, layout, n) && AllWidth(rows, n) && Remap(condition, columnMap).Some?
    requires SameRows(rows', Map(row => Gather(layout, row), rows))
    ensures SameRows(FilterRows(k, Remap(condition, columnMap).value, rows'),
                     Map(row => Gather(layout, row), FilterRows(k, condition, rows)))
  {
    var condition' := Remap(condition, columnMap).value;
    forall row | row in rows ensures Holds(k, condition', Gather(layout, row)) == Holds(k, condition, row) {
      RemapPreserves(k, condition, columnMap, layout, row);
    }
    SelectOfMap(row => Holds(k, condition', row), row => Gather(layout, row), row => Holds(k, condition, row), rows);
    SelectSameRows(row => Holds(k, condition', row), rows', Map(row => Gather(layout, row), rows));
  }

  lemma FilterDelivers(k: Kernels, tables: Tables, p: Plan, q: PhysicalPlan, layout: seq<nat>, condition: Expr)
    requires Conforms(tables, p) && Delivers(k, tables, p, q, layout)
    requires Remap(condition, Boundary(q)).Some?
    ensures Delivers(k, tables, Filter(p, condition), FilterNode(q, Remap(condition, Boundary(q)).value), layout)
  {
    hide FilterRows, Remap, Fits;
    EvalPlanWidth(k, tables, p);
    FilterOfGathered(k, condition, Boundary(q), layout, Width(p), EvalPlan(k, tables, p), EvalPhysical(k, tables, q));
  }

  /** Re-indexed sort keys have on a gathered row the values of the originals on the full one. */
  lemma {:induction false} KeysOfGathered(k: Kernels, keys: seq<SortKey>, columnMap: ColumnMap, layout: seq<nat>, row: Row)
    requires Fits(columnMap, layout, |row|) && RemapKeys(keys, columnMap).Some?
    ensures SortValues(k, RemapKeys(keys, columnMap).value, Gather(layout, row)) == SortValues(k, keys, row)
  {
    if keys != [] {
      var rest := RemapKeys(keys[1..], columnMap).value;
      var first := SortKey(Remap(keys[0].expr, columnMap).value, keys[0].ascending);
      RemapPreserves(k, keys[0].expr, columnMap, layout, row);
      KeysOfGathered(k, keys[1..], columnMap, layout, row);
      assert keys == [keys[0]] + keys[1..];
      MapAppend((key: SortKey) => Eval(k, key.expr, row), [keys[0]], keys[1..]);
      MapAppend((key: SortKey) => Eval(k, key.expr, Gather(layout, row)), [first], rest);
    }
  }

  lemma {:induction false} DirectionsKept(keys: seq<SortKey>, columnMap: ColumnMap)
    requires RemapKeys(keys, columnMap).Some?
    ensures Directions(RemapKeys(keys, columnMap).value) == Directions(keys)
  {
    if keys != [] {
      var rest := RemapKeys(keys[1..], columnMap).value;
      var first := SortKey(Remap(keys[0].expr, columnMap).value, keys[0].ascending);
      DirectionsKept(keys[1..], columnMap);
      assert keys == [keys[0]] + keys[1..];
      MapAppend((key: SortKey) => key.ascending, [keys[0]], keys[1..]);
      MapAppend((key: SortKey) => key.ascending, [first], rest);
    }
  }

  lemma PermutedDelivers(k: Kernels, tables: Tables, p: Plan, q: PhysicalPlan, layout: seq<nat>,
                         keys: seq<SortKey>, keys': seq<SortKey>)
    requires Delivers(k, tables, p, q, layout)
    ensures Delivers(k, tables, Sort(p, keys), SortNode(q, keys'), layout)
  {
    hide SortRows;
    MapSameRows(row => Gather(layout, row), EvalPlan(k, tables, Sort(p, keys)), EvalPlan(k, tables, p));
  }

  /** A sorted block delivers the block's rows, and sorts them by the values of the original
      keys: each physical row has the key the logical row has. */
  lemma SortDelivers(k: Kernels, tables: Tables, p: Plan, q: PhysicalPlan, layout: seq<nat>, keys: seq<SortKey>)
    requires Conforms(tables, p) && Delivers(k, tables, p, q, layout) && RemapKeys(keys, Boundary(q)).Some?
    ensures Delivers(k, tables, Sort(p, keys), SortNode(q, RemapKeys(keys, Boundary(q)).value), layout)
    ensures Directions(RemapKeys(keys, Boundary(q)).value) == Directions(keys)
    ensures forall row :: row in EvalPlan(k, tables, p) ==>
      SortValues(k, RemapKeys(keys, Boundary(q)).value, Gather(layout, row)) == SortValues(k, keys, row)
  {
    hide SortRows, SortValues, EvalPlan, EvalPhysical, RemapKeys;
    var rows := EvalPlan(k, tables, p);
    PermutedDelivers(k, tables, p, q, layout, keys, RemapKeys(keys, Boundary(q)).value);
    DirectionsKept(keys, Boundary(q));
    EvalPlanWidth(k, tables, p);
    forall row | row in rows
      ensures SortValues(k, RemapKeys(keys, Boundary(q)).value, Gather(layout, row)) == SortValues(k, keys, row)
    {
      KeysOfGathered(k, keys, Boundary(q), layout, row);
    }
  }

  lemma JoinDelivers(k: Kernels, tables: Tables, p: Plan, estimates: Estimates, left: PhysicalPlan, right: PhysicalPlan,
                     a: seq<nat>, b: seq<nat>) returns (layout: seq<nat>)
    requires p.Join? && (p.residual.Some? ==> p.joinType.LeftSemi? || p.joinType.LeftAnti?) && Conforms(tables, p)
    requires Delivers(k, tables, p.left, left, a) && Delivers(k, tables, p.right, right, b)
    requires ConvertJoin(p, estimates, left, right).Some?
    ensures Delivers(k, tables, p, ConvertJoin(p, estimates, left, right).value, layout)
  {
    var q := ConvertJoin(p, estimates, left, right).value;
    var n := Width(p.left);
    var swap := SwapsSides(p.joinType, estimates, left, right);
    CombinedFits(p.joinType, swap, left, right, a, b, n, Width(p.right));
    if swap {
      layout := Shift(b, n) + a;
      SwappedJoin(k, tables, p, left, right, a, b, q);
    } else {
      layout := if p.joinType.LeftSemi? || p.joinType.LeftAnti? then a else a + Shift(b, n);
      UnswappedJoin(k, tables, p, left, right, a, b, q);
    }
  }

  /** A converted scan block produces the gathered rows of the logical one. */
  lemma {:induction false} BlockDelivers(k: Kernels, tables: Tables, p: Plan, estimates: Estimates)
    returns (layout: seq<nat>)
    requires ScanBlock(p) && LimitFree(p) && Conforms(tables, p) && Convert(p, estimates).Some?
    ensures Delivers(k, tables, p, Convert(p, estimates).value, layout)
  {
    match p
    case Scan(_, _, _, _) =>
      ScanFits(p);
      layout := ConvertScan(p).kept;
    case Join(l, r, _, _, _, _) =>
      var a := BlockDelivers(k, tables, l, estimates);
      var b := BlockDelivers(k, tables, r, estimates);
      layout := JoinDelivers(k, tables, p, estimates, Convert(l, estimates).value, Convert(r, estimates).value, a, b);
    case Filter(c, condition) =>
      layout := BlockDelivers(k, tables, c, estimates);
      ScanBlockReferences(c);
      FilterDelivers(k, tables, c, Convert(c, estimates).value, layout, condition);
    case Sort(c, keys) =>
      layout := BlockDelivers(k, tables, c, estimates);
      ScanBlockReferences(c);
      var q := Convert(c, estimates).value;
      SortDelivers(k, tables, c, q, layout, keys);
  }

  // ---------------------------------------------------------------------------
  // Projections, which are dropped when they change nothing
  // ---------------------------------------------------------------------------

  /** When the remapped projection is the identity, the original one just gathers. */
  lemma ElidedProjection(k: Kernels, items: seq<NamedExpr>, columnMap: ColumnMap, layout: seq<nat>,
                         names: seq<string>, row: Row)
    requires Fits(columnMap, layout, |row|) && |names| == |layout|
    requires RemapItems(items, columnMap).Some?
    requires IsIdentityProjection(RemapItems(items, columnMap).value, names)
    requires forall item :: item in items ==> ReadsTyped(item.expr, row)
    ensures EvalItems(k, items, row) == Gather(layout, row)
  {
    RemapItemsLength(items, columnMap);
    MapIndex((item: NamedExpr) => Eval(k, item.expr, row), items);
    GatherAt(layout, row);
    forall i | 0 <= i < |items| ensures EvalItems(k, items, row)[i] == Gather(layout, row)[i] {
      RemapItemsAt(items, columnMap, i);
      assert items[i] in items;
      var e := items[i].expr;
      assert e.Column?;
      assert columnMap[e.index] == Some(i);
    }
  }

  lemma ElidedRows(k: Kernels, items: seq<NamedExpr>, columnMap: ColumnMap, layout: seq<nat>,
                   names: seq<string>, n: nat, rows: seq<Row>)
    requires Fits(columnMap, layout, n) && AllWidth(rows, n) && |names| == |layout|
    requires RemapItems(items, columnMap).Some?
    requires IsIdentityProjection(RemapItems(items, columnMap).value, names) && ItemsReadTyped(items, rows)
    ensures ProjectRows(k, items, rows) == Map(row => Gather(layout, row), rows)
  {
    forall row | row in rows ensures EvalItems(k, items, row) == Gather(layout, row) {
      ElidedProjection(k, items, columnMap, layout, names, row);
    }
    MapExt(row => EvalItems(k, items, row), row => Gather(layout, row), rows);
  }

  lemma ElidedOnTop(k: Kernels, items: seq<NamedExpr>, names: seq<string>, row: Row)
    requires IsIdentityProjection(items, names) && |names| == |row|
    requires forall item :: item in items ==> ReadsTyped(item.expr, row)
    ensures EvalItems(k, items, row) == row
  {
    MapIndex((item: NamedExpr) => Eval(k, item.expr, row), items);
    forall i | 0 <= i < |items| ensures EvalItems(k, items, row)[i] == row[i] {
      assert items[i] in items;
    }
  }

  lemma MapId(f: Row -> Row, rows: seq<Row>)
    requires forall row :: row in rows ==> f(row) == row
    ensures Map(f, rows) == rows
  {
    MapIndex(f, rows);
  }

  // ---------------------------------------------------------------------------
  // Whole blocks
  // ---------------------------------------------------------------------------

  /** The physical rows are the logical rows, as a multiset. */
  ghost predicate Realizes(k: Kernels, tables: Tables, p: Plan, q: PhysicalPlan)
  {
    && |OutputNames(q)| == Width(p)
    && SameRows(EvalPhysical(k, tables, q), EvalPlan(k, tables, p))
  }

  lemma ProjectRealizes(k: Kernels, tables: Tables, c: Plan, q: PhysicalPlan, items: seq<NamedExpr>,
                        items': seq<NamedExpr>)
    requires |items'| == |items|
    requires SameRows(ProjectRows(k, items', EvalPhysical(k, tables, q)), ProjectRows(k, items, EvalPlan(k, tables, c)))
    ensures Realizes(k, tables, Project(c, items), ProjectionNode(q, items'))
  {
    hide ProjectRows, SameRows, ItemNames;
    OutputWidths(items', []);
  }

  lemma ElidedRealizes(k: Kernels, tables: Tables, c: Plan, q: PhysicalPlan, items: seq<NamedExpr>)
    requires |OutputNames(q)| == |items|
    requires SameRows(EvalPhysical(k, tables, q), ProjectRows(k, items, EvalPlan(k, tables, c)))
    ensures Realizes(k, tables, Project(c, items), q)
  {
    hide ProjectRows;
  }

  lemma ProjectOverBlock(k: Kernels, tables: Tables, c: Plan, q: PhysicalPlan, layout: seq<nat>, items: seq<NamedExpr>)
    requires Conforms(tables, c) && Delivers(k, tables, c, q, layout)
    requires RemapItems(items, Boundary(q)).Some? && ItemsReadTyped(items, EvalPlan(k, tables, c))
    ensures Realizes(k, tables, Project(c, items), ProjectionOrChild(q, RemapItems(items, Boundary(q)).value))
  {
    hide EvalPlan, EvalPhysical, RemapItems, Realizes, Boundary, OutputNames;
    var items' := RemapItems(items, Boundary(q)).value;
    var rows, rows' := EvalPlan(k, tables, c), EvalPhysical(k, tables, q);
    RemapItemsLength(items, Boundary(q));
    EvalPlanWidth(k, tables, c);
    if IsIdentityProjection(items', OutputNames(q)) {
      ElidedRows(k, items, Boundary(q), layout, OutputNames(q), Width(c), rows);
      ElidedRealizes(k, tables, c, q, items);
    } else {
      ProjectOfGathered(k, items, Boundary(q), layout, Width(c), rows);
      MapSameRows(row => EvalItems(k, items', row), rows', Map(row => Gather(layout, row), rows));
      ProjectRealizes(k, tables, c, q, items, items');
    }
  }

  lemma ProjectOnTop(k: Kernels, tables: Tables, c: Plan, q: PhysicalPlan, items: seq<NamedExpr>)
    requires Conforms(tables, c) && Realizes(k, tables, c, q) && ItemsReadTyped(items, EvalPlan(k, tables, c))
    ensures Realizes(k, tables, Project(c, items), ProjectionOrChild(q, items))
  {
    hide EvalPlan, EvalPhysical, OutputNames;
    var rows := EvalPlan(k, tables, c);
    EvalPlanWidth(k, tables, c);
    if IsIdentityProjection(items, OutputNames(q)) {
      forall row | row in rows ensures EvalItems(k, items, row) == row {
        ElidedOnTop(k, items, OutputNames(q), row);
      }
      MapId(row => EvalItems(k, items, row), rows);
      ElidedRealizes(k, tables, c, q, items);
    } else {
      MapSameRows(row => EvalItems(k, items, row), EvalPhysical(k, tables, q), rows);
      ProjectRealizes(k, tables, c, q, items, items);
    }
  }

  lemma GroupRealizes(k: Kernels, tables: Tables, c: Plan, q: PhysicalPlan, groupBy: seq<NamedExpr>,
                      calls: seq<AggregateCall>, groupBy': seq<NamedExpr>, calls': seq<AggregateCall>)
    requires |groupBy'| == |groupBy| && |calls'| == |calls|
    requires SameRows(GroupRows(k, groupBy', calls', EvalPhysical(k, tables, q)),
                      GroupRows(k, groupBy, calls, EvalPlan(k, tables, c)))
    ensures Realizes(k, tables, Group(c, groupBy, calls), AggregateNode(q, groupBy', calls'))
  {
    hide GroupRows, SameRows, ItemNames, CallNames;
    OutputWidths(groupBy', calls');
    assert EvalPlan(k, tables, Group(c, groupBy, calls)) == GroupRows(k, groupBy, calls, EvalPlan(k, tables, c));
  }

  lemma GroupOverBlock(k: Kernels, tables: Tables, c: Plan, q: PhysicalPlan, layout: seq<nat>,
                       groupBy: seq<NamedExpr>, calls: seq<AggregateCall>)
    requires Conforms(tables, c) && Delivers(k, tables, c, q, layout)
    requires RemapItems(groupBy, Boundary(q)).Some? && RemapCalls(calls, Boundary(q)).Some?
    ensures Realizes(k, tables, Group(c, groupBy, calls),
                     AggregateNode(q, RemapItems(groupBy, Boundary(q)).value, RemapCalls(calls, Boundary(q)).value))
  {
    var rows := EvalPlan(k, tables, c);
    var groupBy', calls' := RemapItems(groupBy, Boundary(q)).value, RemapCalls(calls, Boundary(q)).value;
    RemapItemsLength(groupBy, Boundary(q));
    RemapCallsNames(calls, Boundary(q));
    EvalPlanWidth(k, tables, c);
    GroupOfGathered(k, groupBy, calls, Boundary(q), layout, Width(c), rows);
    GroupSameRows(k, groupBy', calls', EvalPhysical(k, tables, q), Map(row => Gather(layout, row), rows));
    GroupRealizes(k, tables, c, q, groupBy, calls, groupBy', calls');
  }

  lemma GroupOnTop(k: Kernels, tables: Tables, c: Plan, q: PhysicalPlan,
                   groupBy: seq<NamedExpr>, calls: seq<AggregateCall>)
    requires Realizes(k, tables, c, q)
    ensures Realizes(k, tables, Group(c, groupBy, calls), AggregateNode(q, groupBy, calls))
  {
    GroupSameRows(k, groupBy, calls, EvalPhysical(k, tables, q), EvalPlan(k, tables, c));
    GroupRealizes(k, tables, c, q, groupBy, calls, groupBy, calls);
  }

  lemma FilterOnTop(k: Kernels, tables: Tables, c: Plan, q: PhysicalPlan, condition: Expr)
    requires Realizes(k, tables, c, q)
    ensures Realizes(k, tables, Filter(c, condition), FilterNode(q, condition))
  {
    SelectSameRows(row => Holds(k, condition, row), EvalPhysical(k, tables, q), EvalPlan(k, tables, c));
  }

  lemma SortOnTop(k: Kernels, tables: Tables, c: Plan, q: PhysicalPlan, keys: seq<SortKey>)
    requires Realizes(k, tables, c, q)
    ensures Realizes(k, tables, Sort(c, keys), SortNode(q, keys))
  {
    hide SortRows;
  }

  /** Physical planning keeps the rows of every limit-free query block that reads its derived
      tables right, whatever the size estimates that decide which side of a join is built. */
  lemma {:induction false} ConvertPreserves(k: Kernels, tables: Tables, p: Plan, estimates: Estimates)
    requires SingleBlock(p) && !ScanBlock(p) && LimitFree(p) && Conforms(tables, p)
    requires PlanReadsTyped(k, tables, p) && Convert(p, estimates).Some? && Resolves(p, estimates)
    ensures Realizes(k, tables, p, Convert(p, estimates).value)
  {
    hide EvalPlan, EvalPhysical, Realizes, Boundary, OutputNames, IsIdentityProjection, RemapItems, RemapCalls, RemapKeys, Remap,
      ChildResolves, ReferencesScanSchema;
    var q := Convert(p.child, estimates).value;
    if ScanBlock(p.child) {
      ScanBlockReferences(p.child);
      var layout := BlockDelivers(k, tables, p.child, estimates);
      match p
      case Project(c, items) => ProjectOverBlock(k, tables, c, q, layout, items);
      case Group(c, groupBy, calls) => GroupOverBlock(k, tables, c, q, layout, groupBy, calls);
    } else {
      ConvertPreserves(k, tables, p.child, estimates);
      ReadsAsWritten(p, estimates);
      match p
      case Filter(c, condition) => FilterOnTop(k, tables, c, q, condition);
      case Project(c, items) => ProjectOnTop(k, tables, c, q, items);
      case Group(c, groupBy, calls) => GroupOnTop(k, tables, c, q, groupBy, calls);
      case Sort(c, keys) => SortOnTop(k, tables, c, q, keys);
    }
  }
}
