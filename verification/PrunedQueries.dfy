/** Row-group pruning inside whole queries. Each scan reads only the row groups that the
predicates attached to it do not rule out, and the rows of the query stay the same. */
module PrunedQueries {
  import opened Expressions
  import opened Relational
  import opened Distinctness
  import opened Aggregation
  import opened JoinSemantics
  import opened LogicalPlans
  import opened SortOrder
  import opened PhysicalPlanner
  import opened BlockShapes
  import opened SingleBlocks
  import opened RequiredColumns
  import opened ParquetPruning
  import opened PushedPredicates

  // ---------------------------------------------------------------------------
  // Grouping by a key that is filtered
  // ---------------------------------------------------------------------------

  /** The groups whose key passes are the groups of the rows whose key passes. */
  lemma GroupOfSelected(k: Kernels, groupBy: seq<NamedExpr>, calls: seq<AggregateCall>, rows: seq<Row>, pass: Row -> bool,
                        onRow: Row -> bool, onGroup: Row -> bool)
    requires groupBy != []
    requires forall row :: onRow(row) == pass(EvalItems(k, groupBy, row))
    requires forall key, rest :: |key| == |groupBy| ==> onGroup(key + rest) == pass(key)
    ensures Select(onGroup, GroupRows(k, groupBy, calls, rows)) == GroupRows(k, groupBy, calls, Select(onRow, rows))
  {
    var all, kept := ProjectRows(k, groupBy, rows), Select(onRow, rows);
    var keys := Select(k.groupKept, Distinct(all));
    var f := (key: Row) => key + CallResults(k, calls, GroupMembers(k, groupBy, rows, key));
    var f' := (key: Row) => key + CallResults(k, calls, GroupMembers(k, groupBy, kept, key));
    SelectOfMap(pass, row => EvalItems(k, groupBy, row), onRow, rows);
    DistinctOfSelected(pass, all);
    SelectCommute(pass, k.groupKept, Distinct(all));
    assert GroupRows(k, groupBy, calls, kept) == Map(f', Select(pass, keys));
    KeysWide(k, groupBy, rows);
    forall key | key in keys ensures onGroup(f(key)) == pass(key) {
    }
    SelectOfMap(onGroup, f, pass, keys);
    forall key | key in Select(pass, keys) ensures f(key) == f'(key) {
      SelectMember(pass, keys, key);
      SelectSelect(row => EvalItems(k, groupBy, row) == key, onRow, row => EvalItems(k, groupBy, row) == key, rows);
    }
    MapExt(f, f', Select(pass, keys));
  }

  lemma KeysWide(k: Kernels, groupBy: seq<NamedExpr>, rows: seq<Row>)
    ensures forall key :: key in Select(k.groupKept, Distinct(ProjectRows(k, groupBy, rows))) ==> |key| == |groupBy|
  {
    var all := ProjectRows(k, groupBy, rows);
    ProjectRowsWidth(k, groupBy, rows);
    forall key | key in Select(k.groupKept, Distinct(all)) ensures |key| == |groupBy| {
      SelectMember(k.groupKept, Distinct(all), key);
      DistinctMember(all, key);
    }
  }

  // ---------------------------------------------------------------------------
  // Rows hold copies of what is stored
  // ---------------------------------------------------------------------------

  ghost predicate Stores(tables: Tables, store: Store)
  {
    forall table, pushable, row :: row in tables(table, pushable) ==>
      exists g :: g in store.file(table) && row in store.data(g)
  }

  lemma ReadingsStore(store: Store)
    ensures Stores(Whole(store), store) && Stores(Pruned(store), store)
  {
    forall table, pushable, row | row in Whole(store)(table, pushable) || row in Pruned(store)(table, pushable)
      ensures exists g :: g in store.file(table) && row in store.data(g)
    {
      var file := store.file(table);
      if row in Whole(store)(table, pushable) {
        FlatMapMember(store.data, file, row);
      } else {
        assert row in FlatMap(store.data, SelectedGroups(file, pushable));
        FlatMapMember(store.data, SelectedGroups(file, pushable), row);
        var g :| g in SelectedGroups(file, pushable) && row in store.data(g);
        SelectMember((g: RowGroup) => !Skippable(g, pushable), file, g);
      }
    }
  }

  lemma {:induction false} RowsCopy(k: Kernels, store: Store, tables: Tables, p: Plan, row: Row)
    requires Stores(tables, store) && row in EvalPlan(k, tables, p)
    ensures Copies(store, ScanBelow(p), Carried(p), row)
  {
    match p
    case Scan(table, _, _, pushable) =>
      var g :| g in store.file(table) && row in store.data(g);
      StoredCopies(store, p, g, row);
    case Filter(c, condition) =>
      SelectMember(r => Holds(k, condition, r), EvalPlan(k, tables, c), row);
      RowsCopy(k, store, tables, c, row);
    case Sort(c, keys) =>
      SameRowsMembers(EvalPlan(k, tables, p), EvalPlan(k, tables, c));
      RowsCopy(k, store, tables, c, row);
    case Project(c, items) =>
      MapMember(r => EvalItems(k, items, r), EvalPlan(k, tables, c), row);
      var r :| r in EvalPlan(k, tables, c) && row == EvalItems(k, items, r);
      RowsCopy(k, store, tables, c, r);
      CopiesAbove(k, store, ScanBelow(p), items, Carried(c), r);
    case Group(c, groupBy, calls) =>
      if groupBy != [] {
        var r, results := GroupRowKey(k, groupBy, calls, EvalPlan(k, tables, c), row);
        RowsCopy(k, store, tables, c, r);
        CopiesAbove(k, store, ScanBelow(p), groupBy, Carried(c), r);
        CopiesExtended(store, ScanBelow(p), Carried(p), EvalItems(k, groupBy, r), results);
      } else {
        assert Carried(p) == [];
      }
    case _ =>
  }

  lemma CopiesExtended(store: Store, scan: Option<Source>, names: seq<Option<string>>, key: Row, results: Row)
    requires Copies(store, scan, names, key) && |names| <= |key|
    ensures Copies(store, scan, names, key + results)
  {
  }

  /** A row of a grouping is the key of one of the grouped rows, and results. */
  lemma GroupRowKey(k: Kernels, groupBy: seq<NamedExpr>, calls: seq<AggregateCall>, rows: seq<Row>, out: Row)
    returns (row: Row, results: Row)
    requires groupBy != [] && out in GroupRows(k, groupBy, calls, rows)
    ensures row in rows && out == EvalItems(k, groupBy, row) + results
    ensures |EvalItems(k, groupBy, row)| == |groupBy| && forall names :: |CopiesOf(groupBy, names)| == |groupBy|
  {
    var all := ProjectRows(k, groupBy, rows);
    var keys := Select(k.groupKept, Distinct(all));
    var f := (key: Row) => key + CallResults(k, calls, GroupMembers(k, groupBy, rows, key));
    MapMember(f, keys, out);
    var key :| key in keys && out == f(key);
    SelectMember(k.groupKept, Distinct(all), key);
    DistinctMember(all, key);
    MapMember(r => EvalItems(k, groupBy, r), rows, key);
    row :| row in rows && key == EvalItems(k, groupBy, row);
    results := CallResults(k, calls, GroupMembers(k, groupBy, rows, key));
    MapIndex((item: NamedExpr) => Eval(k, item.expr, row), groupBy);
    forall names ensures |CopiesOf(groupBy, names)| == |groupBy| {
      MapIndex((item: NamedExpr) => CopyOf(item.expr, names), groupBy);
    }
  }

  // ---------------------------------------------------------------------------
  // Whole plans
  // ---------------------------------------------------------------------------

  /** The scans of `p` carry the predicates that push-down forwards to them. */
  predicate Attached(p: Plan, pushable: seq<PushablePredicate>)
  {
    match p
    case Scan(_, _, _, attached) => attached == pushable
    case Filter(c, _) => Attached(c, Forwarded(p, pushable))
    case Project(c, _) => Attached(c, pushable)
    case Group(c, _, _) => Attached(c, pushable)
    case Sort(c, _) => Attached(c, pushable)
    case Limit(c, _) => Attached(c, pushable)
    case Join(l, r, _, _, _, _) => Attached(l, []) && Attached(r, [])
  }

  lemma {:induction false} AnnotateAttaches(p: Plan, required: set<nat>, pushable: seq<PushablePredicate>)
    requires Annotate(p, required, pushable).Some?
    ensures Attached(Annotate(p, required, pushable).value, pushable)
  {
    match p
    case Scan(_, _, _, _) =>
    case Join(l, r, leftKey, rightKey, _, residual) =>
      var all := required + ResidualColumns(residual);
      AnnotateAttaches(l, LeftPart(all, Width(l)) + {leftKey}, []);
      AnnotateAttaches(r, RightPart(all, Width(l)) + {rightKey}, []);
    case _ =>
      AnnotateStep(p, required, pushable);
      AnnotateAttaches(p.child, Demand(p, required), Forwarded(p, pushable));
      AnnotateBare(p.child, Demand(p, required), Forwarded(p, pushable));
  }

  /** Some forwarded predicate is on a column of the scan. */
  ghost predicate Live(scan: Option<Source>, pushable: seq<PushablePredicate>)
  {
    exists q :: q in pushable && IsField(scan, q.column)
  }

  /** Sorting commutes with leaving rows out, as it does when it is stable. */
  ghost predicate SortCommutes(k: Kernels)
  {
    forall keys, rows, test: Row -> bool :: Select(test, SortRows(k, keys, rows)) == SortRows(k, keys, Select(test, rows))
  }

  /** No predicate on a scan column passes a sort, or sorting commutes with leaving rows out. */
  ghost predicate Exact(k: Kernels, p: Plan, pushable: seq<PushablePredicate>)
  {
    match p
    case Scan(_, _, _, _) => true
    case Filter(c, _) => Exact(k, c, Forwarded(p, pushable))
    case Project(c, _) => Exact(k, c, pushable)
    case Group(c, _, _) => Exact(k, c, pushable)
    case Sort(c, _) => (SortCommutes(k) || !Live(ScanBelow(c), pushable)) && Exact(k, c, pushable)
    case Limit(c, _) => Exact(k, c, pushable)
    case Join(l, r, _, _, _, _) => Exact(k, l, []) && Exact(k, r, [])
  }

  /** The same below every LIMIT. */
  ghost predicate Steady(k: Kernels, p: Plan, pushable: seq<PushablePredicate>)
  {
    match p
    case Scan(_, _, _, _) => true
    case Filter(c, _) => Steady(k, c, Forwarded(p, pushable))
    case Project(c, _) => Steady(k, c, pushable)
    case Group(c, _, _) => Steady(k, c, pushable)
    case Sort(c, _) => Steady(k, c, pushable)
    case Limit(c, _) => Exact(k, c, pushable)
    case Join(l, r, _, _, _, _) => Steady(k, l, []) && Steady(k, r, [])
  }

  /** Equal as sequences, or at least as multisets. */
  ghost predicate Same(exact: bool, rows: seq<Row>, rows': seq<Row>)
  {
    if exact then rows == rows' else SameRows(rows, rows')
  }

  ghost predicate Agree(exact: bool, test: Row -> bool, rows: seq<Row>, rows': seq<Row>)
  {
    Same(exact, Select(test, rows), Select(test, rows'))
  }

  function Always(): Row -> bool { (row: Row) => true }

  lemma Everything(exact: bool, rows: seq<Row>, rows': seq<Row>)
    requires Agree(exact, Always(), rows, rows')
    ensures Same(exact, rows, rows')
  {
    SelectAll(Always(), rows);
    SelectAll(Always(), rows');
  }

  lemma Selected(exact: bool, test: Row -> bool, rows: seq<Row>, rows': seq<Row>)
    requires Same(exact, rows, rows')
    ensures Agree(exact, test, rows, rows')
  {
    if !exact { SelectSameRows(test, rows, rows'); }
  }

  lemma NothingPasses(exact: bool, test: Row -> bool, rows: seq<Row>, rows': seq<Row>)
    requires forall row :: row in rows || row in rows' ==> !test(row)
    ensures Agree(exact, test, rows, rows')
  {
    SelectNone(test, rows);
    SelectNone(test, rows');
  }

  lemma AgreeFiltered(exact: bool, k: Kernels, condition: Expr, test: Row -> bool, test': Row -> bool, rows: seq<Row>,
                      rows': seq<Row>)
    requires forall row :: test'(row) == (test(row) && Holds(k, condition, row))
    requires Agree(exact, test', rows, rows')
    ensures Agree(exact, test, FilterRows(k, condition, rows), FilterRows(k, condition, rows'))
  {
    SelectSelect(test, row => Holds(k, condition, row), test', rows);
    SelectSelect(test, row => Holds(k, condition, row), test', rows');
  }

  lemma AgreeProjected(exact: bool, k: Kernels, items: seq<NamedExpr>, test: Row -> bool, test': Row -> bool,
                       rows: seq<Row>, rows': seq<Row>)
    requires forall row :: test'(row) == test(EvalItems(k, items, row))
    requires Agree(exact, test', rows, rows')
    ensures Agree(exact, test, ProjectRows(k, items, rows), ProjectRows(k, items, rows'))
  {
    SelectOfMap(test, row => EvalItems(k, items, row), test', rows);
    SelectOfMap(test, row => EvalItems(k, items, row), test', rows');
    if !exact { MapSameRows(row => EvalItems(k, items, row), Select(test', rows), Select(test', rows')); }
  }

  lemma AgreeSorted(exact: bool, k: Kernels, keys: seq<SortKey>, test: Row -> bool, rows: seq<Row>, rows': seq<Row>)
    requires Agree(exact, test, rows, rows') && (exact ==> SortCommutes(k))
    ensures Agree(exact, test, SortRows(k, keys, rows), SortRows(k, keys, rows'))
  {
    hide SortRows;
    if exact {
      assert Select(test, SortRows(k, keys, rows)) == SortRows(k, keys, Select(test, rows));
      assert Select(test, SortRows(k, keys, rows')) == SortRows(k, keys, Select(test, rows'));
    } else {
      SelectSameRows(test, SortRows(k, keys, rows), rows);
      SelectSameRows(test, SortRows(k, keys, rows'), rows');
    }
  }

  lemma SameGroups(exact: bool, k: Kernels, groupBy: seq<NamedExpr>, calls: seq<AggregateCall>, rows: seq<Row>,
                   rows': seq<Row>)
    requires Same(exact, rows, rows')
    ensures Same(exact, GroupRows(k, groupBy, calls, rows), GroupRows(k, groupBy, calls, rows'))
  {
    hide GroupRows;
    if !exact { GroupSameRows(k, groupBy, calls, rows, rows'); }
  }

  /** Groups that pass `test` all have keys that pass `onGroup`, so only rows with such keys matter. */
  lemma AgreeGrouped(exact: bool, k: Kernels, groupBy: seq<NamedExpr>, calls: seq<AggregateCall>, test: Row -> bool,
                     pass: Row -> bool, onRow: Row -> bool, onGroup: Row -> bool, rows: seq<Row>, rows': seq<Row>)
    requires groupBy != [] && Agree(exact, onRow, rows, rows')
    requires forall row :: onRow(row) == pass(EvalItems(k, groupBy, row))
    requires forall key, rest :: |key| == |groupBy| ==> onGroup(key + rest) == pass(key)
    requires forall out :: out in GroupRows(k, groupBy, calls, rows) && test(out) ==> onGroup(out)
    requires forall out :: out in GroupRows(k, groupBy, calls, rows') && test(out) ==> onGroup(out)
    ensures Agree(exact, test, GroupRows(k, groupBy, calls, rows), GroupRows(k, groupBy, calls, rows'))
  {
    hide GroupRows;
    GroupOfSelected(k, groupBy, calls, rows, pass, onRow, onGroup);
    GroupOfSelected(k, groupBy, calls, rows', pass, onRow, onGroup);
    var groups, groups' := GroupRows(k, groupBy, calls, rows), GroupRows(k, groupBy, calls, rows');
    OnlyThose(test, onGroup, groups);
    OnlyThose(test, onGroup, groups');
    SameGroups(exact, k, groupBy, calls, Select(onRow, rows), Select(onRow, rows'));
    Selected(exact, test, Select(onGroup, groups), Select(onGroup, groups'));
  }

  lemma OnlyThose(test: Row -> bool, wider: Row -> bool, rows: seq<Row>)
    requires forall row :: row in rows && test(row) ==> wider(row)
    ensures Select(test, rows) == Select(test, Select(wider, rows))
  {
    var both := (row: Row) => test(row) && wider(row);
    SelectSelect(test, wider, both, rows);
    SelectExt(test, both, rows);
  }

  lemma ExplainsNothing(k: Kernels, store: Store, scan: Option<Source>, names: seq<Option<string>>, test: Row -> bool,
                        pushable: seq<PushablePredicate>)
    requires !Live(scan, pushable)
    ensures Explains(k, store, scan, names, test, pushable)
  {
  }

  /** A key that meets the forwarded predicates, and the rows and groups with such a key. */
  ghost function KeyMeets(k: Kernels, p: Plan, pushable: seq<PushablePredicate>): Row -> bool
    requires p.Group?
  {
    (key: Row) => forall q :: q in pushable && IsField(ScanBelow(p), q.column) ==> Meets(k, Carried(p), key, q)
  }

  ghost function RowMeets(k: Kernels, p: Plan, pushable: seq<PushablePredicate>): Row -> bool
    requires p.Group?
  {
    (row: Row) => KeyMeets(k, p, pushable)(EvalItems(k, p.groupBy, row))
  }

  ghost function GroupMeets(k: Kernels, p: Plan, pushable: seq<PushablePredicate>): Row -> bool
    requires p.Group?
  {
    (row: Row) => |p.groupBy| <= |row| && KeyMeets(k, p, pushable)(row[..|p.groupBy|])
  }

  lemma GroupMeetsKey(k: Kernels, p: Plan, pushable: seq<PushablePredicate>)
    requires p.Group?
    ensures forall key, rest :: |key| == |p.groupBy| ==>
      GroupMeets(k, p, pushable)(key + rest) == KeyMeets(k, p, pushable)(key)
  {
    forall key, rest | |key| == |p.groupBy|
      ensures GroupMeets(k, p, pushable)(key + rest) == KeyMeets(k, p, pushable)(key)
    {
      assert (key + rest)[..|p.groupBy|] == key;
    }
  }

  lemma MetInKey(k: Kernels, names: seq<Option<string>>, row: Row, q: PushablePredicate)
    requires Meets(k, names, row, q) && |names| <= |row|
    ensures Meets(k, names, row[..|names|], q)
  {
    var v :| ReadsCopy(names, row, q.column, v) && EvalBinary(k, q.op, v, q.literal, Boolean) == Bool(true);
    var i :| 0 <= i < |names| && i < |row| && names[i] == Some(q.column) && row[i] == v;
    assert row[..|names|][i] == v;
    assert ReadsCopy(names, row[..|names|], q.column, v);
  }

  /** A group that passes `test` has a key that meets the forwarded predicates. */
  lemma PassingGroups(k: Kernels, store: Store, tables: Tables, p: Plan, pushable: seq<PushablePredicate>, test: Row -> bool,
                      out: Row)
    requires p.Group? && p.groupBy != [] && Stores(tables, store) && out in EvalPlan(k, tables, p) && test(out)
    requires Explains(k, store, ScanBelow(p), Carried(p), test, pushable)
    ensures GroupMeets(k, p, pushable)(out)
  {
    hide Meets, Copies, Explains, GroupRows, CopiesOf, KeyMeets;
    RowsCopy(k, store, tables, p, out);
    var r, results := GroupRowKey(k, p.groupBy, p.calls, EvalPlan(k, tables, p.child), out);
    KeyOfPassing(k, store, p, pushable, test, out);
  }

  lemma KeyOfPassing(k: Kernels, store: Store, p: Plan, pushable: seq<PushablePredicate>, test: Row -> bool, out: Row)
    requires p.Group? && test(out) && Explains(k, store, ScanBelow(p), Carried(p), test, pushable)
    requires Copies(store, ScanBelow(p), Carried(p), out) && |Carried(p)| == |p.groupBy| <= |out|
    ensures KeyMeets(k, p, pushable)(out[..|p.groupBy|])
  {
    hide Meets, Precise, Copies;
    forall q | q in pushable && IsField(ScanBelow(p), q.column) ensures Meets(k, Carried(p), out[..|p.groupBy|], q) {
      MetInKey(k, Carried(p), out, q);
    }
  }

  /** Rows with such a key meet the predicates themselves. */
  lemma KeyExplains(k: Kernels, store: Store, p: Plan, pushable: seq<PushablePredicate>, test: Row -> bool)
    requires p.Group? && Explains(k, store, ScanBelow(p), Carried(p), test, pushable)
    ensures Explains(k, store, ScanBelow(p), Carried(p.child), RowMeets(k, p, pushable), pushable)
  {
    hide Meets, Precise, Copies, CopiesOf;
    forall row, q | RowMeets(k, p, pushable)(row) && q in pushable && IsField(ScanBelow(p), q.column)
      ensures Meets(k, Carried(p.child), row, q)
    {
      KeyMeetsEach(k, p, pushable, EvalItems(k, p.groupBy, row), q);
      MetBelow(k, p.groupBy, Carried(p.child), row, q);
    }
  }

  lemma KeyMeetsEach(k: Kernels, p: Plan, pushable: seq<PushablePredicate>, key: Row, q: PushablePredicate)
    requires p.Group? && KeyMeets(k, p, pushable)(key) && q in pushable && IsField(ScanBelow(p), q.column)
    ensures Meets(k, CopiesOf(p.groupBy, Carried(p.child)), key, q)
  {
  }

  lemma GroupPruned(exact: bool, k: Kernels, store: Store, p: Plan, pushable: seq<PushablePredicate>, test: Row -> bool)
    requires p.Group? && p.groupBy != [] && Explains(k, store, ScanBelow(p), Carried(p), test, pushable)
    requires Agree(exact, RowMeets(k, p, pushable), EvalPlan(k, Pruned(store), p.child), EvalPlan(k, Whole(store), p.child))
    ensures Agree(exact, test, EvalPlan(k, Pruned(store), p), EvalPlan(k, Whole(store), p))
  {
    hide Explains, GroupRows, Pruned, Whole, KeyMeets, GroupMeets;
    ReadingsStore(store);
    GroupMeetsKey(k, p, pushable);
    forall out | out in EvalPlan(k, Pruned(store), p) && test(out) ensures GroupMeets(k, p, pushable)(out) {
      PassingGroups(k, store, Pruned(store), p, pushable, test, out);
    }
    forall out | out in EvalPlan(k, Whole(store), p) && test(out) ensures GroupMeets(k, p, pushable)(out) {
      PassingGroups(k, store, Whole(store), p, pushable, test, out);
    }
    AgreeGrouped(exact, k, p.groupBy, p.calls, test, KeyMeets(k, p, pushable), RowMeets(k, p, pushable),
                 GroupMeets(k, p, pushable), EvalPlan(k, Pruned(store), p.child), EvalPlan(k, Whole(store), p.child));
  }

  lemma NoneMeets(k: Kernels, row: Row, q: PushablePredicate)
    ensures !Meets(k, [], row, q)
  {
  }

  /** Where no column is carried, a live predicate leaves nothing that could pass. */
  lemma NothingCarried(exact: bool, k: Kernels, store: Store, p: Plan, pushable: seq<PushablePredicate>, test: Row -> bool,
                       rows: seq<Row>, rows': seq<Row>)
    requires Carried(p) == [] && Live(ScanBelow(p), pushable)
    requires Explains(k, store, ScanBelow(p), Carried(p), test, pushable)
    ensures Agree(exact, test, rows, rows')
  {
    hide Carried;
    var q :| q in pushable && IsField(ScanBelow(p), q.column);
    forall row ensures !test(row) {
      NoneMeets(k, row, q);
      assert Copies(store, ScanBelow(p), Carried(p), row);
    }
    NothingPasses(exact, test, rows, rows');
  }

  /** Rows that pass what stands above a node are the same with and without pruning below it. */
  lemma {:induction false} PrunedRows(exact: bool, k: Kernels, store: Store, p: Plan, pushable: seq<PushablePredicate>,
                                      test: Row -> bool)
    requires IeeeConversion(k) && Attached(p, pushable) && Resolvable(k, store, p) && Truthful(store, p)
    requires if exact then Exact(k, p, pushable) else Steady(k, p, pushable)
    requires Explains(k, store, ScanBelow(p), Carried(p), test, pushable)
    ensures Agree(exact, test, EvalPlan(k, Pruned(store), p), EvalPlan(k, Whole(store), p))
    decreases p, 0
  {
    hide Explains, Agree, Pushes, IeeeConversion, FilterRows, ProjectRows, SortRows, GroupRows, JoinRows, TakeRows, Pruned,
      Whole, Live, IsField, RowMeets, Always;
    match p
    case Scan(_, _, _, _) => LeafAgrees(exact, k, store, p, test);
    case Filter(c, condition) =>
      var test' := (row: Row) => test(row) && Holds(k, condition, row);
      FilterExplains(k, store, p, test, pushable, test');
      PrunedRows(exact, k, store, c, Forwarded(p, pushable), test');
      AgreeFiltered(exact, k, condition, test, test', EvalPlan(k, Pruned(store), c), EvalPlan(k, Whole(store), c));
    case Project(c, items) =>
      var test' := (row: Row) => test(EvalItems(k, items, row));
      ProjectExplains(k, store, p, test, pushable, test');
      PrunedRows(exact, k, store, c, pushable, test');
      AgreeProjected(exact, k, items, test, test', EvalPlan(k, Pruned(store), c), EvalPlan(k, Whole(store), c));
    case Sort(c, keys) =>
      if exact && !SortCommutes(k) {
        PrunedWhole(true, k, store, c, pushable);
        Selected(true, test, EvalPlan(k, Pruned(store), p), EvalPlan(k, Whole(store), p));
      } else {
        PrunedRows(exact, k, store, c, pushable, test);
        AgreeSorted(exact, k, keys, test, EvalPlan(k, Pruned(store), c), EvalPlan(k, Whole(store), c));
      }
    case Group(c, groupBy, calls) =>
      if !Live(ScanBelow(c), pushable) {
        PrunedWhole(exact, k, store, c, pushable);
        SameGroups(exact, k, groupBy, calls, EvalPlan(k, Pruned(store), c), EvalPlan(k, Whole(store), c));
        Selected(exact, test, EvalPlan(k, Pruned(store), p), EvalPlan(k, Whole(store), p));
      } else if groupBy == [] {
        assert Carried(p) == [];
        NothingCarried(exact, k, store, p, pushable, test, EvalPlan(k, Pruned(store), p), EvalPlan(k, Whole(store), p));
      } else {
        KeyExplains(k, store, p, pushable, test);
        PrunedRows(exact, k, store, c, pushable, RowMeets(k, p, pushable));
        GroupPruned(exact, k, store, p, pushable, test);
      }
    case Limit(c, n) =>
      if Live(ScanBelow(c), pushable) {
        NothingCarried(exact, k, store, p, pushable, test, EvalPlan(k, Pruned(store), p), EvalPlan(k, Whole(store), p));
      } else {
        PrunedWhole(true, k, store, c, pushable);
        EqualAgree(exact, test, EvalPlan(k, Pruned(store), p), EvalPlan(k, Whole(store), p));
      }
    case Join(l, r, _, _, _, _) =>
      NothingLive(ScanBelow(l));
      NothingLive(ScanBelow(r));
      PrunedWhole(exact, k, store, l, []);
      PrunedWhole(exact, k, store, r, []);
      SameJoined(exact, k, SpecOf(p), EvalPlan(k, Pruned(store), l), EvalPlan(k, Whole(store), l),
                 EvalPlan(k, Pruned(store), r), EvalPlan(k, Whole(store), r));
      Selected(exact, test, EvalPlan(k, Pruned(store), p), EvalPlan(k, Whole(store), p));
  }

  /** Below a node that no predicate on a scan column passes, all rows are the same. */
  lemma {:induction false} PrunedWhole(exact: bool, k: Kernels, store: Store, p: Plan, pushable: seq<PushablePredicate>)
    requires IeeeConversion(k) && Attached(p, pushable) && Resolvable(k, store, p) && Truthful(store, p)
    requires if exact then Exact(k, p, pushable) else Steady(k, p, pushable)
    requires !Live(ScanBelow(p), pushable)
    ensures Same(exact, EvalPlan(k, Pruned(store), p), EvalPlan(k, Whole(store), p))
    decreases p, 1
  {
    hide Explains, Agree, IeeeConversion, EvalPlan, Live, Same, Always, Exact, Steady, Attached, Resolvable, Truthful;
    ExplainsNothing(k, store, ScanBelow(p), Carried(p), Always(), pushable);
    PrunedRows(exact, k, store, p, pushable, Always());
    Everything(exact, EvalPlan(k, Pruned(store), p), EvalPlan(k, Whole(store), p));
  }

  lemma NothingLive(scan: Option<Source>)
    ensures !Live(scan, [])
  {
  }

  lemma EqualAgree(exact: bool, test: Row -> bool, rows: seq<Row>, rows': seq<Row>)
    requires rows == rows'
    ensures Agree(exact, test, rows, rows')
  {
  }

  lemma SameJoined(exact: bool, k: Kernels, spec: JoinSpec, left: seq<Row>, left': seq<Row>, right: seq<Row>, right': seq<Row>)
    requires Same(exact, left, left') && Same(exact, right, right')
    ensures Same(exact, JoinRows(k, spec, left, right), JoinRows(k, spec, left', right'))
  {
    hide JoinRows;
    if !exact { JoinSameRows(k, spec, left, left', right, right'); }
  }

  lemma LeafAgrees(exact: bool, k: Kernels, store: Store, scan: Plan, test: Row -> bool)
    requires IeeeConversion(k) && scan.Scan? && Truthful(store, scan)
    requires Explains(k, store, ScanBelow(scan), Carried(scan), test, scan.pushable)
    ensures Agree(exact, test, EvalPlan(k, Pruned(store), scan), EvalPlan(k, Whole(store), scan))
  {
    hide Explains, Truthful, IeeeConversion, EvalPlan;
    ScanPruned(k, store, scan, test);
  }

  // ---------------------------------------------------------------------------
  // The theorems
  // ---------------------------------------------------------------------------

  /** None of the conditions depends on annotations. */
  lemma {:induction false} BareConditions(k: Kernels, store: Store, p: Plan)
    ensures ScanBelow(Bare(p)) == ScanBelow(p) && Carried(Bare(p)) == Carried(p)
    ensures Resolvable(k, store, Bare(p)) == Resolvable(k, store, p) && Truthful(store, Bare(p)) == Truthful(store, p)
  {
    hide Pushes, Accurate, Int64Row;
    match p
    case Scan(_, _, _, _) =>
    case Join(l, r, _, _, _, _) => BareConditions(k, store, l); BareConditions(k, store, r);
    case Filter(c, _) => BareConditions(k, store, c);
    case Project(c, _) => BareConditions(k, store, c);
    case Group(c, _, _) => BareConditions(k, store, c);
    case Sort(c, _) => BareConditions(k, store, c);
    case Limit(c, _) => BareConditions(k, store, c);
  }

  lemma {:induction false} BareSorts(k: Kernels, p: Plan, pushable: seq<PushablePredicate>)
    ensures ScanBelow(Bare(p)) == ScanBelow(p)
    ensures Exact(k, Bare(p), pushable) == Exact(k, p, pushable) && Steady(k, Bare(p), pushable) == Steady(k, p, pushable)
  {
    hide Live, SortCommutes;
    match p
    case Scan(_, _, _, _) =>
    case Join(l, r, _, _, _, _) => BareSorts(k, l, []); BareSorts(k, r, []);
    case Filter(c, _) => BareSorts(k, c, Forwarded(p, pushable));
    case Project(c, _) => BareSorts(k, c, pushable);
    case Group(c, _, _) => BareSorts(k, c, pushable);
    case Sort(c, _) => BareSorts(k, c, pushable);
    case Limit(c, _) => BareSorts(k, c, pushable);
  }

  /** Conditions under which pruning keeps what a query means. */
  ghost predicate PrunesSafely(k: Kernels, store: Store, p: Plan)
  {
    IeeeConversion(k) && Resolvable(k, store, p) && Truthful(store, p)
  }

  /** Reading only the row groups that the attached predicates select does not change the rows
      of a plan: joins, subqueries, aggregations, HAVING and LIMIT included. Where a predicate on
      a scan column passes a sort below a LIMIT, sorting must commute with leaving rows out. */
  lemma PrunedQuery(k: Kernels, store: Store, p: Plan, a: Plan)
    requires PrunesSafely(k, store, p) && Steady(k, p, []) && Bare(a) == Bare(p) && Attached(a, [])
    ensures SameRows(EvalPlan(k, Pruned(store), a), EvalPlan(k, Whole(store), p))
  {
    PrunedSame(false, k, store, p, a);
  }

  /** Not even their order changes, where no predicate on a scan column passes a sort or sorting
      commutes with leaving rows out. */
  lemma PrunedSequence(k: Kernels, store: Store, p: Plan, a: Plan)
    requires PrunesSafely(k, store, p) && Exact(k, p, []) && Bare(a) == Bare(p) && Attached(a, [])
    ensures EvalPlan(k, Pruned(store), a) == EvalPlan(k, Whole(store), p)
  {
    PrunedSame(true, k, store, p, a);
  }

  lemma PrunedSame(exact: bool, k: Kernels, store: Store, p: Plan, a: Plan)
    requires PrunesSafely(k, store, p) && Bare(a) == Bare(p) && Attached(a, [])
    requires if exact then Exact(k, p, []) else Steady(k, p, [])
    ensures Same(exact, EvalPlan(k, Pruned(store), a), EvalPlan(k, Whole(store), p))
  {
    hide EvalPlan, Resolvable, Truthful, Exact, Steady, Attached, IeeeConversion, Pruned, Whole;
    BareConditions(k, store, p);
    BareConditions(k, store, a);
    BareSorts(k, p, []);
    BareSorts(k, a, []);
    NothingLive(ScanBelow(a));
    PrunedWhole(exact, k, store, a, []);
    WholeIsPlain(store);
    BareMeaning(k, Whole(store), a);
    BareMeaning(k, Whole(store), p);
  }

  /** Without a LIMIT nothing is asked of sorting. */
  lemma {:induction false} LimitFreeSteady(k: Kernels, p: Plan, pushable: seq<PushablePredicate>)
    requires LimitFree(p)
    ensures Steady(k, p, pushable)
  {
    match p
    case Scan(_, _, _, _) =>
    case Join(l, r, _, _, _, _) => LimitFreeSteady(k, l, []); LimitFreeSteady(k, r, []);
    case Filter(c, _) => LimitFreeSteady(k, c, Forwarded(p, pushable));
    case Project(c, _) => LimitFreeSteady(k, c, pushable);
    case Group(c, _, _) => LimitFreeSteady(k, c, pushable);
    case Sort(c, _) => LimitFreeSteady(k, c, pushable);
  }

  /** A LIMIT over any such plan takes the first rows of some arrangement of its rows. */
  lemma PrunedLimit(k: Kernels, store: Store, p: Plan, a: Plan, n: int) returns (full: seq<Row>)
    requires PrunesSafely(k, store, p) && Steady(k, p, []) && Bare(a) == Bare(p) && Attached(a, [])
    ensures EvalPlan(k, Pruned(store), Limit(a, n)) == TakeRows(n, full) && SameRows(full, EvalPlan(k, Whole(store), p))
  {
    hide PrunesSafely, Steady, Attached, Bare, SameRows, Pruned, Whole;
    full := EvalPlan(k, Pruned(store), a);
    PrunedQuery(k, store, p, a);
  }

  /** With the library's stable sort nothing is left to ask of sorting. */
  lemma {:induction false} LibraryExact(k: Kernels, p: Plan, pushable: seq<PushablePredicate>)
    requires LibrarySorts(k)
    ensures Exact(k, p, pushable) && Steady(k, p, pushable)
  {
    hide SortRows, LibrarySorts;
    match p
    case Scan(_, _, _, _) =>
    case Join(l, r, _, _, _, _) => LibraryExact(k, l, []); LibraryExact(k, r, []);
    case Filter(c, _) => LibraryExact(k, c, Forwarded(p, pushable));
    case Project(c, _) => LibraryExact(k, c, pushable);
    case Group(c, _, _) => LibraryExact(k, c, pushable);
    case Sort(c, _) =>
      forall keys, rows, test: Row -> bool ensures Select(test, SortRows(k, keys, rows)) == SortRows(k, keys, Select(test, rows)) {
        SortOfSelected(k, keys, rows, test);
      }
      LibraryExact(k, c, pushable);
    case Limit(c, _) => LibraryExact(k, c, pushable);
  }

  /** So every plan that prunes safely, with LIMITs and sorts wherever they stand, keeps its rows
      in their order. */
  lemma PrunedStably(k: Kernels, store: Store, p: Plan, a: Plan)
    requires PrunesSafely(k, store, p) && LibrarySorts(k) && Bare(a) == Bare(p) && Attached(a, [])
    ensures EvalPlan(k, Pruned(store), a) == EvalPlan(k, Whole(store), p)
  {
    hide PrunesSafely, Exact, Attached, Bare, LibrarySorts;
    LibraryExact(k, p, []);
    PrunedSequence(k, store, p, a);
  }
}
