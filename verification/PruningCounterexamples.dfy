/** Two queries that lose or gain rows when scans are pruned by forwarded predicates: one forwards
a predicate on a derived value to the base column of the same name, the other forwards one through
a LIMIT. */
module PruningCounterexamples {
  import opened Expressions
  import opened Relational
  import opened Aggregation
  import opened LogicalPlans
  import opened PhysicalPlanner
  import opened Simplifier
  import opened Rewriter
  import opened QueryPlanning
  import opened Rounding
  import opened ParquetPruning
  import opened PushedPredicates

  const V := Column("v", 0, Int64)
  const SELECT_V := [NamedExpr(V, "v")]
  const OVER_TEN := Binary(Greater, V, Literal(Int(10), Int64), Boolean)
  const FORWARDED := [Pushable("v", Greater, Int(10), Int64)]

  /** Table `t` with its one column, as planned and as annotated below `v > 10`. */
  const T := Scan("t", [Field("v", Int64)], {}, [])
  const PRUNED_T := Scan("t", [Field("v", Int64)], {"v"}, FORWARDED)

  function JustRows(v: int): RowGroup
  {
    RowGroup(v, map["v" := ColumnStatistics(true, Int(v), Int(v))])
  }

  /** The annotated scan, whatever else is required. */
  lemma ScanAnnotated()
    ensures Annotate(T, {0}, FORWARDED) == Some(PRUNED_T)
    ensures Columns(V) == {0} && Columns(OVER_TEN) == {0} && ItemColumns(SELECT_V) == {0}
    ensures CollectPushable(OVER_TEN) == FORWARDED && [] + FORWARDED == FORWARDED
  {
    assert SELECT_V[1..] == [];
    var required: set<nat> := {0};
    assert 0 in required && T.fields[0].name == "v" && forall i :: i in required ==> i == 0;
    assert (set i | i in required && i < |T.fields| :: T.fields[i].name) == {"v"};
    assert Annotate(T, required, FORWARDED) == Some(PRUNED_T);
  }

  lemma Unsimplified(k: Kernels)
    ensures SimplifyItems(k, SELECT_V) == SELECT_V && Simplify(k, OVER_TEN) == OVER_TEN
  {
    MapIndex((item: NamedExpr) => NamedExpr(Simplify(k, item.expr), item.name), SELECT_V);
  }

  lemma OverTen(k: Kernels, v: Value)
    requires v.Int? || v.Null?
    ensures Holds(k, OVER_TEN, [v]) <==> v.Int? && v.i > 10
  {
    assert Eval(k, V, [v]) == v && Eval(k, OVER_TEN.right, [v]) == Int(10);
    assert Eval(k, OVER_TEN, [v]) == EvalBinary(k, Greater, v, Int(10), Boolean);
  }

  /** The filter over one-column rows of one value. */
  lemma SelectedOverTen(k: Kernels, tables: Tables, p: Plan, v: Value)
    requires (v.Int? || v.Null?) && forall row :: row in EvalPlan(k, tables, p) ==> row == [v]
    ensures EvalPlan(k, tables, Filter(p, OVER_TEN)) == if v.Int? && v.i > 10 then EvalPlan(k, tables, p) else []
  {
    hide Holds;
    OverTen(k, v);
    if v.Int? && v.i > 10 {
      SelectAll(row => Holds(k, OVER_TEN, row), EvalPlan(k, tables, p));
    } else {
      SelectNone(row => Holds(k, OVER_TEN, row), EvalPlan(k, tables, p));
    }
  }

  lemma SelectV(k: Kernels, tables: Tables, p: Plan)
    requires forall row :: row in EvalPlan(k, tables, p) ==> |row| == 1
    ensures EvalPlan(k, tables, Project(p, SELECT_V)) == EvalPlan(k, tables, p)
  {
    var rows := EvalPlan(k, tables, p);
    MapIndex(row => EvalItems(k, SELECT_V, row), rows);
    forall i | 0 <= i < |rows| ensures EvalItems(k, SELECT_V, rows[i]) == rows[i] {
      MapIndex((item: NamedExpr) => Eval(k, item.expr, rows[i]), SELECT_V);
    }
  }

  // ---------------------------------------------------------------------------
  // A derived value under a base name
  // ---------------------------------------------------------------------------

  const SUM_V := AggregateCall(Sum, V, "v")

  function SumOverTen(scan: Plan): Plan
  {
    Project(Filter(Project(Group(scan, [], [SUM_V]), SELECT_V), OVER_TEN), SELECT_V)
  }

  /** SELECT v FROM (SELECT SUM(v) AS v FROM t) AS d WHERE v > 10: the predicate on the sum is
      attached, by name, to the base column `v`. */
  lemma DerivedPredicateReachesScan(k: Kernels)
    ensures Annotate(Rewrite(k, SumOverTen(T)), {}, []) == Some(SumOverTen(PRUNED_T))
    ensures Optimized(k, SumOverTen(T)) == SumOverTen(PRUNED_T)
  {
    hide Simplify;
    Unsimplified(k);
    ScanAnnotated();
    var group := Group(T, [], [SUM_V]);
    SumUnsimplified(k);
    assert Rewrite(k, T) == T;
    assert Rewrite(k, group) == group;
    assert Rewrite(k, Project(group, SELECT_V)) == Project(group, SELECT_V);
    assert Rewrite(k, SumOverTen(T)) == SumOverTen(T);
    assert CallColumns([SUM_V]) == {0} by { assert [SUM_V][1..] == []; }
    assert {0} + ItemColumns([]) + CallColumns([SUM_V]) == {0} && {} + {0} == {0};
    assert Annotate(group, {0}, FORWARDED) == Some(Group(PRUNED_T, [], [SUM_V]));
    assert Annotate(Project(group, SELECT_V), {0}, FORWARDED) == Some(Project(Group(PRUNED_T, [], [SUM_V]), SELECT_V));
  }

  lemma SumUnsimplified(k: Kernels)
    ensures SimplifyCalls(k, [SUM_V]) == [SUM_V] && SimplifyItems(k, []) == []
  {
    MapIndex((call: AggregateCall) => AggregateCall(call.func, Simplify(k, call.argument), call.name), [SUM_V]);
  }

  lemma SumRow(k: Kernels, tables: Tables, scan: Plan)
    requires scan.Scan?
    ensures EvalPlan(k, tables, Group(scan, [], [SUM_V]))
         == [[Reduce(SumOf, Map(row => Eval(k, V, row), tables(scan.table, scan.pushable)))]]
  {
    var rows := tables(scan.table, scan.pushable);
    MapAppend((c: AggregateCall) => Aggregate(k, c.func, CallValues(k, c, rows)), [SUM_V], []);
    assert CallResults(k, [SUM_V], rows) == [Reduce(SumOf, Map(row => Eval(k, V, row), rows))];
  }

  /** One row group of two sixes. */
  function Sixes(): Store
  {
    Store((table: string) => [JustRows(6)], (g: RowGroup) => [[Int(6)], [Int(6)]])
  }

  lemma SixesSkipped()
    ensures Skippable(JustRows(6), FORWARDED)
  {
    RoundExact(6);
    RoundExact(10);
    assert FORWARDED[0] in FORWARDED && ProvesEmpty(FORWARDED[0], JustRows(6).statistics["v"]);
  }

  lemma SixesRead()
    ensures Whole(Sixes())("t", []) == [[Int(6)], [Int(6)]] && Pruned(Sixes())("t", FORWARDED) == []
  {
    SixesSkipped();
    SelectNone((g: RowGroup) => !Skippable(g, FORWARDED), [JustRows(6)]);
    assert [JustRows(6)][1..] == [];
    assert FlatMap(Sixes().data, [JustRows(6)]) == [[Int(6)], [Int(6)]] + FlatMap(Sixes().data, []);
  }

  /** Two rows of 6 sum to 12, which is over 10; but the row group of sixes is skipped because no
      6 is over 10, and the sum is lost. */
  lemma DerivedColumnMisprunes(k: Kernels)
    ensures EvalPlan(k, Whole(Sixes()), SumOverTen(T)) == [[Int(12)]]
    ensures EvalPlan(k, Pruned(Sixes()), SumOverTen(PRUNED_T)) == []
  {
    hide EvalPlan, Skippable, Pruned, Whole;
    SixesRead();
    SumRow(k, Whole(Sixes()), T);
    SumRow(k, Pruned(Sixes()), PRUNED_T);
    var rows := [[Int(6)], [Int(6)]];
    var values := Map(row => Eval(k, V, row), rows);
    MapIndex(row => Eval(k, V, row), rows);
    assert values == [Int(6), Int(6)] && values[1..] == [Int(6)];
    ReduceOne(SumOf, Int(6));
    assert Reduce(SumOf, values) == Int(12);
    assert Map(row => Eval(k, V, row), []) == [];
    SumSelected(k, Whole(Sixes()), T, Int(12));
    SumSelected(k, Pruned(Sixes()), PRUNED_T, Null);
  }

  lemma SumSelected(k: Kernels, tables: Tables, scan: Plan, v: Value)
    requires (v.Int? || v.Null?) && EvalPlan(k, tables, Group(scan, [], [SUM_V])) == [[v]]
    ensures EvalPlan(k, tables, SumOverTen(scan)) == if v.Int? && v.i > 10 then [[v]] else []
  {
    hide EvalPlan;
    var group := Group(scan, [], [SUM_V]);
    SelectV(k, tables, group);
    SelectedOverTen(k, tables, Project(group, SELECT_V), v);
    SelectV(k, tables, Filter(Project(group, SELECT_V), OVER_TEN));
  }

  // ---------------------------------------------------------------------------
  // A predicate forwarded through LIMIT
  // ---------------------------------------------------------------------------

  const BY_V := [SortKey(V, true)]

  /** SELECT v FROM (SELECT v FROM t ORDER BY v LIMIT 2) AS d WHERE v > 10. */
  const SMALLEST_OVER_TEN := Project(Filter(Limit(Project(Sort(T, BY_V), SELECT_V), 2), OVER_TEN), SELECT_V)

  /** The same with the LIMIT moved below the inner select list. */
  function LimitBelow(scan: Plan): Plan
  {
    Project(Filter(Project(Limit(Sort(scan, BY_V), 2), SELECT_V), OVER_TEN), SELECT_V)
  }

  lemma LimitedPredicateReachesScan(k: Kernels)
    ensures Annotate(Rewrite(k, SMALLEST_OVER_TEN), {}, []) == Some(LimitBelow(PRUNED_T))
    ensures Optimized(k, SMALLEST_OVER_TEN) == LimitBelow(PRUNED_T)
  {
    hide Simplify;
    Unsimplified(k);
    ScanAnnotated();
    KeysUnsimplified(k);
    var sorted := Sort(T, BY_V);
    assert Rewrite(k, sorted) == sorted by { assert Rewrite(k, T) == T; }
    assert Rewrite(k, Project(sorted, SELECT_V)) == Project(sorted, SELECT_V);
    assert InsertLimit(Project(sorted, SELECT_V), 2) == Project(Limit(sorted, 2), SELECT_V);
    assert Rewrite(k, Limit(Project(sorted, SELECT_V), 2)) == Project(Limit(sorted, 2), SELECT_V);
    assert Rewrite(k, SMALLEST_OVER_TEN) == LimitBelow(T);
    assert KeyColumns(BY_V) == {0} by { assert BY_V[1..] == []; }
    assert {0} + {0} == {0} && {} + {0} == {0};
    assert Annotate(Limit(sorted, 2), {0}, FORWARDED) == Some(Limit(Sort(PRUNED_T, BY_V), 2));
    assert Annotate(Project(Limit(sorted, 2), SELECT_V), {0}, FORWARDED)
        == Some(Project(Limit(Sort(PRUNED_T, BY_V), 2), SELECT_V));
  }

  lemma KeysUnsimplified(k: Kernels)
    ensures SimplifyKeys(k, BY_V) == BY_V
  {
    MapIndex((key: SortKey) => SortKey(Simplify(k, key.expr), key.ascending), BY_V);
  }

  const SORTED := [[Int(6)], [Int(6)], [Int(20)]]

  /** Two row groups: two sixes, and a twenty. */
  function SixesAndTwenty(): Store
  {
    Store((table: string) => [JustRows(6), JustRows(20)],
          (g: RowGroup) => if g == JustRows(6) then [[Int(6)], [Int(6)]] else [[Int(20)]])
  }

  lemma TwentyRead()
    ensures Whole(SixesAndTwenty())("t", []) == SORTED && Pruned(SixesAndTwenty())("t", FORWARDED) == [[Int(20)]]
  {
    var store, six, twenty := SixesAndTwenty(), JustRows(6), JustRows(20);
    var keeps := (g: RowGroup) => !Skippable(g, FORWARDED);
    SixesSkipped();
    RoundExact(20);
    RoundExact(10);
    assert keeps(twenty);
    SelectAppend(keeps, [six], [twenty]);
    SelectNone(keeps, [six]);
    SelectAll(keeps, [twenty]);
    assert [six, twenty] == [six] + [twenty] && [six, twenty][1..] == [twenty] && [twenty][1..] == [];
    assert FlatMap(store.data, [twenty]) == [[Int(20)]] + FlatMap(store.data, []);
    assert FlatMap(store.data, [six, twenty]) == [[Int(6)], [Int(6)]] + FlatMap(store.data, [twenty]);
    assert SelectedGroups([six, twenty], FORWARDED) == [twenty];
  }

  /** The two smallest values are sixes, so no row is right; but the sixes are skipped, LIMIT 2
      then takes the twenty, and it is returned. The sort need only leave sorted rows alone. */
  lemma LimitMisprunes(k: Kernels)
    requires SortRows(k, BY_V, SORTED) == SORTED
    ensures EvalPlan(k, Whole(SixesAndTwenty()), SMALLEST_OVER_TEN) == []
    ensures EvalPlan(k, Pruned(SixesAndTwenty()), LimitBelow(PRUNED_T)) == [[Int(20)]]
  {
    hide EvalPlan, Pruned, Whole, SortRows;
    var whole, pruned := Whole(SixesAndTwenty()), Pruned(SixesAndTwenty());
    TwentyRead();
    Sorted(k, whole, T);
    Sorted(k, pruned, PRUNED_T);
    OneRowSorted(k, BY_V, [Int(20)]);
    var inner := Project(Sort(T, BY_V), SELECT_V);
    SelectV(k, whole, Sort(T, BY_V));
    LimitTwo(k, whole, inner);
    assert EvalPlan(k, whole, Limit(inner, 2)) == [[Int(6)], [Int(6)]];
    SelectedOverTen(k, whole, Limit(inner, 2), Int(6));
    SelectV(k, whole, Filter(Limit(inner, 2), OVER_TEN));
    var limited := Limit(Sort(PRUNED_T, BY_V), 2);
    LimitTwo(k, pruned, Sort(PRUNED_T, BY_V));
    assert EvalPlan(k, pruned, limited) == [[Int(20)]];
    SelectV(k, pruned, limited);
    SelectedOverTen(k, pruned, Project(limited, SELECT_V), Int(20));
    SelectV(k, pruned, Filter(Project(limited, SELECT_V), OVER_TEN));
  }

  lemma Sorted(k: Kernels, tables: Tables, scan: Plan)
    requires scan.Scan?
    ensures EvalPlan(k, tables, Sort(scan, BY_V)) == SortRows(k, BY_V, tables(scan.table, scan.pushable))
  {
  }

  lemma LimitTwo(k: Kernels, tables: Tables, p: Plan)
    ensures EvalPlan(k, tables, Limit(p, 2)) == TakeRows(2, EvalPlan(k, tables, p))
  {
  }

  lemma OneRowSorted(k: Kernels, keys: seq<SortKey>, row: Row)
    ensures SortRows(k, keys, [row]) == [row]
  {
    var sorted := SortRows(k, keys, [row]);
    assert multiset(sorted) == multiset([row]);
    assert |sorted| == |multiset(sorted)| == 1;
    assert sorted[0] in multiset(sorted);
  }

  /** Neither query meets the condition under which pruning is proved right. */
  lemma NeitherResolvable(k: Kernels, store: Store)
    ensures !Resolvable(k, store, SumOverTen(T)) && !Resolvable(k, store, LimitBelow(T))
  {
    assert ScanBelow(Group(T, [], [SUM_V])) == ScanBelow(Limit(Sort(T, BY_V), 2)) == ScanBelow(T) by {
      assert ScanBelow(Sort(T, BY_V)) == ScanBelow(T);
    }
    NotCopied(k, store, Project(Group(T, [], [SUM_V]), SELECT_V));
    NotCopied(k, store, Project(Limit(Sort(T, BY_V), 2), SELECT_V));
  }

  lemma NotCopied(k: Kernels, store: Store, p: Plan)
    requires p.Project? && p.items == SELECT_V && Carried(p.child) == [] && ScanBelow(p) == Some(Source("t", T.fields))
    ensures !Resolvable(k, store, Project(Filter(p, OVER_TEN), SELECT_V))
  {
    assert T.fields[0] in T.fields && IsField(ScanBelow(p), "v");
    MapIndex((item: NamedExpr) => CopyOf(item.expr, Carried(p.child)), SELECT_V);
    assert PushedColumn(OVER_TEN) == Some(V) && CopyOf(V, Carried(p)) == None;
  }
}
