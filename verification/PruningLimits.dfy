/** Exactly when a forwarded predicate may prune. Over projections of plain columns and LIMITs
on a scan, pruning by one comparison is right for every file if and only if the compared name
is no column of the table, or the compared column is a copy of that column with no LIMIT below. */
module PruningLimits {
  import opened Expressions
  import opened Relational
  import opened Aggregation
  import opened LogicalPlans
  import opened PhysicalPlanner
  import opened BlockShapes
  import opened RequiredColumns
  import opened Rounding
  import opened ParquetPruning
  import opened PushedPredicates
  import opened PrunedQueries

  // ---------------------------------------------------------------------------
  // Projections of plain columns, and LIMITs
  // ---------------------------------------------------------------------------

  predicate ColumnChain(p: Plan)
  {
    match p
    case Scan(_, _, _, _) => true
    case Project(c, items) => ColumnChain(c) && forall item :: item in items ==> PlainColumn(item.expr, Width(c))
    case Limit(c, n) => n > 0 && ColumnChain(c)
    case _ => false
  }

  predicate PlainColumn(e: Expr, width: nat)
  {
    e.Column? && !e.typ.Boolean? && e.index < width
  }

  function FieldsOf(p: Plan): seq<Field>
    requires ColumnChain(p)
  {
    if p.Scan? then p.fields else FieldsOf(p.child)
  }

  function TableOf(p: Plan): string
    requires ColumnChain(p)
  {
    if p.Scan? then p.table else TableOf(p.child)
  }

  lemma {:induction false} ChainSource(p: Plan)
    requires ColumnChain(p)
    ensures ScanBelow(p) == Some(Source(TableOf(p), FieldsOf(p)))
  {
    if !p.Scan? { ChainSource(p.child); }
  }

  /** The scan column that output column `i` is a copy of. */
  function Origin(p: Plan, i: nat): (o: nat)
    requires ColumnChain(p) && i < Width(p)
    ensures o < |FieldsOf(p)|
  {
    match p
    case Scan(_, _, _, _) => i
    case Project(c, items) => assert items[i] in items; Origin(c, items[i].expr.index)
    case Limit(c, _) => Origin(c, i)
  }

  predicate Limited(p: Plan)
  {
    p.Limit? || (p.Project? && Limited(p.child))
  }

  /** What a scanned row looks like above the projections. */
  function View(k: Kernels, p: Plan, row: Row): Row
  {
    match p
    case Project(c, items) => EvalItems(k, items, View(k, c, row))
    case Limit(c, _) => View(k, c, row)
    case _ => row
  }

  lemma {:induction false} ViewAt(k: Kernels, p: Plan, row: Row, i: nat)
    requires ColumnChain(p) && i < Width(p) && |row| == |FieldsOf(p)|
    ensures |View(k, p, row)| == Width(p) && View(k, p, row)[i] == row[Origin(p, i)]
  {
    match p
    case Scan(_, _, _, _) =>
    case Project(c, items) =>
      assert items[i] in items;
      ViewAt(k, c, row, items[i].expr.index);
      MapIndex((item: NamedExpr) => Eval(k, item.expr, View(k, c, row)), items);
    case Limit(c, _) => ViewAt(k, c, row, i);
  }

  /** A column is carried exactly when no LIMIT stands below it. */
  lemma {:induction false} ChainCarries(p: Plan, i: nat)
    requires ColumnChain(p) && i < Width(p)
    ensures Limited(p) ==> forall j :: 0 <= j < |Carried(p)| ==> Carried(p)[j] == None
    ensures !Limited(p) ==> i < |Carried(p)| && Carried(p)[i] == Some(FieldsOf(p)[Origin(p, i)].name)
  {
    match p
    case Scan(_, fields, _, _) => MapIndex((f: Field) => Some(f.name), fields);
    case Project(c, items) =>
      assert items[i] in items;
      ChainCarries(c, items[i].expr.index);
      MapIndex((item: NamedExpr) => CopyOf(item.expr, Carried(c)), items);
    case Limit(_, _) =>
  }

  // ---------------------------------------------------------------------------
  // The rows of such a plan
  // ---------------------------------------------------------------------------

  /** What the scan of `p` reads. */
  function Scanned(tables: Tables, p: Plan): seq<Row>
    requires ColumnChain(p)
  {
    if p.Scan? then tables(p.table, p.pushable) else Scanned(tables, p.child)
  }

  lemma {:induction false} ChainRows(k: Kernels, tables: Tables, p: Plan)
    requires ColumnChain(p)
    ensures !Limited(p) ==> EvalPlan(k, tables, p) == Map(row => View(k, p, row), Scanned(tables, p))
    ensures Scanned(tables, p) == [] ==> EvalPlan(k, tables, p) == []
    ensures |Scanned(tables, p)| == 1 ==> EvalPlan(k, tables, p) == [View(k, p, Scanned(tables, p)[0])]
  {
    var rows := Scanned(tables, p);
    match p
    case Scan(_, _, _, _) =>
      MapIndex(row => View(k, p, row), rows);
    case Project(c, items) =>
      ChainRows(k, tables, c);
      MapMap(row => EvalItems(k, items, row), row => View(k, c, row), row => View(k, p, row), rows);
      MapIndex(row => EvalItems(k, items, row), EvalPlan(k, tables, c));
    case Limit(c, _) => ChainRows(k, tables, c);
  }

  /** The largest count of a LIMIT in the chain. */
  function Bound(p: Plan): nat
    requires ColumnChain(p)
  {
    match p
    case Scan(_, _, _, _) => 0
    case Project(c, _) => Bound(c)
    case Limit(c, n) => if n > Bound(c) then n else Bound(c)
  }

  /** A LIMIT over many copies of one row never sees past them. */
  lemma {:induction false} LimitSees(k: Kernels, tables: Tables, p: Plan, y: Row, n: nat)
    requires ColumnChain(p) && Limited(p) && Bound(p) <= n <= |Scanned(tables, p)|
    requires forall i :: 0 <= i < n ==> Scanned(tables, p)[i] == y
    ensures forall row :: row in EvalPlan(k, tables, p) ==> row == View(k, p, y)
  {
    match p
    case Project(c, items) =>
      LimitSees(k, tables, c, y, n);
      forall row | row in EvalPlan(k, tables, p) ensures row == View(k, p, y) {
        MapMember(r => EvalItems(k, items, r), EvalPlan(k, tables, c), row);
      }
    case Limit(c, count) =>
      if Limited(c) {
        LimitSees(k, tables, c, y, n);
      } else {
        ChainRows(k, tables, c);
        MapIndex(row => View(k, c, row), Scanned(tables, p));
      }
  }

  // ---------------------------------------------------------------------------
  // A value that passes and one that is ruled out
  // ---------------------------------------------------------------------------

  function Passing(op: BinaryOp, v: int): int
  {
    match op
    case NotEqual => v + 1
    case Less => v - 1
    case Greater => v + 1
    case _ => v
  }

  function Failing(op: BinaryOp, v: int): int
  {
    match op
    case Equal => v + 1
    case LessEqual => v + 1
    case GreaterEqual => v - 1
    case _ => v
  }

  function JustValue(y: int): ColumnStatistics
  {
    ColumnStatistics(true, Int(y), Int(y))
  }

  lemma PassAndFail(k: Kernels, op: BinaryOp, v: int, q: PushablePredicate)
    requires IsComparison(op) && -TWO53 < v < TWO53 && q.op == op && q.literal == Int(v)
    ensures EvalBinary(k, op, Int(Passing(op, v)), Int(v), Boolean) == Bool(true)
    ensures EvalBinary(k, op, Int(Failing(op, v)), Int(v), Boolean) != Bool(true)
    ensures ProvesEmpty(q, JustValue(Failing(op, v)))
    ensures InInt64(Passing(op, v)) && InInt64(Failing(op, v)) && Precise(q)
  {
    RoundExact(v - 1);
    RoundExact(v);
    RoundExact(v + 1);
    SmallLiterals(op, v);
  }

  // ---------------------------------------------------------------------------
  // Files on which pruning is wrong
  // ---------------------------------------------------------------------------

  /** A comparison of a column with a small integer, over such a plan. */
  predicate OneComparison(p: Plan)
  {
    && p.Filter? && ColumnChain(p.child) && p.condition.Binary? && IsComparison(p.condition.bop)
    && PlainColumn(p.condition.left, Width(p.child))
    && p.condition.right.Literal? && p.condition.right.value.Int? && -TWO53 < p.condition.right.value.i < TWO53
  }

  function PredicateOf(p: Plan): PushablePredicate
    requires OneComparison(p)
  {
    Pushable(p.condition.left.name, p.condition.bop, p.condition.right.value, p.condition.right.typ)
  }

  lemma ForwardsOne(p: Plan)
    requires OneComparison(p)
    ensures CollectPushable(p.condition) == [PredicateOf(p)] && Forwarded(p, []) == [PredicateOf(p)]
    ensures PushedColumn(p.condition) == Some(p.condition.left)
  {
    assert [] + [PredicateOf(p)] == [PredicateOf(p)];
  }

  /** What the scan of an annotated plan reads. */
  lemma {:induction false} AttachedScan(a: Plan, p: Plan, tables: Tables, pushable: seq<PushablePredicate>)
    requires ColumnChain(p) && Bare(a) == Bare(p) && Attached(a, pushable)
    ensures ColumnChain(a) && Scanned(tables, a) == tables(TableOf(p), pushable)
    ensures Width(a) == Width(p) && Limited(a) == Limited(p) && Bound(a) == Bound(p)
    ensures forall k, row :: View(k, a, row) == View(k, p, row)
    decreases p
  {
    if !p.Scan? {
      AttachedScan(a.child, p.child, tables, pushable);
    }
  }

  function AllOf(n: nat, v: int): Row
  {
    seq(n, i => Int(v))
  }

  /** `x` in column `o`, `y` in the others. */
  function Marked(n: nat, o: nat, x: int, y: int): Row
    requires o < n
  {
    AllOf(n, y)[o := Int(x)]
  }

  /** One group of one row, whose statistics are right about the column called `name`. */
  function OneRowStore(name: string, y: int, row: Row): Store
  {
    Store((table: string) => [RowGroup(0, map[name := JustValue(y)])], (g: RowGroup) => [row])
  }

  lemma OneRowRead(store: Store, row: Row, q: PushablePredicate, y: int, pushable: seq<PushablePredicate>, table: string)
    requires store == OneRowStore(q.column, y, row) && q in pushable && ProvesEmpty(q, JustValue(y))
    ensures Whole(store)(table, []) == [row] && Pruned(store)(table, pushable) == []
  {
    var g := RowGroup(0, map[q.column := JustValue(y)]);
    assert Skippable(g, pushable);
    SelectNone((h: RowGroup) => !Skippable(h, pushable), [g]);
    assert [g][1..] == [] && FlatMap(store.data, [g]) == [row] + FlatMap(store.data, []);
  }

  /** A row that passes the filter is lost if the value it has under the name of a forwarded
      predicate is ruled out. */
  lemma RuledOut(k: Kernels, p: Plan, a: Plan, row: Row, q: PushablePredicate, y: int)
    requires p.Filter? && ColumnChain(p.child) && Bare(a) == Bare(p) && Attached(a, [])
    requires q in CollectPushable(p.condition) && IsField(ScanBelow(p), q.column) && ProvesEmpty(q, JustValue(y))
    requires |row| == |FieldsOf(p.child)| && Int64Row(row) && Holds(k, p.condition, View(k, p.child, row))
    requires forall i :: 0 <= i < |row| && FieldsOf(p.child)[i].name == q.column ==> row[i] == Int(y) || row[i] == Null
    ensures var store := OneRowStore(q.column, y, row);
            && Truthful(store, p) && Conforms(Whole(store), p)
            && EvalPlan(k, Pruned(store), a) != EvalPlan(k, Whole(store), p)
            && (forall g :: g in store.file(TableOf(p.child)) ==> store.data(g) == [row])
  {
    hide Pruned, Whole, ProvesEmpty, Skippable;
    var c, pushable := p.child, CollectPushable(p.condition);
    var store := OneRowStore(q.column, y, row);
    assert Forwarded(p, []) == pushable by { assert [] + pushable == pushable; }
    ChainSource(c);
    OneRowRead(store, row, q, y, pushable, TableOf(c));
    AttachedScan(a.child, c, Pruned(store), pushable);
    WholeIsPlain(store);
    ChainPlain(c, Whole(store));
    ChainRows(k, Whole(store), c);
    ChainRows(k, Pruned(store), a.child);
    SelectAll(r => Holds(k, p.condition, r), [View(k, c, row)]);
    OneRowTruthful(c, q.column, y, row);
  }

  /** The filter compares the value of the scan column its own column is a copy of. */
  lemma ComparedValue(k: Kernels, p: Plan, row: Row, x: int)
    requires OneComparison(p) && |row| == |FieldsOf(p.child)|
    requires row[Origin(p.child, p.condition.left.index)] == Int(x)
    ensures Holds(k, p.condition, View(k, p.child, row))
       <==> EvalBinary(k, p.condition.bop, Int(x), p.condition.right.value, Boolean) == Bool(true)
  {
    var view := View(k, p.child, row);
    ViewAt(k, p.child, row, p.condition.left.index);
    assert Eval(k, p.condition.left, view) == Int(x) && Eval(k, p.condition.right, view) == p.condition.right.value;
  }

  /** A row that passes the filter sits in a group that a column of the compared name rules out. */
  lemma WrongColumn(k: Kernels, p: Plan, a: Plan) returns (store: Store)
    requires OneComparison(p) && Bare(a) == Bare(p) && Attached(a, [])
    requires IsField(ScanBelow(p), p.condition.left.name)
    requires FieldsOf(p.child)[Origin(p.child, p.condition.left.index)].name != p.condition.left.name
    ensures Truthful(store, p) && Conforms(Whole(store), p)
    ensures EvalPlan(k, Pruned(store), a) != EvalPlan(k, Whole(store), p)
  {
    var c, q := p.child, PredicateOf(p);
    var o, v := Origin(c, p.condition.left.index), p.condition.right.value.i;
    var x, y := Passing(q.op, v), Failing(q.op, v);
    var row := Marked(|FieldsOf(c)|, o, x, y);
    store := OneRowStore(q.column, y, row);
    PassAndFail(k, q.op, v, q);
    ForwardsOne(p);
    ComparedValue(k, p, row, x);
    RuledOut(k, p, a, row, q, y);
  }

  lemma {:induction false} ChainPlain(p: Plan, tables: Tables)
    requires ColumnChain(p) && Plain(tables)
    ensures Scanned(tables, p) == tables(TableOf(p), [])
  {
    if !p.Scan? { ChainPlain(p.child, tables); }
  }

  lemma {:induction false} OneRowTruthful(p: Plan, name: string, y: int, row: Row)
    requires ColumnChain(p) && |row| == |FieldsOf(p)| && Int64Row(row)
    requires exists f :: f in FieldsOf(p) && f.name == name
    requires forall i :: 0 <= i < |row| && FieldsOf(p)[i].name == name ==> row[i] == Int(y) || row[i] == Null
    ensures Truthful(OneRowStore(name, y, row), p) && Conforms(Whole(OneRowStore(name, y, row)), p)
  {
    if p.Scan? {
      var store := OneRowStore(name, y, row);
      var g := RowGroup(0, map[name := JustValue(y)]);
      assert [g][1..] == [] && FlatMap(store.data, [g]) == [row] + FlatMap(store.data, []);
      assert Accurate(p.fields, g, row);
    } else {
      OneRowTruthful(p.child, name, y, row);
    }
  }

  /** Many copies of a row that fails, then one that passes. */
  function PaddedStore(name: string, y: int, n: nat, fails: Row, passes: Row): Store
  {
    Store((table: string) => [RowGroup(0, map[name := JustValue(y)]), RowGroup(1, map[])],
          (g: RowGroup) => if g.index == 0 then seq(n, i => fails) else [passes])
  }

  lemma PaddedRead(store: Store, name: string, y: int, n: nat, fails: Row, passes: Row, q: PushablePredicate, table: string)
    requires store == PaddedStore(name, y, n, fails, passes) && q.column == name && ProvesEmpty(q, JustValue(y))
    ensures Whole(store)(table, []) == seq(n, i => fails) + [passes] && Pruned(store)(table, [q]) == [passes]
  {
    var g, h := RowGroup(0, map[name := JustValue(y)]), RowGroup(1, map[]);
    var keeps := (r: RowGroup) => !Skippable(r, [q]);
    assert Skippable(g, [q]) by { assert q in [q]; }
    assert !Skippable(h, [q]);
    SelectAppend(keeps, [g], [h]);
    SelectNone(keeps, [g]);
    SelectAll(keeps, [h]);
    assert [g, h] == [g] + [h] && [h][1..] == [] && [g, h][1..] == [h];
    assert FlatMap(store.data, [h]) == [passes] + FlatMap(store.data, []);
    assert FlatMap(store.data, [g, h]) == seq(n, i => fails) + FlatMap(store.data, [h]);
    assert SelectedGroups([g, h], [q]) == [h];
  }

  lemma {:induction false} PaddedTruthful(p: Plan, name: string, x: int, y: int, n: nat)
    requires ColumnChain(p) && InInt64(x) && InInt64(y) && exists f :: f in FieldsOf(p) && f.name == name
    ensures var store := PaddedStore(name, y, n, AllOf(|FieldsOf(p)|, y), AllOf(|FieldsOf(p)|, x));
            Truthful(store, p) && Conforms(Whole(store), p)
  {
    if p.Scan? {
      var fails, passes := AllOf(|p.fields|, y), AllOf(|p.fields|, x);
      var store := PaddedStore(name, y, n, fails, passes);
      var file := store.file(p.table);
      forall g, row | g in file && row in store.data(g) ensures Accurate(p.fields, g, row) && Int64Row(row) {
        assert row == fails || (g == file[1] && row == passes);
      }
      forall row | row in Whole(store)(p.table, p.pushable) ensures |row| == |p.fields| {
        FlatMapMember(store.data, file, row);
      }
    } else {
      PaddedTruthful(p.child, name, x, y, n);
    }
  }

  /** The LIMIT takes rows that fail, unless pruning has removed them. */
  lemma PassedLimit(k: Kernels, p: Plan, a: Plan) returns (store: Store)
    requires OneComparison(p) && Bare(a) == Bare(p) && Attached(a, [])
    requires Limited(p.child) && IsField(ScanBelow(p), p.condition.left.name)
    ensures Truthful(store, p) && Conforms(Whole(store), p)
    ensures EvalPlan(k, Pruned(store), a) != EvalPlan(k, Whole(store), p)
  {
    hide Pruned, Whole, ProvesEmpty, Skippable;
    var c, q := p.child, PredicateOf(p);
    var name, width, n := p.condition.left.name, |FieldsOf(c)|, Bound(c);
    var v := p.condition.right.value.i;
    var x, y := Passing(q.op, v), Failing(q.op, v);
    var fails, passes := AllOf(width, y), AllOf(width, x);
    store := PaddedStore(name, y, n, fails, passes);
    PassAndFail(k, q.op, v, q);
    ForwardsOne(p);
    ChainSource(c);
    PaddedRead(store, name, y, n, fails, passes, q, TableOf(c));
    AttachedScan(a.child, c, Pruned(store), [q]);
    WholeIsPlain(store);
    ChainPlain(c, Whole(store));
    LimitSees(k, Whole(store), c, fails, n);
    ChainRows(k, Pruned(store), a.child);
    ComparedValue(k, p, passes, x);
    ComparedValue(k, p, fails, y);
    SelectAll(r => Holds(k, p.condition, r), [View(k, c, passes)]);
    SelectNone(r => Holds(k, p.condition, r), EvalPlan(k, Whole(store), c));
    PaddedTruthful(c, name, x, y, n);
  }

  // ---------------------------------------------------------------------------
  // The condition
  // ---------------------------------------------------------------------------

  /** Pruning keeps the rows of the plan for every truthful file. */
  ghost predicate RightForEveryFile(k: Kernels, p: Plan, a: Plan)
  {
    forall store :: Truthful(store, p) && Conforms(Whole(store), p) ==>
      EvalPlan(k, Pruned(store), a) == EvalPlan(k, Whole(store), p)
  }

  lemma {:induction false} ChainConditions(k: Kernels, store: Store, p: Plan, pushable: seq<PushablePredicate>)
    requires ColumnChain(p)
    ensures Resolvable(k, store, p) && Exact(k, p, pushable)
  {
    if !p.Scan? { ChainConditions(k, store, p.child, pushable); }
  }

  lemma CopyPrunes(k: Kernels, p: Plan, a: Plan, store: Store)
    requires IeeeConversion(k) && OneComparison(p) && Bare(a) == Bare(p) && Attached(a, []) && Truthful(store, p)
    requires IsField(ScanBelow(p), p.condition.left.name) ==>
               CopyOf(p.condition.left, Carried(p.child)) == Some(p.condition.left.name)
    ensures EvalPlan(k, Pruned(store), a) == EvalPlan(k, Whole(store), p)
  {
    hide EvalPlan, Truthful, IeeeConversion, Attached;
    ForwardsOne(p);
    SmallLiterals(p.condition.bop, p.condition.right.value.i);
    ChainConditions(k, store, p.child, [PredicateOf(p)]);
    assert Pushes(k, store, ScanBelow(p.child), Carried(p.child), p.condition);
    PrunedSequence(k, store, p, a);
  }

  /** Pruning by a comparison over projected columns and LIMITs is right for every file if and
      only if the name compared is no column of the table, or what is compared is a copy of the
      column of that name, taken below no LIMIT. */
  lemma PruningExact(k: Kernels, p: Plan, a: Plan)
    requires IeeeConversion(k) && OneComparison(p) && Bare(a) == Bare(p) && Attached(a, [])
    ensures RightForEveryFile(k, p, a) <==>
      (IsField(ScanBelow(p), p.condition.left.name) ==>
         CopyOf(p.condition.left, Carried(p.child)) == Some(p.condition.left.name))
  {
    hide EvalPlan, Truthful, IeeeConversion, Attached, IsField;
    var name := p.condition.left.name;
    ChainCarries(p.child, p.condition.left.index);
    if !IsField(ScanBelow(p), name) || CopyOf(p.condition.left, Carried(p.child)) == Some(name) {
      forall store | Truthful(store, p) && Conforms(Whole(store), p)
        ensures EvalPlan(k, Pruned(store), a) == EvalPlan(k, Whole(store), p)
      {
        CopyPrunes(k, p, a, store);
      }
    } else if FieldsOf(p.child)[Origin(p.child, p.condition.left.index)].name != name {
      var store := WrongColumn(k, p, a);
    } else {
      var store := PassedLimit(k, p, a);
    }
  }

  // ---------------------------------------------------------------------------
  // Any condition
  // ---------------------------------------------------------------------------

  /** A filter over projected columns, no LIMIT, whose forwarded predicates have small integers. */
  ghost predicate AnyComparisons(p: Plan)
  {
    && p.Filter? && ColumnChain(p.child) && !Limited(p.child)
    && (forall i, j :: 0 <= i < j < |FieldsOf(p.child)| ==> FieldsOf(p.child)[i].name != FieldsOf(p.child)[j].name)
    && forall q :: q in CollectPushable(p.condition) && IsField(ScanBelow(p), q.column) ==> SmallInteger(q)
  }

  predicate SmallInteger(q: PushablePredicate)
  {
    IsComparison(q.op) && q.literal.Int? && -TWO53 < q.literal.i < TWO53
  }

  predicate NamedBy(p: Plan, i: nat, q: PushablePredicate)
    requires p.Filter? && ColumnChain(p.child)
  {
    i < |FieldsOf(p.child)| && FieldsOf(p.child)[i].name == q.column && q in CollectPushable(p.condition)
  }

  /** A row of the table, with integers in the columns that forwarded predicates name. */
  ghost predicate Integral(p: Plan, row: Row)
    requires p.Filter? && ColumnChain(p.child)
  {
    && |row| == |FieldsOf(p.child)| && Int64Row(row)
    && forall i: nat, q :: NamedBy(p, i, q) ==> row[i].Null? || row[i].Int?
  }

  ghost predicate IntegralStore(p: Plan, store: Store)
    requires p.Filter? && ColumnChain(p.child)
  {
    forall g, row :: g in store.file(TableOf(p.child)) && row in store.data(g) ==> Integral(p, row)
  }

  /** The condition, as it reads the row through the projections, implies each forwarded
      predicate on the column of that name. */
  ghost predicate ImpliesForwarded(k: Kernels, p: Plan)
    requires p.Filter? && ColumnChain(p.child)
  {
    forall row, i: nat, q :: Integral(p, row) && NamedBy(p, i, q) && Holds(k, p.condition, View(k, p.child, row)) ==>
      EvalBinary(k, q.op, row[i], q.literal, Boolean) == Bool(true)
  }

  lemma FailingExcluded(k: Kernels, q: PushablePredicate, y: int)
    requires SmallInteger(q) && InInt64(y) && EvalBinary(k, q.op, Int(y), q.literal, Boolean) != Bool(true)
    ensures ProvesEmpty(q, JustValue(y))
  {
    var v := q.literal.i;
    RoundExact(v);
    if y < v { RoundExact(v - 1); RoundMonotone(y, v - 1); }
    if v < y { RoundExact(v + 1); RoundMonotone(v + 1, y); }
  }

  ghost predicate RightForIntegers(k: Kernels, p: Plan, a: Plan)
    requires p.Filter? && ColumnChain(p.child)
  {
    forall store :: Truthful(store, p) && IntegralStore(p, store) ==>
      EvalPlan(k, Pruned(store), a) == EvalPlan(k, Whole(store), p)
  }

  /** The rows that pass are read either way. */
  lemma PassingRead(k: Kernels, p: Plan, store: Store, test: Row -> bool)
    requires p.Filter? && ColumnChain(p.child)
    requires IeeeConversion(k) && AnyComparisons(p) && ImpliesForwarded(k, p) && Truthful(store, p) && IntegralStore(p, store)
    requires forall row :: test(row) == Holds(k, p.condition, View(k, p.child, row))
    ensures Select(test, Pruned(store)(TableOf(p.child), CollectPushable(p.condition)))
         == Select(test, Whole(store)(TableOf(p.child), []))
  {
    hide Skippable, IeeeConversion, Truthful, IntegralStore, ImpliesForwarded, AnyComparisons, Holds, CollectPushable;
    var file, pushable := store.file(TableOf(p.child)), CollectPushable(p.condition);
    var selected := (g: RowGroup) => Select(test, store.data(g));
    forall g | g in file && Skippable(g, pushable) ensures selected(g) == [] {
      forall row | row in store.data(g) ensures !test(row) {
        if test(row) { ImpliedKept(k, p, store, g, row); }
      }
      SelectNone(test, store.data(g));
    }
    SelectOfFlatMap(test, store.data, selected, file);
    SelectOfFlatMap(test, store.data, selected, SelectedGroups(file, pushable));
    FlatMapOfSelect(selected, (g: RowGroup) => !Skippable(g, pushable), selected, file);
  }

  /** What the two plans scan, and how they view it. */
  lemma BothScanned(k: Kernels, p: Plan, a: Plan, store: Store)
    requires p.Filter? && ColumnChain(p.child) && Bare(a) == Bare(p) && Attached(a, [])
    ensures a.Filter? && a.condition == p.condition && ColumnChain(a.child) && Limited(a.child) == Limited(p.child)
    ensures Scanned(Pruned(store), a.child) == Pruned(store)(TableOf(p.child), CollectPushable(p.condition))
    ensures Scanned(Whole(store), p.child) == Whole(store)(TableOf(p.child), [])
    ensures forall row :: View(k, a.child, row) == View(k, p.child, row)
  {
    var pushable := CollectPushable(p.condition);
    assert Forwarded(p, []) == pushable by { assert [] + pushable == pushable; }
    AttachedScan(a.child, p.child, Pruned(store), pushable);
    WholeIsPlain(store);
    ChainPlain(p.child, Whole(store));
  }

  lemma ImpliedPrunes(k: Kernels, p: Plan, a: Plan, store: Store)
    requires p.Filter? && ColumnChain(p.child) && !Limited(p.child)
    requires IeeeConversion(k) && AnyComparisons(p) && Bare(a) == Bare(p) && Attached(a, []) && ImpliesForwarded(k, p)
    requires Truthful(store, p) && IntegralStore(p, store)
    ensures EvalPlan(k, Pruned(store), a) == EvalPlan(k, Whole(store), p)
  {
    hide EvalPlan, IeeeConversion, Truthful, IntegralStore, ImpliesForwarded, Holds, CollectPushable, Pruned, Whole,
      AnyComparisons, View, Bare, Attached, Scanned, TableOf;
    var view := row => View(k, p.child, row);
    var test := row => Holds(k, p.condition, view(row));
    BothScanned(k, p, a, store);
    PassingRead(k, p, store, test);
    FilteredView(k, Whole(store), p, test, view);
    FilteredView(k, Pruned(store), a, test, view);
  }

  lemma FilteredView(k: Kernels, tables: Tables, p: Plan, test: Row -> bool, view: Row -> Row)
    requires p.Filter? && ColumnChain(p.child) && !Limited(p.child)
    requires forall row :: view(row) == View(k, p.child, row)
    requires forall row :: test(row) == Holds(k, p.condition, view(row))
    ensures EvalPlan(k, tables, p) == Map(view, Select(test, Scanned(tables, p.child)))
  {
    ChainRows(k, tables, p.child);
    MapExt(row => View(k, p.child, row), view, Scanned(tables, p.child));
    SelectOfMap(r => Holds(k, p.condition, r), view, test, Scanned(tables, p.child));
  }

  lemma {:induction false} ChainTruthful(store: Store, p: Plan)
    requires ColumnChain(p) && Truthful(store, p)
    ensures Truthful(store, Scan(TableOf(p), FieldsOf(p), {}, []))
  {
    if !p.Scan? { ChainTruthful(store, p.child); }
  }

  /** A row that passes is in no group that is skipped. */
  lemma ImpliedKept(k: Kernels, p: Plan, store: Store, g: RowGroup, row: Row)
    requires IeeeConversion(k) && AnyComparisons(p) && ImpliesForwarded(k, p) && Truthful(store, p) && IntegralStore(p, store)
    requires g in store.file(TableOf(p.child)) && row in store.data(g) && Holds(k, p.condition, View(k, p.child, row))
    ensures !Skippable(g, CollectPushable(p.condition))
  {
    hide ProvesEmpty, Holds, View, CollectPushable, EvalBinary;
    var c, pushable := p.child, CollectPushable(p.condition);
    ChainTruthful(store, c);
    ChainSource(c);
    if Skippable(g, pushable) {
      var q :| q in pushable && q.column in g.statistics && ProvesEmpty(q, g.statistics[q.column]);
      var f :| f in FieldsOf(c) && f.name == q.column;
      var i :| 0 <= i < |FieldsOf(c)| && FieldsOf(c)[i] == f;
      assert IsField(ScanBelow(p), q.column) && NamedBy(p, i, q) && Integral(p, row);
      SmallLiterals(q.op, q.literal.i);
      ProvesEmptySound(k, q, g.statistics[q.column], row[i]);
    }
  }

  /** Over projections, pruning by any condition is right for every file of integers if and only
      if the condition implies what it forwards, read by name. */
  lemma ForwardingExact(k: Kernels, p: Plan, a: Plan)
    requires IeeeConversion(k) && AnyComparisons(p) && Bare(a) == Bare(p) && Attached(a, [])
    ensures RightForIntegers(k, p, a) <==> ImpliesForwarded(k, p)
  {
    hide EvalPlan, Truthful, IeeeConversion, Attached, Holds;
    if ImpliesForwarded(k, p) {
      forall store | Truthful(store, p) && IntegralStore(p, store)
        ensures EvalPlan(k, Pruned(store), a) == EvalPlan(k, Whole(store), p)
      {
        ImpliedPrunes(k, p, a, store);
      }
    } else {
      var row, i: nat, q :| Integral(p, row) && NamedBy(p, i, q) && Holds(k, p.condition, View(k, p.child, row))
        && EvalBinary(k, q.op, row[i], q.literal, Boolean) != Bool(true);
      LostRow(k, p, a, row, i, q);
    }
  }

  lemma LostRow(k: Kernels, p: Plan, a: Plan, row: Row, i: nat, q: PushablePredicate)
    requires AnyComparisons(p) && Bare(a) == Bare(p) && Attached(a, [])
    requires Integral(p, row) && NamedBy(p, i, q) && Holds(k, p.condition, View(k, p.child, row))
    requires EvalBinary(k, q.op, row[i], q.literal, Boolean) != Bool(true)
    ensures !RightForIntegers(k, p, a)
  {
    hide EvalPlan, Truthful, Attached, Holds, ProvesEmpty;
    var c := p.child;
    ChainSource(c);
    assert FieldsOf(c)[i] in FieldsOf(c) && IsField(ScanBelow(p), q.column);
    PassAndFail(k, q.op, q.literal.i, q);
    var y := if row[i].Int? then row[i].i else Failing(q.op, q.literal.i);
    if row[i].Int? {
      assert row[i] in row;
      FailingExcluded(k, q, y);
    }
    RuledOut(k, p, a, row, q, y);
    assert IntegralStore(p, OneRowStore(q.column, y, row));
  }

  // WHERE b > 10 AND c > 10 over a subquery SELECT a AS b, b AS c FROM t

  const A_AND_B := Scan("t", [Field("a", Int64), Field("b", Int64)], {}, [])
  const B_AND_C := [NamedExpr(Column("a", 0, Int64), "b"), NamedExpr(Column("b", 1, Int64), "c")]
  const B_OVER_TEN := Binary(Greater, Column("b", 0, Int64), Literal(Int(10), Int64), Boolean)
  const C_OVER_TEN := Binary(Greater, Column("c", 1, Int64), Literal(Int(10), Int64), Boolean)
  const BOTH_OVER_TEN := Filter(Project(A_AND_B, B_AND_C), Binary(And, B_OVER_TEN, C_OVER_TEN, Boolean))

  /** For a conjunction, being right does not take copies: here `b` is a copy of column `a`, yet
      the other conjunct makes sure that column `b` is over ten. */
  lemma ImpliedThoughNotCopied(k: Kernels, store: Store)
    ensures ColumnChain(BOTH_OVER_TEN.child) && ImpliesForwarded(k, BOTH_OVER_TEN) && !Resolvable(k, store, BOTH_OVER_TEN)
  {
    hide Holds, EvalBinary, CollectPushable, View, IsField, Carried, CopyOf, CastsTransparent;
    var p := BOTH_OVER_TEN;
    var c := p.child;
    assert ColumnChain(A_AND_B) && ColumnChain(c) && FieldsOf(A_AND_B) == A_AND_B.fields;
    BothForwarded();
    forall row, i: nat, q | Integral(p, row) && NamedBy(p, i, q) && Holds(k, p.condition, View(k, c, row))
      ensures EvalBinary(k, q.op, row[i], q.literal, Boolean) == Bool(true)
    {
      COverTen(k, row);
      assert i == 1 && q.op == Greater && q.literal == Int(10);
    }
    BNotCopied(c);
    assert PushedColumn(B_OVER_TEN) == Some(B_OVER_TEN.left);
    assert !Pushes(k, store, ScanBelow(c), Carried(c), B_OVER_TEN);
  }

  lemma BNotCopied(c: Plan)
    requires c == BOTH_OVER_TEN.child
    ensures IsField(ScanBelow(c), "b") && CopyOf(B_OVER_TEN.left, Carried(c)) == Some("a")
  {
    MapIndex((item: NamedExpr) => CopyOf(item.expr, Carried(A_AND_B)), B_AND_C);
    MapIndex((f: Field) => Some(f.name), A_AND_B.fields);
    assert A_AND_B.fields[1] in A_AND_B.fields;
  }

  lemma COverTen(k: Kernels, row: Row)
    requires |row| == 2 && Holds(k, BOTH_OVER_TEN.condition, View(k, BOTH_OVER_TEN.child, row))
    ensures EvalBinary(k, Greater, row[1], Int(10), Boolean) == Bool(true)
  {
    var view := View(k, BOTH_OVER_TEN.child, row);
    assert View(k, A_AND_B, row) == row;
    assert view == EvalItems(k, B_AND_C, row);
    MapIndex((item: NamedExpr) => Eval(k, item.expr, row), B_AND_C);
    assert Eval(k, C_OVER_TEN.left, view) == row[1] && Eval(k, C_OVER_TEN.right, view) == Int(10);
    assert Eval(k, BOTH_OVER_TEN.condition, view)
        == EvalBinary(k, And, Eval(k, B_OVER_TEN, view), Eval(k, C_OVER_TEN, view), Boolean);
  }

  lemma BothForwarded()
    ensures CollectPushable(BOTH_OVER_TEN.condition)
         == [Pushable("b", Greater, Int(10), Int64), Pushable("c", Greater, Int(10), Int64)]
  {
    assert CollectPushable(B_OVER_TEN) == [Pushable("b", Greater, Int(10), Int64)];
    assert CollectPushable(C_OVER_TEN) == [Pushable("c", Greater, Int(10), Int64)];
  }
}
