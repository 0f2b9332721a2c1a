/** Logical plans and the rows they produce. */
module LogicalPlans {
  import opened Expressions
  import opened Relational
  import opened Distinctness
  import opened Aggregation
  import opened JoinSemantics

  datatype Field = Field(name: string, typ: TypeId)

  datatype NamedExpr = NamedExpr(expr: Expr, name: string)

  /** `argument` is ignored by COUNT(*). */
  datatype AggregateCall = AggregateCall(func: AggregateFunction, argument: Expr, name: string)

  datatype SortKey = SortKey(expr: Expr, ascending: bool)

  /** `column op literal`, a conjunct storage pruning can use. */
  datatype PushablePredicate = Pushable(column: string, op: BinaryOp, literal: Value, literalType: TypeId)

  datatype Plan =
    | Scan(table: string, fields: seq<Field>, required: set<string>, pushable: seq<PushablePredicate>)
    | Join(left: Plan, right: Plan, leftKey: nat, rightKey: nat, joinType: JoinType, residual: Option<Expr>)
    | Filter(child: Plan, condition: Expr)
    | Project(child: Plan, items: seq<NamedExpr>)
    | Group(child: Plan, groupBy: seq<NamedExpr>, calls: seq<AggregateCall>)
    | Sort(child: Plan, keys: seq<SortKey>)
    | Limit(child: Plan, count: int)

  /** The rows a scan delivers, given its table and the predicates attached to it. */
  type Tables = (string, seq<PushablePredicate>) -> seq<Row>

  /** Scans deliver whole tables, whatever predicates are attached to them. */
  ghost predicate Plain(tables: Tables)
  {
    forall table, pushable :: tables(table, pushable) == tables(table, [])
  }

  function Width(p: Plan): nat
  {
    match p
    case Scan(_, fields, _, _) => |fields|
    case Join(l, r, _, _, jt, _) => if jt.LeftSemi? || jt.LeftAnti? then Width(l) else Width(l) + Width(r)
    case Filter(c, _) => Width(c)
    case Project(_, items) => |items|
    case Group(_, groupBy, calls) => |groupBy| + |calls|
    case Sort(c, _) => Width(c)
    case Limit(c, _) => Width(c)
  }

  function SpecOf(p: Plan): JoinSpec
    requires p.Join?
  {
    JoinSpec(p.joinType, p.leftKey, p.rightKey, Width(p.right), p.residual)
  }

  // ---------------------------------------------------------------------------
  // Row-level operators
  // ---------------------------------------------------------------------------

  function FilterRows(k: Kernels, condition: Expr, rows: seq<Row>): seq<Row>
  {
    Select(row => Holds(k, condition, row), rows)
  }

  function EvalItems(k: Kernels, items: seq<NamedExpr>, row: Row): Row
  {
    Map((item: NamedExpr) => Eval(k, item.expr, row), items)
  }

  function ProjectRows(k: Kernels, items: seq<NamedExpr>, rows: seq<Row>): seq<Row>
  {
    Map(row => EvalItems(k, items, row), rows)
  }

  function TakeRows(n: int, rows: seq<Row>): seq<Row>
  {
    if n <= 0 then [] else if n < |rows| then rows[..n] else rows
  }

  function SortValues(k: Kernels, keys: seq<SortKey>, row: Row): Row
  {
    Map((key: SortKey) => Eval(k, key.expr, row), keys)
  }

  function Directions(keys: seq<SortKey>): seq<bool>
  {
    Map((key: SortKey) => key.ascending, keys)
  }

  /** The library's sort, which only ever permutes its input. */
  function SortRows(k: Kernels, keys: seq<SortKey>, rows: seq<Row>): (sorted: seq<Row>)
    ensures SameRows(sorted, rows)
  {
    var decorated := Map(row => (SortValues(k, keys, row), row), rows);
    var sorted := k.sort(decorated, Directions(keys));
    if multiset(sorted) == multiset(rows) then sorted else rows
  }

  function CallValues(k: Kernels, call: AggregateCall, rows: seq<Row>): seq<Value>
  {
    Map(row => Eval(k, call.argument, row), rows)
  }

  function CallResults(k: Kernels, calls: seq<AggregateCall>, rows: seq<Row>): Row
  {
    Map((call: AggregateCall) => Aggregate(k, call.func, CallValues(k, call, rows)), calls)
  }

  function GroupMembers(k: Kernels, groupBy: seq<NamedExpr>, rows: seq<Row>, key: Row): seq<Row>
  {
    Select(row => EvalItems(k, groupBy, row) == key, rows)
  }

  /** One row per group; with no GROUP BY exactly one row, even over no input. */
  function GroupRows(k: Kernels, groupBy: seq<NamedExpr>, calls: seq<AggregateCall>, rows: seq<Row>): seq<Row>
  {
    if groupBy == [] then [CallResults(k, calls, rows)]
    else
      Map(key => key + CallResults(k, calls, GroupMembers(k, groupBy, rows, key)),
          Select(k.groupKept, Distinct(ProjectRows(k, groupBy, rows))))
  }

  /** The rows a plan produces, in order. */
  function EvalPlan(k: Kernels, tables: Tables, p: Plan): seq<Row>
  {
    match p
    case Scan(table, _, _, pushable) => tables(table, pushable)
    case Join(l, r, _, _, _, _) => JoinRows(k, SpecOf(p), EvalPlan(k, tables, l), EvalPlan(k, tables, r))
    case Filter(c, condition) => FilterRows(k, condition, EvalPlan(k, tables, c))
    case Project(c, items) => ProjectRows(k, items, EvalPlan(k, tables, c))
    case Group(c, groupBy, calls) => GroupRows(k, groupBy, calls, EvalPlan(k, tables, c))
    case Sort(c, keys) => SortRows(k, keys, EvalPlan(k, tables, c))
    case Limit(c, n) => TakeRows(n, EvalPlan(k, tables, c))
  }

  // ---------------------------------------------------------------------------
  // Widths
  // ---------------------------------------------------------------------------

  /** Every scanned table has rows as wide as its schema. */
  ghost predicate Conforms(tables: Tables, p: Plan)
  {
    match p
    case Scan(table, fields, _, pushable) => AllWidth(tables(table, pushable), |fields|)
    case Join(l, r, _, _, _, _) => Conforms(tables, l) && Conforms(tables, r)
    case Filter(c, _) => Conforms(tables, c)
    case Project(c, _) => Conforms(tables, c)
    case Group(c, _, _) => Conforms(tables, c)
    case Sort(c, _) => Conforms(tables, c)
    case Limit(c, _) => Conforms(tables, c)
  }

  lemma JoinRowsWidth(k: Kernels, spec: JoinSpec, left: seq<Row>, right: seq<Row>, n: nat)
    requires AllWidth(left, n) && AllWidth(right, spec.rightWidth)
    ensures AllWidth(JoinRows(k, spec, left, right),
                     if spec.joinType.LeftSemi? || spec.joinType.LeftAnti? then n else n + spec.rightWidth)
  {
    forall o | o in JoinRows(k, spec, left, right)
      ensures |o| == if spec.joinType.LeftSemi? || spec.joinType.LeftAnti? then n else n + spec.rightWidth
    {
      FlatMapMember(l => JoinOne(k, spec, l, right), left, o);
      var l :| l in left && o in JoinOne(k, spec, l, right);
      JoinOneShape(k, spec, l, right, o);
    }
  }

  lemma ProjectRowsWidth(k: Kernels, items: seq<NamedExpr>, rows: seq<Row>)
    ensures AllWidth(ProjectRows(k, items, rows), |items|)
  {
    forall o | o in ProjectRows(k, items, rows) ensures |o| == |items| {
      MapMember(row => EvalItems(k, items, row), rows, o);
      var row :| row in rows && o == EvalItems(k, items, row);
      MapIndex((item: NamedExpr) => Eval(k, item.expr, row), items);
    }
  }

  lemma CallResultsWidth(k: Kernels, calls: seq<AggregateCall>, rows: seq<Row>)
    ensures |CallResults(k, calls, rows)| == |calls|
  {
    MapIndex((call: AggregateCall) => Aggregate(k, call.func, CallValues(k, call, rows)), calls);
  }

  lemma GroupRowsWidth(k: Kernels, groupBy: seq<NamedExpr>, calls: seq<AggregateCall>, rows: seq<Row>)
    ensures AllWidth(GroupRows(k, groupBy, calls, rows), |groupBy| + |calls|)
  {
    if groupBy == [] {
      CallResultsWidth(k, calls, rows);
    } else {
      var all := ProjectRows(k, groupBy, rows);
      var keys := Select(k.groupKept, Distinct(all));
      var f := (key: Row) => key + CallResults(k, calls, GroupMembers(k, groupBy, rows, key));
      forall o | o in Map(f, keys) ensures |o| == |groupBy| + |calls| {
        MapMember(f, keys, o);
        var key :| key in keys && o == f(key);
        SelectMember(k.groupKept, Distinct(all), key);
        DistinctMember(all, key);
        ProjectRowsWidth(k, groupBy, rows);
        CallResultsWidth(k, calls, GroupMembers(k, groupBy, rows, key));
      }
    }
  }

  lemma {:induction false} EvalPlanWidth(k: Kernels, tables: Tables, p: Plan)
    requires Conforms(tables, p)
    ensures AllWidth(EvalPlan(k, tables, p), Width(p))
  {
    match p
    case Scan(_, _, _, _) =>
    case Join(l, r, _, _, _, _) =>
      EvalPlanWidth(k, tables, l);
      EvalPlanWidth(k, tables, r);
      JoinRowsWidth(k, SpecOf(p), EvalPlan(k, tables, l), EvalPlan(k, tables, r), Width(l));
    case Filter(c, condition) =>
      EvalPlanWidth(k, tables, c);
      forall row | row in EvalPlan(k, tables, p) ensures row in EvalPlan(k, tables, c) {
        SelectMember(row => Holds(k, condition, row), EvalPlan(k, tables, c), row);
      }
    case Project(c, items) => ProjectRowsWidth(k, items, EvalPlan(k, tables, c));
    case Group(c, groupBy, calls) => GroupRowsWidth(k, groupBy, calls, EvalPlan(k, tables, c));
    case Sort(c, keys) =>
      EvalPlanWidth(k, tables, c);
      SameRowsMembers(EvalPlan(k, tables, p), EvalPlan(k, tables, c));
    case Limit(c, _) => EvalPlanWidth(k, tables, c);
  }
}
