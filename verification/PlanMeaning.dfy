/** What each node of a plan does to the rows below it, in terms of the node's own parts. */
module PlanMeaning {
  import opened Expressions
  import opened Relational
  import opened Aggregation
  import opened JoinSemantics
  import opened JoinMeaning
  import opened LogicalPlans
  import opened SortOrder
  import opened AggregateMeaning
  import opened ExpressionMeaning

  /** The left key is read in the left row and the right key in the right row. */
  lemma JoinNode(k: Kernels, tables: Tables, p: Plan, o: Row)
    requires p.Join? && p.joinType.Inner? && p.residual.None? && Conforms(tables, p)
    requires p.leftKey < Width(p.left) && p.rightKey < Width(p.right)
    ensures o in EvalPlan(k, tables, p) <==>
      exists l, r :: l in EvalPlan(k, tables, p.left) && r in EvalPlan(k, tables, p.right)
                  && p.leftKey < |l| && p.rightKey < |r| && l[p.leftKey] == r[p.rightKey] && o == l + r
  {
    var left, right := EvalPlan(k, tables, p.left), EvalPlan(k, tables, p.right);
    EvalPlanWidth(k, tables, p.left);
    EvalPlanWidth(k, tables, p.right);
    JoinMeans(k, SpecOf(p), left, right, EvalPlan(k, tables, p));
    InnerJoinRows(k, SpecOf(p), left, right, EvalPlan(k, tables, p), o);
    assert forall l, r :: Together(k, SpecOf(p), l, r) <==>
      p.leftKey < |l| && p.rightKey < |r| && l[p.leftKey] == r[p.rightKey];
  }

  /** A join of any type, row by row. */
  lemma JoinNodeCounted(k: Kernels, tables: Tables, p: Plan)
    requires p.Join? && Conforms(tables, p) && p.leftKey < Width(p.left) && p.rightKey < Width(p.right)
    ensures IsJoin(k, JoinSpec(p.joinType, p.leftKey, p.rightKey, Width(p.right), p.residual),
                   EvalPlan(k, tables, p.left), EvalPlan(k, tables, p.right), EvalPlan(k, tables, p))
  {
    EvalPlanWidth(k, tables, p.left);
    EvalPlanWidth(k, tables, p.right);
    JoinMeans(k, SpecOf(p), EvalPlan(k, tables, p.left), EvalPlan(k, tables, p.right), EvalPlan(k, tables, p));
  }

  /** A select list computes its items, in order, on every row. */
  lemma ProjectNode(k: Kernels, tables: Tables, p: Plan, i: nat, j: nat)
    requires p.Project? && i < |EvalPlan(k, tables, p.child)| && j < |p.items|
    ensures |EvalPlan(k, tables, p)| == |EvalPlan(k, tables, p.child)| && |EvalPlan(k, tables, p)[i]| == |p.items|
    ensures EvalPlan(k, tables, p)[i][j] == Eval(k, p.items[j].expr, EvalPlan(k, tables, p.child)[i])
  {
    var rows := EvalPlan(k, tables, p.child);
    MapIndex(row => EvalItems(k, p.items, row), rows);
    MapIndex((item: NamedExpr) => Eval(k, item.expr, rows[i]), p.items);
  }

  /** WHERE and HAVING keep the rows on which their condition is TRUE. */
  lemma FilterNode(k: Kernels, tables: Tables, p: Plan, row: Row)
    requires p.Filter?
    ensures KeepsWhen(EvalPlan(k, tables, p), EvalPlan(k, tables, p.child), row, Eval(k, p.condition, row) == Bool(true))
  {
    WhereKeeps(k, p.condition, EvalPlan(k, tables, p.child), row);
  }

  /** An aggregation with keys has one row for each group. */
  lemma GroupNode(k: Kernels, tables: Tables, p: Plan, out: Row)
    requires p.Group? && p.groupBy != [] && out in EvalPlan(k, tables, p)
    ensures IsGroup(k, p.groupBy, p.calls, EvalPlan(k, tables, p.child), out)
  {
    hide IsGroup;
    GroupByMeans(k, p.groupBy, p.calls, EvalPlan(k, tables, p.child));
  }

  /** Without keys it has exactly one row, even over no rows, with each aggregate over all of them. */
  lemma WholeNode(k: Kernels, tables: Tables, p: Plan)
    requires p.Group? && p.groupBy == []
    ensures |EvalPlan(k, tables, p)| == 1 && |EvalPlan(k, tables, p)[0]| == |p.calls|
    ensures forall c :: 0 <= c < |p.calls| ==>
      EvalPlan(k, tables, p)[0][c]
      == Aggregate(k, p.calls[c].func, ColumnValues(k, p.calls[c].argument, EvalPlan(k, tables, p.child)))
  {
    var rows := EvalPlan(k, tables, p.child);
    MapIndex((call: AggregateCall) => Aggregate(k, call.func, CallValues(k, call, rows)), p.calls);
    forall c | 0 <= c < |p.calls| ensures CallValues(k, p.calls[c], rows) == ColumnValues(k, p.calls[c].argument, rows) {
      ValuesInOrder(k, p.calls[c], rows);
    }
  }

  /** The values of an expression on all rows, in order. */
  function ColumnValues(k: Kernels, e: Expr, rows: seq<Row>): seq<Value>
  {
    seq(|rows|, i requires 0 <= i < |rows| => Eval(k, e, rows[i]))
  }

  lemma ValuesInOrder(k: Kernels, call: AggregateCall, rows: seq<Row>)
    ensures CallValues(k, call, rows) == ColumnValues(k, call.argument, rows)
  {
    MapIndex(row => Eval(k, call.argument, row), rows);
  }

  /** ORDER BY rearranges its rows into the order asked for, and LIMIT takes the first of them. */
  lemma SortAndLimitNodes(k: Kernels, tables: Tables, c: Plan, keys: seq<SortKey>, n: nat)
    requires LibrarySorts(k)
    ensures var sorted, rows := EvalPlan(k, tables, Sort(c, keys)), EvalPlan(k, tables, c);
            multiset(sorted) == multiset(rows) && OrderedBy(k, keys, sorted)
    ensures var limited, rows := EvalPlan(k, tables, Limit(c, n)), EvalPlan(k, tables, c);
            limited <= rows && |limited| == if n < |rows| then n else |rows|
  {
    hide OrderedBy, SortRows;
    SortRowsOrdered(k, keys, EvalPlan(k, tables, c));
  }
}
