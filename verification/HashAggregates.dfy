/** The grouped aggregate operator (src/execution_gpu/hash_aggregate_operator.cpp): every batch
is reduced to a partial result, partial results are merged once they outgrow what has been
accumulated, and the last call finishes COUNT and AVG. */
module HashAggregates {
  import opened Expressions
  import opened Relational
  import opened Distinctness
  import opened Aggregation
  import opened JoinSemantics
  import opened LogicalPlans
  import opened Batches
  import opened PartialGroups
  import opened MaterializedExpressions

  // ---------------------------------------------------------------------------
  // Finishing: from reduced columns to SQL results
  // ---------------------------------------------------------------------------

  /** COUNT must not surface the NULL of an empty sum; AVG divides its two columns. */
  function FinishCall(k: Kernels, call: AggregateCall, values: Row): Value
    requires |values| >= |ColumnsOf(call)| && !call.func.CountDistinct?
  {
    match call.func
    case Avg => if values[1].Int? then Quotient(k, values[0], values[1].i) else Null
    case Count => if values[0].Null? then Int(0) else values[0]
    case CountStar => if values[0].Null? then Int(0) else values[0]
    case _ => values[0]
  }

  predicate NoDistinct(calls: seq<AggregateCall>)
  {
    forall call :: call in calls ==> !call.func.CountDistinct?
  }

  /** The results of all calls from the value columns laid out one call after another. */
  function FinishRow(k: Kernels, calls: seq<AggregateCall>, values: Row): (row: Row)
    requires NoDistinct(calls) && |values| == |Decompose(calls)|
    ensures |row| == |calls|
  {
    if calls == [] then []
    else
      assert calls[0] in calls;
      [FinishCall(k, calls[0], values)] + FinishRow(k, calls[1..], values[|ColumnsOf(calls[0])|..])
  }

  lemma FinishStep(k: Kernels, calls: seq<AggregateCall>, i: nat, values: Row, at: nat)
    requires NoDistinct(calls) && i < |calls| && at + |Decompose(calls[i..])| == |values|
    ensures !calls[i].func.CountDistinct? && NoDistinct(calls[i + 1..])
    ensures |Decompose(calls[i..])| == |ColumnsOf(calls[i])| + |Decompose(calls[i + 1..])|
    ensures FinishRow(k, calls[i..], values[at..])
         == [FinishCall(k, calls[i], values[at..])] + FinishRow(k, calls[i + 1..], values[at + |ColumnsOf(calls[i])|..])
  {
    assert calls[i] in calls;
    assert calls[i..][0] == calls[i] && calls[i..][1..] == calls[i + 1..];
    assert values[at..][|ColumnsOf(calls[i])|..] == values[at + |ColumnsOf(calls[i])|..];
  }

  /** The finishing loop of `next`, walking the calls and a running column index. */
  method FinishColumns(k: Kernels, calls: seq<AggregateCall>, values: Row) returns (row: Row)
    requires NoDistinct(calls) && |values| == |Decompose(calls)|
    ensures row == FinishRow(k, calls, values)
  {
    hide FinishRow, FinishCall, Decompose, ColumnsOf;
    row := [];
    var valueIndex: nat := 0;
    assert calls[0..] == calls && values[0..] == values;
    for i := 0 to |calls|
      invariant valueIndex + |Decompose(calls[i..])| == |values|
      invariant FinishRow(k, calls, values) == row + FinishRow(k, calls[i..], values[valueIndex..])
    {

      FinishStep(k, calls, i, values, valueIndex);
      row := row + [FinishCall(k, calls[i], values[valueIndex..])];
      valueIndex := valueIndex + |ColumnsOf(calls[i])|;
    }
  }

  lemma {:induction false} SumOfOnes(values: seq<Value>)
    ensures Reduce(SumOf, Map(v => OnesFor(v), values))
         == if ValidValues(values) == [] then Null else Int(|ValidValues(values)|)
  {
    if values != [] {
      assert values == [values[0]] + values[1..];
      MapAppend(v => OnesFor(v), [values[0]], values[1..]);
      assert Map(v => OnesFor(v), values)[1..] == Map(v => OnesFor(v), values[1..]);
      SelectCons((v: Value) => !v.Null?, values);
      SumOfOnes(values[1..]);
    }
  }

  lemma AllValid(values: seq<Value>)
    requires forall v :: v in values ==> !v.Null?
    ensures ValidValues(values) == values
  {
    SelectAll((v: Value) => !v.Null?, values);
  }

  /** What one value column of a group reduces to. */
  function Reduced(k: Kernels, c: ValueColumn, members: seq<Row>): Value
  {
    Reduce(c.reduction, Map(row => ValueOf(k, c, row), members))
  }

  lemma ReducedOnes(k: Kernels, argument: Expr, members: seq<Row>)
    ensures var valid := ValidValues(Map(row => Eval(k, argument, row), members));
            Reduced(k, ValueColumn(CountColumnOnes, argument, SumOf), members)
            == if valid == [] then Null else Int(|valid|)
  {
    var c := ValueColumn(CountColumnOnes, argument, SumOf);
    MapMap(v => OnesFor(v), row => Eval(k, argument, row), row => ValueOf(k, c, row), members);
    SumOfOnes(Map(row => Eval(k, argument, row), members));
  }

  lemma ReducedStars(k: Kernels, argument: Expr, members: seq<Row>)
    ensures Reduced(k, ValueColumn(CountStarOnes, argument, SumOf), members)
         == if members == [] then Null else Int(|members|)
  {
    var c := ValueColumn(CountStarOnes, argument, SumOf);
    var ones := Map(row => ValueOf(k, c, row), members);
    MapIndex(row => ValueOf(k, c, row), members);
    AllValid(ones);
    SumOfOnes(ones);
    MapIndex(v => OnesFor(v), ones);
    assert Map(v => OnesFor(v), ones) == ones;
  }

  /** The decomposed columns, finished, are the one-shot aggregate. */
  lemma FinishIsAggregate(k: Kernels, call: AggregateCall, members: seq<Row>, values: Row)
    requires !call.func.CountDistinct? && |values| >= |ColumnsOf(call)|
    requires forall j :: 0 <= j < |ColumnsOf(call)| ==> values[j] == Reduced(k, ColumnsOf(call)[j], members)
    ensures FinishCall(k, call, values) == Aggregate(k, call.func, CallValues(k, call, members))
  {
    var arguments := CallValues(k, call, members);
    MapIndex(row => Eval(k, call.argument, row), members);
    match call.func
    case Sum => MapExt(row => ValueOf(k, ColumnsOf(call)[0], row), row => Eval(k, call.argument, row), members);
    case Min => MapExt(row => ValueOf(k, ColumnsOf(call)[0], row), row => Eval(k, call.argument, row), members);
    case Max => MapExt(row => ValueOf(k, ColumnsOf(call)[0], row), row => Eval(k, call.argument, row), members);
    case CountStar => ReducedStars(k, call.argument, members);
    case Count => ReducedOnes(k, call.argument, members);
    case Avg =>
      MapExt(row => ValueOf(k, ColumnsOf(call)[0], row), row => Eval(k, call.argument, row), members);
      ReducedOnes(k, call.argument, members);
      assert values[1] == Reduced(k, ColumnsOf(call)[1], members);
      AverageOfNone(arguments);
  }

  lemma AverageOfNone(values: seq<Value>)
    ensures ValidValues(values) == [] ==> Reduce(SumOf, values).Null?
  {
    ReduceNull(SumOf, values);
    forall v | v in values && ValidValues(values) == [] ensures v.Null? {
      SelectMember((w: Value) => !w.Null?, values, v);
    }
  }

  lemma {:induction false} FinishIsResults(k: Kernels, calls: seq<AggregateCall>, members: seq<Row>, values: Row)
    requires NoDistinct(calls) && |values| == |Decompose(calls)|
    requires forall j :: 0 <= j < |values| ==> values[j] == Reduced(k, Decompose(calls)[j], members)
    ensures FinishRow(k, calls, values) == CallResults(k, calls, members)
  {
    hide Reduced, FinishCall;
    if calls != [] {
      var n := |ColumnsOf(calls[0])|;
      assert calls[0] in calls;
      forall j | 0 <= j < n ensures values[j] == Reduced(k, ColumnsOf(calls[0])[j], members) {
        assert Decompose(calls)[j] == ColumnsOf(calls[0])[j];
      }
      FinishIsAggregate(k, calls[0], members, values);
      forall j | 0 <= j < |values| - n ensures values[n..][j] == Reduced(k, Decompose(calls[1..])[j], members) {
        assert Decompose(calls)[n + j] == Decompose(calls[1..])[j];
      }
      FinishIsResults(k, calls[1..], members, values[n..]);
      assert calls == [calls[0]] + calls[1..];
      MapAppend((call: AggregateCall) => Aggregate(k, call.func, CallValues(k, call, members)), [calls[0]], calls[1..]);
    }
  }

  // ---------------------------------------------------------------------------
  // From input rows to the operator's tables
  // ---------------------------------------------------------------------------

  function ModeOf(calls: seq<AggregateCall>): Mode
  {
    if NoDistinct(calls) then ByGroup(Decompose(calls)) else DistinctPairs
  }

  /** The columns materialized for one input row. */
  function Materialize(k: Kernels, groupBy: seq<NamedExpr>, calls: seq<AggregateCall>, row: Row): (Row, Row)
  {
    (EvalItems(k, groupBy, row),
     if NoDistinct(calls) then Map((c: ValueColumn) => ValueOf(k, c, row), Decompose(calls))
     else Map((call: AggregateCall) => Eval(k, call.argument, row), calls))
  }

  function InputTable(k: Kernels, groupBy: seq<NamedExpr>, calls: seq<AggregateCall>, rows: seq<Row>): Table
  {
    Map(row => Materialize(k, groupBy, calls, row), rows)
  }

  // ---------------------------------------------------------------------------
  // Building the input columns
  // ---------------------------------------------------------------------------

  /** Every key and every argument that is read compiles; COUNT(*) reads none. */
  predicate Compiles(groupBy: seq<NamedExpr>, calls: seq<AggregateCall>)
  {
    && (forall item :: item in groupBy ==> Materializable(item.expr))
    && (forall call :: call in calls ==> call.func.CountStar? || Materializable(call.argument))
  }

  lemma {:induction false} DecomposedCompile(calls: seq<AggregateCall>, c: ValueColumn)
    requires Compiles([], calls) && c in Decompose(calls)
    ensures c.kind.CountStarOnes? || Computable(c.argument)
  {
    assert calls[0] in calls;
    if c in ColumnsOf(calls[0]) {
      if !calls[0].func.CountStar? { MaterializableComputable(calls[0].argument); }
    } else {
      DecomposedCompile(calls[1..], c);
    }
  }

  /** `materialize_value_column`, for one row. */
  method MaterializeValueColumn(k: Kernels, c: ValueColumn, row: Row) returns (value: Value)
    requires c.kind.CountStarOnes? || Computable(c.argument)
    ensures value == ValueOf(k, c, row)
  {
    match c.kind
    case Argument => value := MaterializeValue(k, c.argument, row);
    case CountStarOnes => value := Int(1);
    case CountColumnOnes =>
      value := MaterializeValue(k, c.argument, row);
      value := if value.Null? then Null else Int(1);
  }

  method MaterializeValues(k: Kernels, calls: seq<AggregateCall>, row: Row) returns (values: Row)
    requires Compiles([], calls) && (NoDistinct(calls) || |calls| == 1)
    ensures values == Materialize(k, [], calls, row).1
  {
    if NoDistinct(calls) {
      var columns := Decompose(calls);
      MapIndex((c: ValueColumn) => ValueOf(k, c, row), columns);
      values := [];
      for i := 0 to |columns|
        invariant |values| == i && forall j :: 0 <= j < i ==> values[j] == ValueOf(k, columns[j], row)
      {
        DecomposedCompile(calls, columns[i]);
        var value := MaterializeValueColumn(k, columns[i], row);
        values := values + [value];
      }
    } else {
      assert calls == [calls[0]] && calls[0] in calls;
      MaterializableComputable(calls[0].argument);
      var value := MaterializeValue(k, calls[0].argument, row);
      MapAppend((call: AggregateCall) => Eval(k, call.argument, row), [calls[0]], []);
      values := [value];
    }
  }

  /** `build_combined_columns`: the keys and value columns of a batch, row by row. */
  method BuildCombinedColumns(k: Kernels, groupBy: seq<NamedExpr>, calls: seq<AggregateCall>, rows: seq<Row>)
    returns (combined: Table)
    requires Compiles(groupBy, calls) && (NoDistinct(calls) || |calls| == 1)
    ensures combined == InputTable(k, groupBy, calls, rows)
  {
    hide Decompose, Computable, Materializable, EvalItems, ValueOf;
    forall item | item in groupBy ensures Computable(item.expr) {
      MaterializableComputable(item.expr);
    }
    MapIndex(row => Materialize(k, groupBy, calls, row), rows);
    combined := [];
    for i := 0 to |rows|
      invariant |combined| == i && forall j :: 0 <= j < i ==> combined[j] == Materialize(k, groupBy, calls, rows[j])
    {
      var keys := MaterializeItems(k, groupBy, rows[i]);
      var values := MaterializeValues(k, calls, rows[i]);
      combined := combined + [(keys, values)];
    }
  }

  lemma InputTableAppend(k: Kernels, groupBy: seq<NamedExpr>, calls: seq<AggregateCall>, a: seq<Row>, b: seq<Row>)
    ensures InputTable(k, groupBy, calls, a + b) == InputTable(k, groupBy, calls, a) + InputTable(k, groupBy, calls, b)
    ensures |InputTable(k, groupBy, calls, a)| == |a|
  {
    MapAppend(row => Materialize(k, groupBy, calls, row), a, b);
    MapIndex(row => Materialize(k, groupBy, calls, row), a);
  }

  /** The input's group keys are the projected GROUP BY columns. */
  lemma InputKeys(k: Kernels, groupBy: seq<NamedExpr>, calls: seq<AggregateCall>, rows: seq<Row>)
    ensures KeysOf(InputTable(k, groupBy, calls, rows)) == ProjectRows(k, groupBy, rows)
  {
    MapMap((r: (Row, Row)) => r.0, row => Materialize(k, groupBy, calls, row), row => EvalItems(k, groupBy, row), rows);
  }

  lemma InputGroup(k: Kernels, groupBy: seq<NamedExpr>, calls: seq<AggregateCall>, rows: seq<Row>, key: Row)
    ensures Select((r: (Row, Row)) => r.0 == key, InputTable(k, groupBy, calls, rows))
         == InputTable(k, groupBy, calls, GroupMembers(k, groupBy, rows, key))
  {
    SelectOfMap((r: (Row, Row)) => r.0 == key, row => Materialize(k, groupBy, calls, row),
                row => EvalItems(k, groupBy, row) == key, rows);
  }

  /** Each total of a group is that column reduced over the group's rows. */
  lemma InputTotal(k: Kernels, groupBy: seq<NamedExpr>, calls: seq<AggregateCall>, rows: seq<Row>, key: Row, i: nat)
    requires NoDistinct(calls) && i < |Decompose(calls)|
    ensures Total(Decompose(calls), InputTable(k, groupBy, calls, rows), key)[i]
         == Reduced(k, Decompose(calls)[i], GroupMembers(k, groupBy, rows, key))
  {
    var members := GroupMembers(k, groupBy, rows, key);
    InputGroup(k, groupBy, calls, rows, key);
    forall row | row in members
      ensures ValueOf(k, Decompose(calls)[i], row) == At(Materialize(k, groupBy, calls, row).1, i)
    {
      MapIndex((c: ValueColumn) => ValueOf(k, c, row), Decompose(calls));
    }
    MapMap((r: (Row, Row)) => At(r.1, i), row => Materialize(k, groupBy, calls, row),
           row => ValueOf(k, Decompose(calls)[i], row), members);
  }

  /** One output row. */
  function Finished(k: Kernels, calls: seq<AggregateCall>, entry: (Row, Row)): Row
    requires NoDistinct(calls)
  {
    entry.0 + if |entry.1| == |Decompose(calls)| then FinishRow(k, calls, entry.1) else []
  }

  /** Finishing the grouping of the whole input is the one-shot GROUP BY. */
  lemma FinishedGroups(k: Kernels, groupBy: seq<NamedExpr>, calls: seq<AggregateCall>, rows: seq<Row>)
    requires groupBy != [] && NoDistinct(calls)
    ensures Map((e: (Row, Row)) => Finished(k, calls, e), Grouping(k, Decompose(calls), InputTable(k, groupBy, calls, rows)))
         == GroupRows(k, groupBy, calls, rows)
  {
    hide Total, FinishRow, CallResults, GroupMembers, InputTable;
    var t := InputTable(k, groupBy, calls, rows);
    var result := (key: Row) => key + CallResults(k, calls, GroupMembers(k, groupBy, rows, key));
    var entry := (key: Row) => (key, Total(Decompose(calls), t, key));
    InputKeys(k, groupBy, calls, rows);
    forall key ensures Finished(k, calls, entry(key)) == result(key) {
      FinishedGroup(k, groupBy, calls, rows, key);
    }
    MapMap((e: (Row, Row)) => Finished(k, calls, e), entry, result, GroupKeys(k, t));
  }

  lemma FinishedGroup(k: Kernels, groupBy: seq<NamedExpr>, calls: seq<AggregateCall>, rows: seq<Row>, key: Row)
    requires NoDistinct(calls)
    ensures FinishRow(k, calls, Total(Decompose(calls), InputTable(k, groupBy, calls, rows), key))
         == CallResults(k, calls, GroupMembers(k, groupBy, rows, key))
  {
    hide Total, Reduced;
    var total := Total(Decompose(calls), InputTable(k, groupBy, calls, rows), key);
    var members := GroupMembers(k, groupBy, rows, key);
    forall j | 0 <= j < |total| ensures total[j] == Reduced(k, Decompose(calls)[j], members) {
      InputTotal(k, groupBy, calls, rows, key, j);
    }
    FinishIsResults(k, calls, members, total);
  }

  // ---------------------------------------------------------------------------
  // COUNT(DISTINCT ...)
  // ---------------------------------------------------------------------------

  /** The library's group-by count of non-NULL arguments. */
  function CountedGroups(k: Kernels, t: Table): seq<Row>
  {
    Map(key => key + [Int(|ValidValues(ColumnOf(t, key, 0))|)], GroupKeys(k, t))
  }

  method CountKernel(k: Kernels, t: Table) returns (rows: seq<Row>)
    ensures SameRows(rows, CountedGroups(k, t))
  {
    rows := CountedGroups(k, t);
  }

  lemma {:induction false} MapUnrepeated<A, B>(f: A -> B, s: seq<A>)
    requires Unrepeated(s) && forall x, y :: x in s && y in s && f(x) == f(y) ==> x == y
    ensures Unrepeated(Map(f, s))
  {
    if s != [] {
      UnrepeatedCons(s);
      MapUnrepeated(f, s[1..]);
      assert s == [s[0]] + s[1..];
      MapAppend(f, [s[0]], s[1..]);
      MapMember(f, s[1..], f(s[0]));
      assert Map(f, s)[1..] == Map(f, s[1..]);
      UnrepeatedCons(Map(f, s));
    }
  }

  lemma ColumnUnrepeated(t: Table, d: Table, key: Row)
    requires SameRows(d, Distinct(t)) && forall r :: r in t ==> |r.1| == 1
    ensures Unrepeated(ColumnOf(d, key, 0))
  {
    var mine := (r: (Row, Row)) => r.0 == key;
    var value := (r: (Row, Row)) => At(r.1, 0);
    DistinctUnrepeated(t);
    UnrepeatedOfSameRows(d, Distinct(t));
    SameRowsMembers(d, Distinct(t));
    SelectUnrepeated(mine, d);
    forall r | r in Select(mine, d) ensures r == (key, [value(r)]) {
      SelectMember(mine, d, r);
      DistinctMember(t, r);
      assert r.1 == [r.1[0]];
    }
    MapUnrepeated(value, Select(mine, d));
  }

  /** Once duplicates are gone, a plain count per group is the distinct count. */
  lemma DistinctCountOfGroup(k: Kernels, t: Table, d: Table, key: Row)
    requires SameRows(d, Distinct(t)) && forall r :: r in t ==> |r.1| == 1
    ensures |ValidValues(ColumnOf(d, key, 0))| == |set v | v in ColumnOf(t, key, 0) && !v.Null?|
  {
    hide ColumnOf, SameRows;
    ColumnUnrepeated(t, d, key);
    SelectUnrepeated((v: Value) => !v.Null?, ColumnOf(d, key, 0));
    UnrepeatedSize(ValidValues(ColumnOf(d, key, 0)));
    forall v ensures v in ValidValues(ColumnOf(d, key, 0)) <==> v in ColumnOf(t, key, 0) && !v.Null? {
      SelectMember((w: Value) => !w.Null?, ColumnOf(d, key, 0), v);
      ColumnMember(t, d, key, v);
    }
    assert (set v | v in ValidValues(ColumnOf(d, key, 0))) == (set v | v in ColumnOf(t, key, 0) && !v.Null?);
  }

  lemma ColumnMember(t: Table, d: Table, key: Row, v: Value)
    requires SameRows(d, Distinct(t))
    ensures v in ColumnOf(d, key, 0) <==> v in ColumnOf(t, key, 0)
  {
    var mine := (r: (Row, Row)) => r.0 == key;
    SameRowsMembers(d, Distinct(t));
    MapMember((r: (Row, Row)) => At(r.1, 0), Select(mine, d), v);
    MapMember((r: (Row, Row)) => At(r.1, 0), Select(mine, t), v);
    forall r ensures r in Select(mine, d) <==> r in Select(mine, t) {
      SelectMember(mine, d, r);
      SelectMember(mine, t, r);
      DistinctMember(t, r);
    }
  }

  /** Counting the distinct pairs of the whole input is the one-shot COUNT(DISTINCT). */
  lemma CountedDistinct(k: Kernels, groupBy: seq<NamedExpr>, call: AggregateCall, rows: seq<Row>, d: Table)
    requires groupBy != [] && call.func.CountDistinct?
    requires SameRows(d, Distinct(InputTable(k, groupBy, [call], rows)))
    ensures SameRows(CountedGroups(k, d), GroupRows(k, groupBy, [call], rows))
  {
    hide InputTable, GroupMembers, CallResults, ColumnOf, Distinct, SameRows, ValidValues;
    var t := InputTable(k, groupBy, [call], rows);
    SameKeys(k, t, d);
    InputKeys(k, groupBy, [call], rows);
    var keys := GroupKeys(k, t);
    var counted := (key: Row) => key + [Int(|ValidValues(ColumnOf(d, key, 0))|)];
    var results := (key: Row) => key + CallResults(k, [call], GroupMembers(k, groupBy, rows, key));
    forall key ensures counted(key) == results(key) {
      CountedOne(k, groupBy, call, rows, d, key);
    }
    MapExt(counted, results, keys);
    MapSameRows(counted, GroupKeys(k, d), keys);
  }

  lemma SameKeys(k: Kernels, t: Table, d: Table)
    requires SameRows(d, Distinct(t))
    ensures SameRows(GroupKeys(k, d), GroupKeys(k, t))
  {
    SameRowsMembers(d, Distinct(t));
    forall key ensures key in KeysOf(d) <==> key in KeysOf(t) {
      MapMember((r: (Row, Row)) => r.0, d, key);
      MapMember((r: (Row, Row)) => r.0, t, key);
      forall r ensures r in d <==> r in t { DistinctMember(t, r); }
    }
    DistinctSameRows(KeysOf(d), KeysOf(t));
    SelectSameRows(k.groupKept, Distinct(KeysOf(d)), Distinct(KeysOf(t)));
  }

  lemma CountedOne(k: Kernels, groupBy: seq<NamedExpr>, call: AggregateCall, rows: seq<Row>, d: Table, key: Row)
    requires call.func.CountDistinct? && SameRows(d, Distinct(InputTable(k, groupBy, [call], rows)))
    ensures [Int(|ValidValues(ColumnOf(d, key, 0))|)] == CallResults(k, [call], GroupMembers(k, groupBy, rows, key))
  {
    hide ValidValues, Distinct, SameRows;
    var t := InputTable(k, groupBy, [call], rows);
    var members := GroupMembers(k, groupBy, rows, key);
    assert call in [call];
    forall row ensures Materialize(k, groupBy, [call], row).1 == [Eval(k, call.argument, row)] {
      MapAppend((c: AggregateCall) => Eval(k, c.argument, row), [call], []);
    }
    forall r | r in t ensures |r.1| == 1 {
      MapMember(row => Materialize(k, groupBy, [call], row), rows, r);
    }
    DistinctCountOfGroup(k, t, d, key);
    InputGroup(k, groupBy, [call], rows, key);
    MapMap((r: (Row, Row)) => At(r.1, 0), row => Materialize(k, groupBy, [call], row),
           row => Eval(k, call.argument, row), members);
    MapAppend((c: AggregateCall) => Aggregate(k, c.func, CallValues(k, c, members)), [call], []);
  }

  // ---------------------------------------------------------------------------
  // The operator
  // ---------------------------------------------------------------------------

  /** The library's group-by, or its distinct over whole rows; it promises no order. */
  method SummaryKernel(k: Kernels, mode: Mode, rows: Table) returns (t: Table)
    ensures SameRows(t, Summary(k, mode, rows))
  {
    t := Summary(k, mode, rows);
  }

  datatype Outcome = Batch(rows: seq<Row>) | Exhausted | LimitExceeded

  class HashAggregateOperator {
    const k: Kernels
    const groupBy: seq<NamedExpr>
    const calls: seq<AggregateCall>
    const maxDistinctKeys: nat
    const child: BatchSource
    var mode: Mode
    var accumulated: Option<Table>
    var pending: seq<Table>
    var pendingRows: nat
    var anyBatchSeen: bool
    var produced: bool
    /** The input rows so far, split into those merged and those still pending. */
    ghost var seen: seq<Row>
    ghost var merged: Table
    ghost var waiting: seq<Table>
    /** Partial rows merged so far, and rows read by all merges so far. */
    ghost var mergedRows: nat
    ghost var touched: nat

    constructor (k: Kernels, groupBy: seq<NamedExpr>, calls: seq<AggregateCall>, maxDistinctKeys: nat,
                 child: BatchSource)
      requires groupBy != []
      ensures this.k == k && this.groupBy == groupBy && this.calls == calls
      ensures this.maxDistinctKeys == maxDistinctKeys && this.child == child
      ensures Untouched()
    {
      this.k, this.groupBy, this.calls, this.maxDistinctKeys, this.child := k, groupBy, calls, maxDistinctKeys, child;
      mode := DistinctPairs;
      accumulated, pending, pendingRows, anyBatchSeen, produced := None, [], 0, false, false;
      seen, merged, waiting, mergedRows, touched := [], [], [], 0, 0;
    }

    ghost predicate Untouched()
      reads this
    {
      && groupBy != [] && accumulated.None? && pending == [] && pendingRows == 0 && !anyBatchSeen && !produced
      && seen == [] && merged == [] && waiting == [] && mergedRows == 0 && touched == 0
    }

    /** What the operator holds stands for the rows it has seen. */
    ghost predicate Holds()
      reads this`mode, this`accumulated, this`pending, this`seen, this`merged, this`waiting
    {
      && Summarize(k, mode, pending, waiting)
      && InputTable(k, groupBy, calls, seen) == merged + Flatten(waiting)
      && (if accumulated.Some? then SameRows(accumulated.value, Summary(k, mode, merged)) else merged == [])
    }

    /** The running cost of the merges. */
    ghost predicate Paid()
      reads this
    {
      && pendingRows == |Flatten(pending)|
      && mergedRows + pendingRows <= |seen|
      && touched <= 2 * mergedRows
      && (if accumulated.Some? then |accumulated.value| <= mergedRows else mergedRows == 0)
    }

    ghost predicate Valid()
      reads this
    {
      && groupBy != [] && mode == ModeOf(calls) && (NoDistinct(calls) || |calls| == 1) && Compiles(groupBy, calls)
      && Holds() && Paid()
      && anyBatchSeen == accumulated.Some? && (accumulated.None? ==> pending == [] && seen == [])
      && (accumulated.Some? ==> |accumulated.value| <= maxDistinctKeys)
    }

    /** Fails exactly when a key or an argument does not compile, or a COUNT(DISTINCT) is
        combined with another aggregate. */
    method Open() returns (ok: bool)
      requires Untouched()
      modifies this`mode
      ensures ok <==> Compiles(groupBy, calls) && (NoDistinct(calls) || |calls| == 1)
      ensures ok ==> Valid() && seen == [] && !produced
    {
      for i := 0 to |groupBy|
        invariant forall item :: item in groupBy[..i] ==> Materializable(item.expr)
      {
        if !Materializable(groupBy[i].expr) {
          assert groupBy[i] in groupBy;
          return false;
        }
      }
      assert groupBy[..|groupBy|] == groupBy;
      for i := 0 to |calls|
        invariant forall call :: call in calls[..i] ==>
                    (!call.func.CountDistinct? || |calls| == 1) && (call.func.CountStar? || Materializable(call.argument))
      {
        if calls[i].func.CountDistinct? && |calls| != 1 {
          return false;
        }
        if !calls[i].func.CountStar? && !Materializable(calls[i].argument) {
          assert calls[i] in calls;
          return false;
        }
      }
      assert calls[..|calls|] == calls;
      mode := ModeOf(calls);
      InputTableAppend(k, groupBy, calls, [], []);
      return true;
    }

    ghost function AccumulatedRows(): nat
      reads this
    {
      if accumulated.Some? then |accumulated.value| else 0
    }

    /** Merge what is pending into what is accumulated; fails when that leaves too many keys. */
    method FlushPending() returns (ok: bool)
      requires Holds() && Paid()
      modifies this`accumulated, this`pending, this`pendingRows, this`merged, this`waiting, this`mergedRows, this`touched
      ensures Holds() && pending == [] && pendingRows == 0
      ensures accumulated.Some? <==> old(accumulated).Some? || old(pending) != []
      ensures mergedRows == old(mergedRows + pendingRows) && AccumulatedRows() <= mergedRows
      ensures touched == old(touched + if pending == [] then 0 else AccumulatedRows() + pendingRows)
      ensures if old(pending) == [] then ok && accumulated == old(accumulated)
              else ok <==> |accumulated.value| <= maxDistinctKeys
    {
      hide Summary, Flatten, InputTable, SameRows;
      FlattenNone();
      if pending == [] {
        return true;
      }
      ghost var inputs := (if accumulated.Some? then [merged] else []) + waiting;
      var tables := (if accumulated.Some? then [accumulated.value] else []) + pending;
      assert Summarize(k, mode, tables, inputs);
      Stacked(accumulated, pending, merged, waiting, tables, inputs);
      var t: Table;
      if accumulated.None? && |pending| == 1 {
        t := pending[0];
        FlattenOne(pending);
        FlattenOne(waiting);
        assert merged + Flatten(waiting) == waiting[0];
      } else {
        t := SummaryKernel(k, mode, Flatten(tables));
        MergedSummary(k, mode, tables, inputs, t);
      }
      accumulated := Some(t);
      touched := touched + |Flatten(tables)|;
      merged, waiting, mergedRows := merged + Flatten(waiting), [], mergedRows + pendingRows;
      pending, pendingRows := [], 0;
      assert merged + [] == merged;
      return |accumulated.value| <= maxDistinctKeys;
    }

    method ProcessBatch(rows: seq<Row>) returns (ok: bool)
      requires Valid()
      modifies this
      ensures seen == old(seen) + rows && produced == old(produced)
      ensures ok ==> Valid() && anyBatchSeen
      ensures !ok ==> |CountedKeys(k, mode, InputTable(k, groupBy, calls, seen))| > maxDistinctKeys && mode == old(mode)
    {
      hide Summary, Flatten, InputTable, SameRows, CountedKeys, Summarize, Compiles, NoDistinct, ModeOf;
      anyBatchSeen := true;
      var combined := BuildCombinedColumns(k, groupBy, calls, rows);
      var partial := SummaryKernel(k, mode, combined);
      PartialSize(k, mode, combined, partial);
      InputTableAppend(k, groupBy, calls, rows, []);
      InputTableAppend(k, groupBy, calls, seen, rows);
      FlattenSnoc(pending, partial);
      FlattenSnoc(waiting, combined);
      SummarizeSnoc(k, mode, pending, waiting, partial, combined);
      pendingRows := pendingRows + |partial|;
      pending := pending + [partial];
      waiting, seen := waiting + [combined], seen + rows;
      ok := true;
      if accumulated.None? || pendingRows >= |accumulated.value| {
        ok := FlushPending();
        FlattenNone();
        SeenSummary();
      }
    }

    lemma SeenSummary()
      requires Holds() && pending == [] && accumulated.Some?
      ensures |accumulated.value| == |CountedKeys(k, mode, InputTable(k, groupBy, calls, seen))|
    {
      assert merged + Flatten(waiting) == merged;
      SameRowsLength(accumulated.value, Summary(k, mode, merged));
      SummarySize(k, mode, merged);
    }

    /** The rows of the final batch. */
    method Finish() returns (rows: seq<Row>)
      requires groupBy != [] && mode == ModeOf(calls) && (NoDistinct(calls) || |calls| == 1)
      requires Holds() && pending == [] && accumulated.Some?
      ensures SameRows(rows, GroupRows(k, groupBy, calls, seen))
    {
      hide Flatten, InputTable, GroupRows, Grouping, Distinct, CountedGroups, SameRows;
      FlattenNone();
      assert merged + [] == merged;
      if !NoDistinct(calls) {
        rows := CountKernel(k, accumulated.value);
        DistinctResult(k, groupBy, calls, seen, accumulated.value, rows);
        return;
      }
      rows := [];
      for i := 0 to |accumulated.value|
        invariant rows == Map((e: (Row, Row)) => Finished(k, calls, e), accumulated.value[..i])
      {
        var entry := accumulated.value[i];
        EntryWidth(k, groupBy, calls, seen, accumulated.value, entry);
        var results := FinishColumns(k, calls, entry.1);
        assert accumulated.value[..i + 1] == accumulated.value[..i] + [entry];
        MapAppend((e: (Row, Row)) => Finished(k, calls, e), accumulated.value[..i], [entry]);
        MapAppend((e: (Row, Row)) => Finished(k, calls, e), [entry], []);
        rows := rows + [entry.0 + results];
      }
      assert accumulated.value[..|accumulated.value|] == accumulated.value;
      GroupedResult(k, groupBy, calls, seen, accumulated.value, rows);
    }

    /** Feed every batch of the child to `ProcessBatch`. */
    method DrainChild() returns (ok: bool)
      requires Valid() && seen == []
      modifies this, child
      ensures ok ==> Valid() && seen == old(Flatten(child.pending)) && produced == old(produced)
      ensures !ok ==> |CountedKeys(k, ModeOf(calls), InputTable(k, groupBy, calls, old(Flatten(child.pending))))| > maxDistinctKeys
    {
      hide Summary, InputTable, SameRows, CountedKeys, Holds, Paid;
      ghost var all := Flatten(child.pending);
      var batch := child.Next();
      while batch.Some?
        invariant Valid() && produced == old(produced)
        invariant batch.None? ==> seen == all
        invariant batch.Some? ==> seen + batch.value + Flatten(child.pending) == all
        decreases batch.Some?, |child.pending|
      {
        ok := ProcessBatch(batch.value);
        if !ok {
          InputTableAppend(k, groupBy, calls, seen, Flatten(child.pending));
          CountedKeysGrow(k, mode, InputTable(k, groupBy, calls, seen),
                          InputTable(k, groupBy, calls, Flatten(child.pending)));
          return;
        }
        batch := child.Next();
      }
      ok := true;
    }

    /** One batch with the whole result, then nothing. The limit is exceeded exactly when the
        whole input has too many keys, wherever the batch boundaries fall; and all merges
        together read at most three times the partial rows, hence at most three times the input. */
    method Next() returns (outcome: Outcome)
      requires produced || (Valid() && seen == [])
      modifies this, child
      ensures outcome.Exhausted? <==> old(produced)
      ensures !old(produced) ==>
        var rows := old(Flatten(child.pending));
        && (outcome.LimitExceeded? <==> |CountedKeys(k, ModeOf(calls), InputTable(k, groupBy, calls, rows))| > maxDistinctKeys)
        && (outcome.Batch? ==> SameRows(outcome.rows, GroupRows(k, groupBy, calls, rows)))
        && (outcome.Batch? ==> touched <= 3 * mergedRows && mergedRows <= |rows|)
      ensures !outcome.LimitExceeded? ==> produced
    {
      hide Summary, InputTable, SameRows, CountedKeys, Holds, GroupRows, Flatten;
      if produced {
        return Exhausted;
      }
      var ok := DrainChild();
      if !ok {
        return LimitExceeded;
      }
      ok := FlushPending();
      if accumulated.Some? {
        SeenSummary();
      }
      if !ok {
        return LimitExceeded;
      }
      produced := true;
      if !anyBatchSeen {
        EmptyInput(k, groupBy, calls);
        return Batch([]);
      }
      var rows := Finish();
      return Batch(rows);
    }
  }

  lemma FlattenNone()
    ensures Flatten<(Row, Row)>([]) == []
  {
  }

  lemma FlattenOne(tables: seq<Table>)
    requires |tables| == 1
    ensures Flatten(tables) == tables[0]
  {
    assert tables == [tables[0]] + [];
    FlattenPrepend(tables[0], []);
  }

  /** The tables to merge hold the accumulated and the pending rows, in that order. */
  lemma Stacked(accumulated: Option<Table>, pending: seq<Table>, merged: Table, waiting: seq<Table>,
                tables: seq<Table>, inputs: seq<Table>)
    requires tables == (if accumulated.Some? then [accumulated.value] else []) + pending
    requires inputs == (if accumulated.Some? then [merged] else []) + waiting
    requires accumulated.None? ==> merged == []
    ensures |Flatten(tables)| == (if accumulated.Some? then |accumulated.value| else 0) + |Flatten(pending)|
    ensures Flatten(inputs) == merged + Flatten(waiting)
  {
    if accumulated.Some? {
      FlattenPrepend(accumulated.value, pending);
      FlattenPrepend(merged, waiting);
    } else {
      assert tables == pending && inputs == waiting;
    }
  }

  lemma MergedSummary(k: Kernels, mode: Mode, tables: seq<Table>, inputs: seq<Table>, t: Table)
    requires Summarize(k, mode, tables, inputs) && SameRows(t, Summary(k, mode, Flatten(tables)))
    ensures SameRows(t, Summary(k, mode, Flatten(inputs))) && |t| <= |Flatten(tables)|
  {
    SummaryOfSummaries(k, mode, tables, inputs);
    SameRowsLength(t, Summary(k, mode, Flatten(tables)));
    SummarySize(k, mode, Flatten(tables));
  }

  lemma SummarizeSnoc(k: Kernels, mode: Mode, tables: seq<Table>, inputs: seq<Table>, t: Table, input: Table)
    requires Summarize(k, mode, tables, inputs) && SameRows(t, Summary(k, mode, input))
    ensures Summarize(k, mode, tables + [t], inputs + [input])
  {
  }

  lemma PartialSize(k: Kernels, mode: Mode, rows: Table, t: Table)
    requires SameRows(t, Summary(k, mode, rows))
    ensures |t| <= |rows|
  {
    SameRowsLength(t, Summary(k, mode, rows));
    SummarySize(k, mode, rows);
  }

  lemma EntryWidth(k: Kernels, groupBy: seq<NamedExpr>, calls: seq<AggregateCall>, rows: seq<Row>, t: Table,
                   entry: (Row, Row))
    requires NoDistinct(calls) && entry in t
    requires SameRows(t, Grouping(k, Decompose(calls), InputTable(k, groupBy, calls, rows)))
    ensures |entry.1| == |Decompose(calls)|
  {
    var input := InputTable(k, groupBy, calls, rows);
    SameRowsMembers(t, Grouping(k, Decompose(calls), input));
    MapMember(key => (key, Total(Decompose(calls), input, key)), GroupKeys(k, input), entry);
  }

  lemma GroupedResult(k: Kernels, groupBy: seq<NamedExpr>, calls: seq<AggregateCall>, rows: seq<Row>, t: Table,
                      result: seq<Row>)
    requires groupBy != [] && NoDistinct(calls)
    requires SameRows(t, Grouping(k, Decompose(calls), InputTable(k, groupBy, calls, rows)))
    requires result == Map((e: (Row, Row)) => Finished(k, calls, e), t)
    ensures SameRows(result, GroupRows(k, groupBy, calls, rows))
  {
    FinishedGroups(k, groupBy, calls, rows);
    MapSameRows((e: (Row, Row)) => Finished(k, calls, e), t,
                Grouping(k, Decompose(calls), InputTable(k, groupBy, calls, rows)));
  }

  lemma DistinctResult(k: Kernels, groupBy: seq<NamedExpr>, calls: seq<AggregateCall>, rows: seq<Row>, t: Table,
                       result: seq<Row>)
    requires groupBy != [] && !NoDistinct(calls) && |calls| == 1
    requires SameRows(t, Distinct(InputTable(k, groupBy, calls, rows))) && SameRows(result, CountedGroups(k, t))
    ensures SameRows(result, GroupRows(k, groupBy, calls, rows))
  {
    hide SameRows, GroupRows, CountedGroups, InputTable, Distinct;
    assert calls == [calls[0]];
    CountedDistinct(k, groupBy, calls[0], rows, t);
    SameRowsTrans(result, CountedGroups(k, t), GroupRows(k, groupBy, calls, rows));
  }

  lemma EmptyInput(k: Kernels, groupBy: seq<NamedExpr>, calls: seq<AggregateCall>)
    ensures |CountedKeys(k, ModeOf(calls), InputTable(k, groupBy, calls, []))| == 0
    ensures groupBy != [] ==> SameRows([], GroupRows(k, groupBy, calls, []))
  {
    InputTableAppend(k, groupBy, calls, [], []);
    SummarySize(k, ModeOf(calls), []);
    assert ProjectRows(k, groupBy, []) == [];
    assert Select(k.groupKept, []) == [];
  }

  /** A whole run: open, then take the one batch. None when an expression does not compile, when
      COUNT(DISTINCT) is combined with another aggregate, or when there are too many keys. */
  method RunHashAggregate(k: Kernels, groupBy: seq<NamedExpr>, calls: seq<AggregateCall>, maxDistinctKeys: nat,
                          child: BatchSource)
    returns (result: Option<seq<Row>>)
    requires groupBy != []
    modifies child
    ensures result.Some? <==>
      && Compiles(groupBy, calls) && (NoDistinct(calls) || |calls| == 1)
      && |CountedKeys(k, ModeOf(calls), InputTable(k, groupBy, calls, old(Flatten(child.pending))))| <= maxDistinctKeys
    ensures result.Some? ==> SameRows(result.value, GroupRows(k, groupBy, calls, old(Flatten(child.pending))))
  {
    hide CountedKeys, InputTable, GroupRows, SameRows, Flatten;
    var aggregate := new HashAggregateOperator(k, groupBy, calls, maxDistinctKeys, child);
    var ok := aggregate.Open();
    if !ok {
      return None;
    }
    var outcome := aggregate.Next();
    match outcome {
      case Batch(rows) => return Some(rows);
      case LimitExceeded => return None;
    }
  }
}
