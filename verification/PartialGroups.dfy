/** Partial group-by results and why merging them is sound: the value columns each SQL
aggregate is decomposed into, the library's group-by over them, and the law that grouping
the concatenation of partial groupings is grouping the rows themselves. */
module PartialGroups {
  import opened Expressions
  import opened Relational
  import opened Distinctness
  import opened Aggregation
  import opened JoinSemantics
  import opened LogicalPlans

  // ---------------------------------------------------------------------------
  // Decomposing aggregates into reduced columns
  // ---------------------------------------------------------------------------

  datatype ValueKind = Argument | CountStarOnes | CountColumnOnes

  datatype ValueColumn = ValueColumn(kind: ValueKind, argument: Expr, reduction: Reduction)

  /** COUNT is a SUM of ones, AVG a SUM beside a COUNT. */
  function ColumnsOf(call: AggregateCall): seq<ValueColumn>
  {
    match call.func
    case Sum => [ValueColumn(Argument, call.argument, SumOf)]
    case Min => [ValueColumn(Argument, call.argument, MinOf)]
    case Max => [ValueColumn(Argument, call.argument, MaxOf)]
    case CountStar => [ValueColumn(CountStarOnes, call.argument, SumOf)]
    case Count => [ValueColumn(CountColumnOnes, call.argument, SumOf)]
    case Avg => [ValueColumn(Argument, call.argument, SumOf), ValueColumn(CountColumnOnes, call.argument, SumOf)]
    case CountDistinct => []
  }

  function Decompose(calls: seq<AggregateCall>): seq<ValueColumn>
  {
    if calls == [] then [] else ColumnsOf(calls[0]) + Decompose(calls[1..])
  }

  function OnesFor(v: Value): Value
  {
    if v.Null? then Null else Int(1)
  }

  /** `materialize_value_column`, for one row. */
  function ValueOf(k: Kernels, c: ValueColumn, row: Row): Value
  {
    match c.kind
    case Argument => Eval(k, c.argument, row)
    case CountStarOnes => Int(1)
    case CountColumnOnes => OnesFor(Eval(k, c.argument, row))
  }

  // ---------------------------------------------------------------------------
  // The library's group-by
  // ---------------------------------------------------------------------------

  /** A table of group keys and, beside each, its value columns. */
  type Table = seq<(Row, Row)>

  function KeysOf(t: Table): seq<Row>
  {
    Map((r: (Row, Row)) => r.0, t)
  }

  function ColumnOf(t: Table, key: Row, i: nat): seq<Value>
  {
    Map((r: (Row, Row)) => At(r.1, i), Select((r: (Row, Row)) => r.0 == key, t))
  }

  /** Each value column of group `key`, reduced. */
  function Total(columns: seq<ValueColumn>, t: Table, key: Row): (total: Row)
    ensures |total| == |columns|
  {
    seq(|columns|, i requires 0 <= i < |columns| => Reduce(columns[i].reduction, ColumnOf(t, key, i)))
  }

  function GroupKeys(k: Kernels, t: Table): seq<Row>
  {
    Select(k.groupKept, Distinct(KeysOf(t)))
  }

  /** One row per group that the library keeps. */
  function Grouping(k: Kernels, columns: seq<ValueColumn>, t: Table): Table
  {
    Map(key => (key, Total(columns, t, key)), GroupKeys(k, t))
  }

  lemma GroupKeyMember(k: Kernels, t: Table, key: Row)
    ensures key in GroupKeys(k, t) <==> k.groupKept(key) && key in KeysOf(t)
    ensures Unrepeated(GroupKeys(k, t))
  {
    SelectMember(k.groupKept, Distinct(KeysOf(t)), key);
    DistinctMember(KeysOf(t), key);
    DistinctUnrepeated(KeysOf(t));
    SelectUnrepeated(k.groupKept, Distinct(KeysOf(t)));
  }

  // ---------------------------------------------------------------------------
  // Merging partial groupings
  // ---------------------------------------------------------------------------

  ghost predicate SameGroup(k: Kernels, columns: seq<ValueColumn>, t: Table, rows: Table, key: Row)
  {
    k.groupKept(key) ==> Total(columns, t, key) == Total(columns, rows, key) && (key in KeysOf(t) <==> key in KeysOf(rows))
  }

  /** `t` has the same groups as `rows` and reduces to the same totals. */
  ghost predicate Represents(k: Kernels, columns: seq<ValueColumn>, t: Table, rows: Table)
  {
    forall key :: SameGroup(k, columns, t, rows, key)
  }

  lemma ColumnOfAppend(a: Table, b: Table, key: Row, i: nat)
    ensures ColumnOf(a + b, key, i) == ColumnOf(a, key, i) + ColumnOf(b, key, i)
  {
    SelectAppend((r: (Row, Row)) => r.0 == key, a, b);
    MapAppend((r: (Row, Row)) => At(r.1, i), Select((r: (Row, Row)) => r.0 == key, a),
              Select((r: (Row, Row)) => r.0 == key, b));
  }

  lemma TotalAppend(columns: seq<ValueColumn>, a: Table, b: Table, key: Row, i: nat)
    requires i < |columns|
    ensures Total(columns, a + b, key)[i] == Combine(columns[i].reduction, Total(columns, a, key)[i], Total(columns, b, key)[i])
  {
    ColumnOfAppend(a, b, key, i);
    ReduceAppend(columns[i].reduction, ColumnOf(a, key, i), ColumnOf(b, key, i));
  }

  lemma RepresentsAppend(k: Kernels, columns: seq<ValueColumn>, t: Table, rows: Table, t': Table, rows': Table)
    requires Represents(k, columns, t, rows) && Represents(k, columns, t', rows')
    ensures Represents(k, columns, t + t', rows + rows')
  {
    hide Total, KeysOf;
    forall key ensures SameGroup(k, columns, t + t', rows + rows', key) {
      assert SameGroup(k, columns, t, rows, key) && SameGroup(k, columns, t', rows', key);
      KeysAppend(t, t', key);
      KeysAppend(rows, rows', key);
      if k.groupKept(key) {
        forall i | 0 <= i < |columns| ensures Total(columns, t + t', key)[i] == Total(columns, rows + rows', key)[i] {
          TotalAppend(columns, t, t', key, i);
          TotalAppend(columns, rows, rows', key, i);
        }
      }
    }
  }

  lemma KeysAppend(a: Table, b: Table, key: Row)
    ensures key in KeysOf(a + b) <==> key in KeysOf(a) || key in KeysOf(b)
  {
    MapAppend((r: (Row, Row)) => r.0, a, b);
  }

  lemma TotalSameRows(columns: seq<ValueColumn>, a: Table, b: Table, key: Row)
    requires SameRows(a, b)
    ensures Total(columns, a, key) == Total(columns, b, key)
    ensures key in KeysOf(a) <==> key in KeysOf(b)
  {
    var mine := (r: (Row, Row)) => r.0 == key;
    SelectSameRows(mine, a, b);
    forall i | 0 <= i < |columns| ensures Total(columns, a, key)[i] == Total(columns, b, key)[i] {
      MapSameRows((r: (Row, Row)) => At(r.1, i), Select(mine, a), Select(mine, b));
      ReduceSameRows(columns[i].reduction, ColumnOf(a, key, i), ColumnOf(b, key, i));
    }
    MapSameRows((r: (Row, Row)) => r.0, a, b);
    SameRowsMembers(KeysOf(a), KeysOf(b));
  }

  lemma GroupOfGrouping(k: Kernels, columns: seq<ValueColumn>, rows: Table, key: Row)
    ensures Select((r: (Row, Row)) => r.0 == key, Grouping(k, columns, rows))
         == if key in GroupKeys(k, rows) then [(key, Total(columns, rows, key))] else []
    ensures key in KeysOf(Grouping(k, columns, rows)) <==> key in GroupKeys(k, rows)
  {
    var entry := (y: Row) => (y, Total(columns, rows, y));
    var keys := GroupKeys(k, rows);
    GroupKeyMember(k, rows, key);
    SelectOfMap((r: (Row, Row)) => r.0 == key, entry, (y: Row) => y == key, keys);
    SelectOne(keys, (y: Row) => y == key, key);
    MapAppend(entry, if key in keys then [key] else [], []);
    assert (if key in keys then [key] else []) + [] == if key in keys then [key] else [];
    MapMap((r: (Row, Row)) => r.0, entry, (y: Row) => y, keys);
    MapIndex((y: Row) => y, keys);
    assert Map((y: Row) => y, keys) == keys;
  }

  lemma AbsentTotal(columns: seq<ValueColumn>, t: Table, key: Row, i: nat)
    requires i < |columns| && key !in KeysOf(t)
    ensures Total(columns, t, key)[i] == Null
  {
    forall r | r in t ensures r.0 != key {
      MapMember((r: (Row, Row)) => r.0, t, r.0);
    }
    SelectNone((r: (Row, Row)) => r.0 == key, t);
  }

  lemma TotalOfGrouping(k: Kernels, columns: seq<ValueColumn>, rows: Table, key: Row, i: nat)
    requires i < |columns| && k.groupKept(key)
    ensures Total(columns, Grouping(k, columns, rows), key)[i] == Total(columns, rows, key)[i]
  {
    hide GroupKeys, Grouping;
    GroupOfGrouping(k, columns, rows, key);
    GroupKeyMember(k, rows, key);
    if key in KeysOf(rows) {
      MapAppend((r: (Row, Row)) => At(r.1, i), [(key, Total(columns, rows, key))], []);
      assert ColumnOf(Grouping(k, columns, rows), key, i) == [Total(columns, rows, key)[i]];
      ReduceIsInput(columns[i].reduction, ColumnOf(rows, key, i));
      ReduceOne(columns[i].reduction, Total(columns, rows, key)[i]);
    } else {
      AbsentTotal(columns, rows, key, i);
    }
  }

  /** A grouping stands for the rows it was made from. */
  lemma GroupingRepresents(k: Kernels, columns: seq<ValueColumn>, rows: Table, g: Table)
    requires SameRows(g, Grouping(k, columns, rows))
    ensures Represents(k, columns, g, rows)
  {
    hide Grouping, GroupKeys, KeysOf, Total, SameRows;
    var grouping := Grouping(k, columns, rows);
    forall key ensures SameGroup(k, columns, g, rows, key) {
      TotalSameRows(columns, g, grouping, key);
      GroupOfGrouping(k, columns, rows, key);
      GroupKeyMember(k, rows, key);
      if k.groupKept(key) {
        forall i | 0 <= i < |columns| ensures Total(columns, grouping, key)[i] == Total(columns, rows, key)[i] {
          TotalOfGrouping(k, columns, rows, key, i);
        }
      }
    }
  }

  /** Grouping partial results is grouping the rows they stand for. */
  lemma RepresentsGrouping(k: Kernels, columns: seq<ValueColumn>, t: Table, rows: Table)
    requires Represents(k, columns, t, rows)
    ensures SameRows(Grouping(k, columns, t), Grouping(k, columns, rows))
  {
    hide Total, KeysOf;
    var mine, theirs := GroupKeys(k, t), GroupKeys(k, rows);
    GroupKeyMember(k, t, []);
    GroupKeyMember(k, rows, []);
    forall key ensures key in mine <==> key in theirs {
      assert SameGroup(k, columns, t, rows, key);
      GroupKeyMember(k, t, key);
      GroupKeyMember(k, rows, key);
    }
    UnrepeatedSameRows(mine, theirs);
    forall key | key in mine ensures Total(columns, t, key) == Total(columns, rows, key) {
      assert SameGroup(k, columns, t, rows, key);
      GroupKeyMember(k, t, key);
    }
    MapExt(key => (key, Total(columns, t, key)), key => (key, Total(columns, rows, key)), mine);
    MapSameRows(key => (key, Total(columns, rows, key)), mine, theirs);
  }

  // ---------------------------------------------------------------------------
  // Summaries: groupings, or distinct rows for COUNT(DISTINCT)
  // ---------------------------------------------------------------------------

  datatype Mode = ByGroup(columns: seq<ValueColumn>) | DistinctPairs

  /** What one pass over `rows` leaves behind. */
  function Summary(k: Kernels, mode: Mode, rows: Table): Table
  {
    match mode
    case ByGroup(columns) => Grouping(k, columns, rows)
    case DistinctPairs => Distinct(rows)
  }

  /** Each table summarizes the input beside it. */
  ghost predicate Summarize(k: Kernels, mode: Mode, tables: seq<Table>, inputs: seq<Table>)
  {
    |tables| == |inputs| && forall j :: 0 <= j < |tables| ==> SameRows(tables[j], Summary(k, mode, inputs[j]))
  }

  lemma {:induction false} TablesRepresent(k: Kernels, columns: seq<ValueColumn>, tables: seq<Table>,
                                           inputs: seq<Table>)
    requires Summarize(k, ByGroup(columns), tables, inputs)
    ensures Represents(k, columns, Flatten(tables), Flatten(inputs))
  {
    if tables == [] {
      assert Flatten(tables) == Flatten(inputs);
    } else {
      assert Summarize(k, ByGroup(columns), tables[1..], inputs[1..]);
      TablesRepresent(k, columns, tables[1..], inputs[1..]);
      assert SameRows(tables[0], Summary(k, ByGroup(columns), inputs[0]));
      GroupingRepresents(k, columns, inputs[0], tables[0]);
      RepresentsAppend(k, columns, tables[0], inputs[0], Flatten(tables[1..]), Flatten(inputs[1..]));
    }
  }

  lemma {:induction false} TablesMembers(k: Kernels, tables: seq<Table>, inputs: seq<Table>, r: (Row, Row))
    requires Summarize(k, DistinctPairs, tables, inputs)
    ensures r in Flatten(tables) <==> r in Flatten(inputs)
  {
    if tables != [] {
      assert Summarize(k, DistinctPairs, tables[1..], inputs[1..]);
      TablesMembers(k, tables[1..], inputs[1..], r);
      assert SameRows(tables[0], Summary(k, DistinctPairs, inputs[0]));
      SameRowsMembers(tables[0], Distinct(inputs[0]));
      DistinctMember(inputs[0], r);
    }
  }

  /** Summarizing summaries is summarizing the inputs. */
  lemma SummaryOfSummaries(k: Kernels, mode: Mode, tables: seq<Table>, inputs: seq<Table>)
    requires Summarize(k, mode, tables, inputs)
    ensures SameRows(Summary(k, mode, Flatten(tables)), Summary(k, mode, Flatten(inputs)))
  {
    hide Flatten, Represents, Grouping;
    match mode
    case ByGroup(columns) =>
      TablesRepresent(k, columns, tables, inputs);
      RepresentsGrouping(k, columns, Flatten(tables), Flatten(inputs));
    case DistinctPairs =>
      forall r ensures r in Flatten(tables) <==> r in Flatten(inputs) {
        TablesMembers(k, tables, inputs, r);
      }
      DistinctSameRows(Flatten(tables), Flatten(inputs));
  }

  // ---------------------------------------------------------------------------
  // Sizes
  // ---------------------------------------------------------------------------

  /** What the key limit counts: the groups, or the (key, argument) pairs. */
  function CountedKeys(k: Kernels, mode: Mode, rows: Table): set<(Row, Row)>
  {
    match mode
    case ByGroup(_) => set r | r in rows && k.groupKept(r.0) :: (r.0, [])
    case DistinctPairs => set r | r in rows
  }

  lemma SummarySize(k: Kernels, mode: Mode, rows: Table)
    ensures |Summary(k, mode, rows)| == |CountedKeys(k, mode, rows)| <= |rows|
  {
    match mode
    case ByGroup(columns) =>
      var keys := GroupKeys(k, rows);
      GroupKeyMember(k, rows, []);
      MapIndex(key => (key, Total(columns, rows, key)), keys);
      KeySetSize(k, rows);
      ImageSize(rows, CountedKeys(k, mode, rows), k.groupKept);
    case DistinctPairs =>
      DistinctUnrepeated(rows);
      UnrepeatedSize(Distinct(rows));
      forall r ensures r in Distinct(rows) <==> r in rows {
        DistinctMember(rows, r);
      }
      assert (set r | r in Distinct(rows)) == (set r | r in rows);
      MembersSize(rows);
  }

  lemma KeySetSize(k: Kernels, rows: Table)
    ensures |GroupKeys(k, rows)| == |CountedKeys(k, ByGroup([]), rows)|
  {
    var keys := GroupKeys(k, rows);
    GroupKeyMember(k, rows, []);
    UnrepeatedSize(keys);
    var tagged := CountedKeys(k, ByGroup([]), rows);
    forall key ensures key in keys <==> (key, []) in tagged {
      GroupKeyMember(k, rows, key);
      MapMember((r: (Row, Row)) => r.0, rows, key);
    }
    TaggedSize((set key | key in keys), tagged);
  }

  lemma {:induction false} TaggedSize(keys: set<Row>, tagged: set<(Row, Row)>)
    requires forall key :: key in keys <==> (key, []) in tagged
    requires forall r :: r in tagged ==> r == (r.0, [])
    ensures |keys| == |tagged|
    decreases |keys|
  {
    if keys == {} {
      assert forall r :: r in tagged ==> r.0 in keys;
    } else {
      var key :| key in keys;
      TaggedSize(keys - {key}, tagged - {(key, [])});
    }
  }

  lemma {:induction false} ImageSize(rows: Table, image: set<(Row, Row)>, kept: Row -> bool)
    requires image == set r | r in rows && kept(r.0) :: (r.0, [])
    ensures |image| <= |rows|
  {
    if rows == [] {
      assert image == {};
    } else {
      var rest := set r | r in rows[1..] && kept(r.0) :: (r.0, []);
      ImageSize(rows[1..], rest, kept);
      assert image <= rest + {(rows[0].0, [])};
      SubsetSize(image, rest + {(rows[0].0, [])});
    }
  }

  /** The limit only counts more as more rows come in. */
  lemma CountedKeysGrow(k: Kernels, mode: Mode, a: Table, b: Table)
    ensures |CountedKeys(k, mode, a)| <= |CountedKeys(k, mode, a + b)|
  {
    SubsetSize(CountedKeys(k, mode, a), CountedKeys(k, mode, a + b));
  }
}
