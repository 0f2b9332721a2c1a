/** What SQL's aggregates are, on numbers: sums, counts, averages and extremes of the valid values,
and one row for each group. */
module AggregateMeaning {
  import opened Expressions
  import opened Relational
  import opened Distinctness
  import opened Aggregation
  import opened LogicalPlans
  import opened Simplifier

  ghost predicate Integers(values: seq<Value>)
  {
    forall v :: v in values ==> v.Int? || v.Null?
  }

  /** The sum of the integers among the values. */
  function IntegerSum(values: seq<Value>): int
  {
    if values == [] then 0 else (if values[0].Int? then values[0].i else 0) + IntegerSum(values[1..])
  }

  /** How many of the values are not NULL. */
  function ValidCount(values: seq<Value>): nat
  {
    if values == [] then 0 else (if values[0].Null? then 0 else 1) + ValidCount(values[1..])
  }

  lemma {:induction false} SumIsSum(values: seq<Value>)
    requires Integers(values)
    ensures Reduce(SumOf, values) == if ValidCount(values) == 0 then Null else Int(IntegerSum(values))
    ensures ValidCount(values) == 0 ==> IntegerSum(values) == 0
  {
    if values != [] {
      assert values[0] in values && forall v :: v in values[1..] ==> v in values;
      SumIsSum(values[1..]);
    }
  }

  lemma {:induction false} CountIsCount(values: seq<Value>)
    ensures |ValidValues(values)| == ValidCount(values)
  {
    if values != [] {
      CountIsCount(values[1..]);
      SelectCons((v: Value) => !v.Null?, values);
    }
  }

  /** SUM, COUNT and COUNT(*) of integers. */
  lemma SumAndCount(k: Kernels, values: seq<Value>)
    requires Integers(values)
    ensures Aggregate(k, Sum, values) == if ValidCount(values) == 0 then Null else Int(IntegerSum(values))
    ensures Aggregate(k, Count, values) == Int(ValidCount(values)) && Aggregate(k, CountStar, values) == Int(|values|)
  {
    SumIsSum(values);
    CountIsCount(values);
  }

  /** AVG of integers, taken as many times as there are values, is their sum. */
  lemma AverageTimesCount(k: Kernels, values: seq<Value>)
    requires ExactDoubles(k) && Integers(values)
    ensures ValidCount(values) == 0 ==> Aggregate(k, Avg, values) == Null
    ensures ValidCount(values) > 0 ==>
      && Aggregate(k, Avg, values).Double?
      && Aggregate(k, Avg, values).d * ValidCount(values) as real == IntegerSum(values) as real
  {
    SumIsSum(values);
    CountIsCount(values);
    if ValidCount(values) > 0 {
      var sum, count := IntegerSum(values) as real, ValidCount(values) as real;
      assert Aggregate(k, Avg, values) == Double(sum / count);
      assert sum / count * count == sum;
    }
  }

  ghost predicate Doubles(values: seq<Value>)
  {
    forall v :: v in values ==> v.Double? || v.Null?
  }

  function RealSum(values: seq<Value>): real
  {
    if values == [] then 0.0 else (if values[0].Double? then values[0].d else 0.0) + RealSum(values[1..])
  }

  lemma {:induction false} SumOfDoubles(values: seq<Value>)
    requires Doubles(values)
    ensures Reduce(SumOf, values) == if ValidCount(values) == 0 then Null else Double(RealSum(values))
    ensures ValidCount(values) == 0 ==> RealSum(values) == 0.0
  {
    if values != [] {
      assert values[0] in values && forall v :: v in values[1..] ==> v in values;
      SumOfDoubles(values[1..]);
    }
  }

  /** SUM and AVG of doubles. */
  lemma DoublesSummed(k: Kernels, values: seq<Value>)
    requires ExactDoubles(k) && Doubles(values) && ValidCount(values) > 0
    ensures Aggregate(k, Sum, values) == Double(RealSum(values))
    ensures Aggregate(k, Avg, values).Double? && Aggregate(k, Avg, values).d * ValidCount(values) as real == RealSum(values)
  {
    SumOfDoubles(values);
    CountIsCount(values);
    var sum, count := RealSum(values), ValidCount(values) as real;
    assert Aggregate(k, Avg, values) == Double(sum / count);
    assert sum / count * count == sum;
  }

  lemma ExtremesOfDoubles(k: Kernels, values: seq<Value>, d: real)
    requires Doubles(values) && Double(d) in values
    ensures Aggregate(k, Min, values).Double? && Aggregate(k, Min, values) in values && Aggregate(k, Min, values).d <= d
    ensures Aggregate(k, Max, values).Double? && Aggregate(k, Max, values) in values && d <= Aggregate(k, Max, values).d
  {
    ReduceExtreme(MinOf, values, Double(d));
    ReduceExtreme(MaxOf, values, Double(d));
  }

  /** MIN and MAX of integers are reached, and bound every valid value. */
  lemma ExtremesOfIntegers(k: Kernels, values: seq<Value>, i: int)
    requires Integers(values) && Int(i) in values
    ensures Aggregate(k, Min, values).Int? && Aggregate(k, Min, values) in values && Aggregate(k, Min, values).i <= i
    ensures Aggregate(k, Max, values).Int? && Aggregate(k, Max, values) in values && i <= Aggregate(k, Max, values).i
  {
    ReduceExtreme(MinOf, values, Int(i));
    ReduceExtreme(MaxOf, values, Int(i));
  }

  /** The same for strings in dictionary order. */
  lemma ExtremesOfStrings(k: Kernels, values: seq<Value>, s: string)
    requires (forall v :: v in values ==> v.Str? || v.Null?) && Str(s) in values
    ensures Aggregate(k, Min, values).Str? && Aggregate(k, Min, values) in values
    ensures Aggregate(k, Min, values).s == s || StringLess(Aggregate(k, Min, values).s, s)
    ensures Aggregate(k, Max, values).Str? && Aggregate(k, Max, values) in values
    ensures Aggregate(k, Max, values).s == s || StringLess(s, Aggregate(k, Max, values).s)
  {
    ReduceExtreme(MinOf, values, Str(s));
    ReduceExtreme(MaxOf, values, Str(s));
    StringLessTotal(Aggregate(k, Min, values).s, s);
    StringLessTotal(Aggregate(k, Max, values).s, s);
  }

  /** COUNT(DISTINCT) counts each valid value at its first occurrence. */
  function FirstOccurrences(values: seq<Value>): nat
  {
    if values == [] then 0
    else
      var last := |values| - 1;
      FirstOccurrences(values[..last]) + if values[last].Null? || values[last] in values[..last] then 0 else 1
  }

  lemma {:induction false} DistinctCounted(k: Kernels, values: seq<Value>)
    ensures Aggregate(k, CountDistinct, values) == Int(FirstOccurrences(values))
  {
    if values != [] {
      var last := |values| - 1;
      var v, before := values[last], values[..last];
      assert values == before + [v];
      DistinctCounted(k, before);
      var seen, all := set x | x in before && !x.Null?, set x | x in values && !x.Null?;
      if v.Null? || v in before {
        assert all == seen;
      } else {
        assert all == seen + {v};
      }
    } else {
      assert (set x | x in values && !x.Null?) == {};
    }
  }

  // ---------------------------------------------------------------------------
  // GROUP BY
  // ---------------------------------------------------------------------------

  /** The values of the group keys on a row. */
  ghost predicate HasKey(k: Kernels, groupBy: seq<NamedExpr>, row: Row, key: Row)
  {
    |key| == |groupBy| && forall i :: 0 <= i < |groupBy| ==> key[i] == Eval(k, groupBy[i].expr, row)
  }

  lemma KeyOfRow(k: Kernels, groupBy: seq<NamedExpr>, row: Row, key: Row)
    ensures EvalItems(k, groupBy, row) == key <==> HasKey(k, groupBy, row, key)
  {
    MapIndex((item: NamedExpr) => Eval(k, item.expr, row), groupBy);
  }

  /** The values of an argument on the rows of one group, in order. */
  ghost function GroupValues(k: Kernels, groupBy: seq<NamedExpr>, argument: Expr, rows: seq<Row>, key: Row): seq<Value>
  {
    if rows == [] then []
    else
      var first := if HasKey(k, groupBy, rows[0], key) then [Eval(k, argument, rows[0])] else [];
      first + GroupValues(k, groupBy, argument, rows[1..], key)
  }

  lemma {:induction false} MembersGrouped(k: Kernels, groupBy: seq<NamedExpr>, call: AggregateCall, rows: seq<Row>, key: Row)
    ensures CallValues(k, call, GroupMembers(k, groupBy, rows, key)) == GroupValues(k, groupBy, call.argument, rows, key)
  {
    if rows != [] {
      var same := (row: Row) => EvalItems(k, groupBy, row) == key;
      var value := (row: Row) => Eval(k, call.argument, row);
      var rest := GroupMembers(k, groupBy, rows[1..], key);
      MembersGrouped(k, groupBy, call, rows[1..], key);
      KeyOfRow(k, groupBy, rows[0], key);
      SelectCons(same, rows);
      if same(rows[0]) {
        MapAppend(value, [rows[0]], rest);
        MapIndex(value, [rows[0]]);
        assert Map(value, [rows[0]]) == [Eval(k, call.argument, rows[0])];
        assert GroupMembers(k, groupBy, rows, key) == [rows[0]] + rest;
      } else {
        assert GroupMembers(k, groupBy, rows, key) == rest;
      }
    }
  }

  /** One output row: a key that some row has, then every aggregate over the rows that have it. */
  ghost predicate IsGroup(k: Kernels, groupBy: seq<NamedExpr>, calls: seq<AggregateCall>, rows: seq<Row>, out: Row)
  {
    && |out| == |groupBy| + |calls|
    && var key := out[..|groupBy|];
       && (exists row :: row in rows && HasKey(k, groupBy, row, key))
       && (forall c :: 0 <= c < |calls| ==>
             out[|groupBy| + c] == Aggregate(k, calls[c].func, GroupValues(k, groupBy, calls[c].argument, rows, key)))
  }

  lemma GroupOfKey(k: Kernels, groupBy: seq<NamedExpr>, calls: seq<AggregateCall>, rows: seq<Row>, row: Row, key: Row)
    requires row in rows && key == EvalItems(k, groupBy, row)
    ensures |key| == |groupBy|
    ensures IsGroup(k, groupBy, calls, rows, key + CallResults(k, calls, GroupMembers(k, groupBy, rows, key)))
  {
    var members := GroupMembers(k, groupBy, rows, key);
    var results := CallResults(k, calls, members);
    var out := key + results;
    KeyOfRow(k, groupBy, row, key);
    MapIndex((call: AggregateCall) => Aggregate(k, call.func, CallValues(k, call, members)), calls);
    assert out[..|groupBy|] == key;
    forall c | 0 <= c < |calls|
      ensures out[|groupBy| + c] == Aggregate(k, calls[c].func, GroupValues(k, groupBy, calls[c].argument, rows, key))
    {
      MembersGrouped(k, groupBy, calls[c], rows, key);
    }
  }

  /** GROUP BY yields one row for every key that occurs and is kept, and no others; no two rows
      have the same key. */
  lemma GroupByMeans(k: Kernels, groupBy: seq<NamedExpr>, calls: seq<AggregateCall>, rows: seq<Row>)
    requires groupBy != []
    ensures forall out :: out in GroupRows(k, groupBy, calls, rows) ==> IsGroup(k, groupBy, calls, rows, out)
    ensures forall row, key :: row in rows && HasKey(k, groupBy, row, key) && k.groupKept(key) ==>
      exists out :: out in GroupRows(k, groupBy, calls, rows) && |groupBy| <= |out| && out[..|groupBy|] == key
    ensures var groups := GroupRows(k, groupBy, calls, rows);
      forall i, j :: 0 <= i < j < |groups| && |groupBy| <= |groups[i]| && |groupBy| <= |groups[j]| ==>
        groups[i][..|groupBy|] != groups[j][..|groupBy|]
  {
    hide IsGroup, HasKey;
    var all, groups := ProjectRows(k, groupBy, rows), GroupRows(k, groupBy, calls, rows);
    var keys := Select(k.groupKept, Distinct(all));
    var f := (key: Row) => key + CallResults(k, calls, GroupMembers(k, groupBy, rows, key));
    MapIndex(f, keys);
    forall key | key in keys ensures |key| == |groupBy| && f(key)[..|groupBy|] == key && IsGroup(k, groupBy, calls, rows, f(key)) {
      SelectMember(k.groupKept, Distinct(all), key);
      DistinctMember(all, key);
      MapMember(row => EvalItems(k, groupBy, row), rows, key);
      var row :| row in rows && key == EvalItems(k, groupBy, row);
      GroupOfKey(k, groupBy, calls, rows, row, key);
    }
    forall row, key | row in rows && HasKey(k, groupBy, row, key) && k.groupKept(key)
      ensures exists out :: out in groups && |groupBy| <= |out| && out[..|groupBy|] == key
    {
      KeyOfRow(k, groupBy, row, key);
      MapMember(row => EvalItems(k, groupBy, row), rows, key);
      DistinctMember(all, key);
      SelectMember(k.groupKept, Distinct(all), key);
      var i :| 0 <= i < |keys| && keys[i] == key;
      assert groups[i] == f(key) && groups[i] in groups;
    }
    DistinctUnrepeated(all);
    SelectUnrepeated(k.groupKept, Distinct(all));
    UnrepeatedIndices(keys);
    forall out | out in groups ensures IsGroup(k, groupBy, calls, rows, out) {
      MapMember(f, keys, out);
    }
    forall i | 0 <= i < |groups| ensures groups[i][..|groupBy|] == keys[i] {
      assert keys[i] in keys && groups[i] == f(keys[i]);
    }
  }

  lemma {:induction false} UnrepeatedIndices(s: seq<Row>)
    requires Unrepeated(s)
    ensures forall i, j :: 0 <= i < j < |s| ==> s[i] != s[j]
  {
    if s != [] {
      UnrepeatedCons(s);
      UnrepeatedIndices(s[1..]);
      forall i, j | 0 <= i < j < |s| ensures s[i] != s[j] {
        assert s[j] == s[1..][j - 1];
        if i > 0 { assert s[i] == s[1..][i - 1]; }
      }
    }
  }
}
