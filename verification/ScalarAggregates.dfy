/** The aggregate operator without GROUP BY (src/execution_gpu/scalar_aggregate_operator.cpp):
running scalars folded over the batches, and a single output row. */
module ScalarAggregates {
  import opened Expressions
  import opened Relational
  import opened Aggregation
  import opened LogicalPlans
  import opened Batches
  import opened PartialGroups
  import opened HashAggregates
  import opened MaterializedExpressions

  /** The library's reduction with an initial value: NULL whenever the column itself has no
      valid value, whatever the initial value was. */
  function ReduceFrom(r: Reduction, column: seq<Value>, init: Option<Value>): Value
  {
    if ValidValues(column) == [] then Null
    else Combine(r, if init.Some? then init.value else Null, Reduce(r, column))
  }

  /** `runningValue` and `runningOnes` are unset until a batch contributes a valid value. */
  datatype Accumulator = Accumulator(call: AggregateCall, runningValue: Option<Value>, runningOnes: Option<Value>,
                                     runningCount: nat)

  function ReductionOf(f: AggregateFunction): Reduction
  {
    match f
    case Min => MinOf
    case Max => MaxOf
    case _ => SumOf
  }

  /** The running scalar after the values `seen`. */
  function Running(r: Reduction, seen: seq<Value>): Option<Value>
  {
    if ValidValues(seen) == [] then None else Some(Reduce(r, seen))
  }

  /** The running count of valid values after the values `seen`. */
  function RunningOnes(seen: seq<Value>): Option<Value>
  {
    if ValidValues(seen) == [] then None else Some(Int(|ValidValues(seen)|))
  }

  ghost predicate HasSeen(k: Kernels, state: Accumulator, rows: seq<Row>)
  {
    var seen := CallValues(k, state.call, rows);
    match state.call.func
    case CountStar => state.runningCount == |rows|
    case Count => state.runningOnes == RunningOnes(seen)
    case Avg => state.runningValue == Running(SumOf, seen) && state.runningOnes == RunningOnes(seen)
    case CountDistinct => false
    case _ => state.runningValue == Running(ReductionOf(state.call.func), seen)
  }

  lemma ValidAppend(a: seq<Value>, b: seq<Value>)
    ensures ValidValues(a + b) == ValidValues(a) + ValidValues(b)
  {
    SelectAppend((v: Value) => !v.Null?, a, b);
  }

  lemma NoValidReduces(r: Reduction, values: seq<Value>)
    requires ValidValues(values) == []
    ensures Reduce(r, values) == Null
  {
    ReduceNull(r, values);
    forall v | v in values ensures v.Null? {
      SelectMember((w: Value) => !w.Null?, values, v);
    }
  }

  /** Skipping batches without valid values and folding in the others is reducing everything. */
  lemma RunningAppend(r: Reduction, seen: seq<Value>, column: seq<Value>)
    ensures Running(r, seen + column)
         == if ValidValues(column) == [] then Running(r, seen) else Some(ReduceFrom(r, column, Running(r, seen)))
  {
    ValidAppend(seen, column);
    ReduceAppend(r, seen, column);
    ReduceIsInput(r, seen);
    if ValidValues(column) == [] {
      NoValidReduces(r, column);
    } else if ValidValues(seen) == [] {
      NoValidReduces(r, seen);
    }
  }

  lemma OnesAppend(seen: seq<Value>, column: seq<Value>)
    ensures RunningOnes(seen + column)
         == if ValidValues(column) == [] then RunningOnes(seen)
            else Some(ReduceFrom(SumOf, Map(v => OnesFor(v), column), RunningOnes(seen)))
  {
    ValidAppend(seen, column);
    SumOfOnes(column);
    if ValidValues(column) != [] {
      ValidOnes(column);
    }
  }

  lemma ValidOnes(column: seq<Value>)
    ensures ValidValues(Map(v => OnesFor(v), column)) == [] <==> ValidValues(column) == []
  {
    SelectOfMap((v: Value) => !v.Null?, v => OnesFor(v), (v: Value) => !v.Null?, column);
    MapIndex(v => OnesFor(v), ValidValues(column));
  }

  // ---------------------------------------------------------------------------
  // Why batches without valid values are skipped
  // ---------------------------------------------------------------------------

  /** Folding in every batch, also those without valid values. */
  function Unguarded(r: Reduction, batches: seq<seq<Value>>): Option<Value>
  {
    if batches == [] then None
    else Some(ReduceFrom(r, batches[|batches| - 1], Unguarded(r, batches[..|batches| - 1])))
  }

  /** How many batches come up to and including the last one without valid values. */
  function Forgotten(batches: seq<seq<Value>>): (n: nat)
    ensures n <= |batches|
    ensures n > 0 ==> ValidValues(batches[n - 1]) == []
    ensures forall i :: n <= i < |batches| ==> ValidValues(batches[i]) != []
  {
    if batches == [] then 0
    else if ValidValues(batches[|batches| - 1]) == [] then |batches|
    else Forgotten(batches[..|batches| - 1])
  }

  /** The unguarded fold reduces only what follows the last batch without valid values. */
  lemma {:induction false} UnguardedForgets(r: Reduction, batches: seq<seq<Value>>)
    requires batches != []
    ensures Unguarded(r, batches) == Some(Reduce(r, Flatten(batches[Forgotten(batches)..])))
  {
    var before, last := batches[..|batches| - 1], batches[|batches| - 1];
    if ValidValues(last) != [] {
      var n := Forgotten(before);
      assert batches[n..] == before[n..] + [last];
      FlattenSnoc(before[n..], last);
      ReduceAppend(r, Flatten(before[n..]), last);
      if before != [] {
        UnguardedForgets(r, before);
      }
    }
  }

  /** No batch without valid values comes after one that has some. */
  predicate NullsFirst(batches: seq<seq<Value>>)
  {
    forall i, j :: 0 <= i < j < |batches| && ValidValues(batches[j]) == [] ==> ValidValues(batches[i]) == []
  }

  lemma {:induction false} FlattenSplit(batches: seq<seq<Value>>, n: nat)
    requires n <= |batches|
    ensures Flatten(batches) == Flatten(batches[..n]) + Flatten(batches[n..])
    decreases |batches| - n
  {
    if n == |batches| {
      assert batches[..n] == batches;
    } else {
      FlattenSplit(batches, n + 1);
      assert batches[..n + 1] == batches[..n] + [batches[n]] && batches[n..] == [batches[n]] + batches[n + 1..];
      FlattenSnoc(batches[..n], batches[n]);
      FlattenPrepend(batches[n], batches[n + 1..]);
    }
  }

  lemma {:induction false} ValidInFlatten(batches: seq<seq<Value>>)
    ensures ValidValues(Flatten(batches)) == [] <==> forall i :: 0 <= i < |batches| ==> ValidValues(batches[i]) == []
  {
    if batches != [] {
      var before, last := batches[..|batches| - 1], batches[|batches| - 1];
      assert batches == before + [last];
      ValidInFlatten(before);
      FlattenSnoc(before, last);
      ValidAppend(Flatten(before), last);
    }
  }

  /** The forgotten batches held nothing exactly when NULLs come first. */
  lemma ForgetsNothing(batches: seq<seq<Value>>)
    ensures ValidValues(Flatten(batches[..Forgotten(batches)])) == [] <==> NullsFirst(batches)
  {
    ValidInFlatten(batches[..Forgotten(batches)]);
  }

  /** So the guard is needed unless NULLs come first, in which case it changes nothing. */
  lemma GuardUnneeded(r: Reduction, batches: seq<seq<Value>>)
    requires batches != [] && NullsFirst(batches)
    ensures Unguarded(r, batches) == Some(Reduce(r, Flatten(batches)))
  {
    var n := Forgotten(batches);
    UnguardedForgets(r, batches);
    ForgetsNothing(batches);
    FlattenSplit(batches, n);
    ReduceAppend(r, Flatten(batches[..n]), Flatten(batches[n..]));
    ReduceIsInput(r, Flatten(batches[n..]));
    NoValidReduces(r, Flatten(batches[..n]));
  }

  function OnesOf(batches: seq<seq<Value>>): seq<seq<Value>>
  {
    Map((batch: seq<Value>) => Map(v => OnesFor(v), batch), batches)
  }

  lemma OnesOfAt(batches: seq<seq<Value>>)
    ensures |OnesOf(batches)| == |batches|
    ensures forall i :: 0 <= i < |batches| ==> (ValidValues(OnesOf(batches)[i]) == [] <==> ValidValues(batches[i]) == [])
  {
    MapIndex((batch: seq<Value>) => Map(v => OnesFor(v), batch), batches);
    forall i | 0 <= i < |batches| ensures ValidValues(OnesOf(batches)[i]) == [] <==> ValidValues(batches[i]) == [] {
      ValidOnes(batches[i]);
    }
  }

  lemma {:induction false} FlattenOnes(batches: seq<seq<Value>>)
    ensures Flatten(OnesOf(batches)) == Map(v => OnesFor(v), Flatten(batches))
  {
    if batches != [] {
      var before, last := batches[..|batches| - 1], batches[|batches| - 1];
      assert batches == before + [last];
      MapAppend((batch: seq<Value>) => Map(v => OnesFor(v), batch), before, [last]);
      MapAppend((batch: seq<Value>) => Map(v => OnesFor(v), batch), [last], []);
      assert OnesOf(batches) == OnesOf(before) + [Map(v => OnesFor(v), last)];
      FlattenOnes(before);
      FlattenSnoc(before, last);
      FlattenSnoc(OnesOf(before), Map(v => OnesFor(v), last));
      MapAppend(v => OnesFor(v), Flatten(before), last);
    }
  }

  /** For COUNT, where no contribution can cancel another, the unguarded fold gives the count of
      everything exactly when no batch without valid values follows one that has some. */
  lemma UnguardedCountExact(batches: seq<seq<Value>>)
    requires batches != []
    ensures Unguarded(SumOf, OnesOf(batches)) == Some(Reduce(SumOf, Flatten(OnesOf(batches)))) <==> NullsFirst(batches)
  {
    var ones, n := OnesOf(batches), Forgotten(OnesOf(batches));
    OnesOfAt(batches);
    assert NullsFirst(ones) <==> NullsFirst(batches);
    if NullsFirst(ones) {
      GuardUnneeded(SumOf, ones);
    } else {
      UnguardedForgets(SumOf, ones);
      ForgetsNothing(ones);
      MapIndex((batch: seq<Value>) => Map(v => OnesFor(v), batch), batches);
      MapIndex((batch: seq<Value>) => Map(v => OnesFor(v), batch), batches[..n]);
      MapIndex((batch: seq<Value>) => Map(v => OnesFor(v), batch), batches[n..]);
      assert ones[..n] == OnesOf(batches[..n]) && ones[n..] == OnesOf(batches[n..]);
      CountSplit(batches, n);
    }
  }

  /** A forgotten batch with a valid value lowers the count. */
  lemma CountSplit(batches: seq<seq<Value>>, n: nat)
    requires n <= |batches| && ValidValues(Flatten(OnesOf(batches[..n]))) != []
    ensures Reduce(SumOf, Flatten(OnesOf(batches))) != Reduce(SumOf, Flatten(OnesOf(batches[n..])))
  {
    var a, b := Flatten(batches[..n]), Flatten(batches[n..]);
    FlattenOnes(batches);
    FlattenOnes(batches[..n]);
    FlattenOnes(batches[n..]);
    FlattenSplit(batches, n);
    ValidOnes(a);
    ValidAppend(a, b);
    SumOfOnes(a + b);
    SumOfOnes(b);
  }

  /** Fold one batch into one running state. */
  method ProcessBatch(k: Kernels, state: Accumulator, batch: Batch, ghost rows: seq<Row>) returns (next: Accumulator)
    requires HasSeen(k, state, rows) && Compiles([], [state.call])
    ensures next.call == state.call && HasSeen(k, next, rows + batch)
  {
    hide Running, RunningOnes, ReduceFrom;
    next := state;
    if state.call.func.CountStar? {
      next := state.(runningCount := state.runningCount + |batch|);
      return;
    }
    assert state.call in [state.call];
    MaterializableComputable(state.call.argument);
    var column := MaterializeColumn(k, state.call.argument, batch);
    ghost var seen := CallValues(k, state.call, rows);
    MapAppend(row => Eval(k, state.call.argument, row), rows, batch);
    OnesAppend(seen, column);
    RunningAppend(ReductionOf(state.call.func), seen, column);
    if |ValidValues(column)| == 0 {
      return;
    }
    if !state.call.func.Count? {
      next := next.(runningValue := Some(ReduceFrom(ReductionOf(state.call.func), column, state.runningValue)));
    }
    if state.call.func.Count? || state.call.func.Avg? {
      next := next.(runningOnes := Some(ReduceFrom(SumOf, Map(v => OnesFor(v), column), state.runningOnes)));
    }
  }

  /** The result of one aggregate over everything seen. */
  method Finalize(k: Kernels, state: Accumulator, ghost rows: seq<Row>) returns (value: Value)
    requires HasSeen(k, state, rows)
    ensures value == Aggregate(k, state.call.func, CallValues(k, state.call, rows))
  {
    ghost var seen := CallValues(k, state.call, rows);
    MapIndex(row => Eval(k, state.call.argument, row), rows);
    if ValidValues(seen) == [] {
      NoValidReduces(ReductionOf(state.call.func), seen);
    }
    match state.call.func
    case CountStar => value := Int(state.runningCount);
    case Count => value := if state.runningOnes.None? then Int(0) else state.runningOnes.value;
    case Avg =>
      value := if state.runningValue.None? then Null
               else Quotient(k, state.runningValue.value, state.runningOnes.value.i);
    case Sum | Min | Max => value := if state.runningValue.None? then Null else state.runningValue.value;
  }

  class ScalarAggregateOperator {
    const k: Kernels
    const calls: seq<AggregateCall>
    const child: BatchSource
    var states: seq<Accumulator>
    var produced: bool

    constructor (k: Kernels, calls: seq<AggregateCall>, child: BatchSource)
      ensures this.k == k && this.calls == calls && this.child == child && states == [] && !produced
    {
      this.k, this.calls, this.child, states, produced := k, calls, child, [], false;
    }

    /** Every state stands for `rows`. */
    ghost predicate AllSeen(rows: seq<Row>)
      reads this
    {
      && |states| == |calls| && Compiles([], calls)
      && forall i :: 0 <= i < |calls| ==> states[i].call == calls[i] && HasSeen(k, states[i], rows)
    }

    /** Rejects COUNT(DISTINCT ...) and arguments that do not compile. */
    method Open() returns (ok: bool)
      requires states == []
      modifies this`states
      ensures ok <==> NoDistinct(calls) && Compiles([], calls)
      ensures ok ==> AllSeen([])
    {
      for i := 0 to |calls|
        invariant |states| == i && NoDistinct(calls[..i]) && Compiles([], calls[..i])
        invariant forall j :: 0 <= j < i ==> states[j].call == calls[j] && HasSeen(k, states[j], [])
      {
        if calls[i].func.CountDistinct? {
          assert calls[i] in calls;
          return false;
        }
        if !calls[i].func.CountStar? && !Materializable(calls[i].argument) {
          assert calls[i] in calls;
          return false;
        }
        states := states + [Accumulator(calls[i], None, None, 0)];
      }
      assert calls[..|calls|] == calls;
      return true;
    }

    method ProcessStates(batch: Batch, ghost rows: seq<Row>)
      requires AllSeen(rows)
      modifies this`states
      ensures AllSeen(rows + batch)
    {
      hide HasSeen;
      for i := 0 to |states|
        invariant |states| == |calls| && Compiles([], calls)
        invariant forall j :: 0 <= j < |calls| ==>
                    states[j].call == calls[j] && HasSeen(k, states[j], if j < i then rows + batch else rows)
      {
        assert calls[i] in calls;
        var next := ProcessBatch(k, states[i], batch, rows);
        states := states[i := next];
      }
    }

    method FinalizeStates(ghost rows: seq<Row>) returns (row: Row)
      requires AllSeen(rows)
      ensures row == CallResults(k, calls, rows)
    {
      hide HasSeen;
      row := [];
      MapIndex((call: AggregateCall) => Aggregate(k, call.func, CallValues(k, call, rows)), calls);
      for i := 0 to |states|
        invariant |row| == i && forall j :: 0 <= j < i ==> row[j] == CallResults(k, calls, rows)[j]
      {
        var value := Finalize(k, states[i], rows);
        row := row + [value];
      }
    }

    /** One row with every aggregate of the whole input, then nothing. */
    method Next() returns (batch: Option<Batch>)
      requires produced || AllSeen([])
      modifies this, child
      ensures produced
      ensures old(produced) ==> batch.None?
      ensures !old(produced) ==> batch == Some(GroupRows(k, [], calls, old(Flatten(child.pending))))
    {
      hide HasSeen, CallResults;
      if produced {
        return None;
      }
      ghost var all := Flatten(child.pending);
      ghost var rows: seq<Row> := [];
      var input := child.Next();
      while input.Some?
        invariant AllSeen(rows)
        invariant input.None? ==> rows == all
        invariant input.Some? ==> rows + input.value + Flatten(child.pending) == all
        decreases input.Some?, |child.pending|
      {
        ProcessStates(input.value, rows);
        rows := rows + input.value;
        input := child.Next();
      }
      produced := true;
      var row := FinalizeStates(all);
      return Some([row]);
    }
  }

  /** A COUNT is never NULL; the others are NULL exactly when there is no valid value to
      aggregate. */
  lemma NullResults(k: Kernels, f: AggregateFunction, values: seq<Value>)
    requires forall v :: v in values && !v.Null? ==> f.Sum? || f.Avg? ==> IsNumber(v)
    ensures f.Count? || f.CountStar? || f.CountDistinct? ==> !Aggregate(k, f, values).Null?
    ensures f.Sum? || f.Min? || f.Max? || f.Avg? ==>
              (Aggregate(k, f, values).Null? <==> forall v :: v in values ==> v.Null?)
  {
    ReduceNull(SumOf, values);
    ReduceNull(MinOf, values);
    ReduceNull(MaxOf, values);
    ReduceIsInput(SumOf, values);
  }

  /** A whole run: open, then take the one row. */
  method RunScalarAggregate(k: Kernels, calls: seq<AggregateCall>,
                            child: BatchSource) returns (result: Option<seq<Row>>)
    modifies child
    ensures result.Some? <==> NoDistinct(calls) && Compiles([], calls)
    ensures result.Some? ==> result.value == GroupRows(k, [], calls, old(Flatten(child.pending)))
  {
    hide GroupRows, Flatten;
    var aggregate := new ScalarAggregateOperator(k, calls, child);
    var ok := aggregate.Open();
    if !ok {
      return None;
    }
    result := aggregate.Next();
  }
}
