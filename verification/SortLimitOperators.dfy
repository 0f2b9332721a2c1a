/** The sort and limit operators (src/execution_gpu/sort_operator.cpp, limit_operator.cpp). A
LIMIT directly over a sort is fused into it. */
module SortLimitOperators {
  import opened Expressions
  import opened Relational
  import opened LogicalPlans
  import opened SortOrder
  import opened Batches
  import opened MaterializedExpressions

  class LimitOperator {
    const child: BatchSource
    var remaining: int

    constructor (limit: int, child: BatchSource)
      ensures remaining == limit && this.child == child
    {
      remaining, this.child := limit, child;
    }

    /** The rows still to be delivered. */
    ghost function Left(): seq<Row>
      reads this, child
    {
      TakeRows(remaining, Flatten(child.pending))
    }

    /** Passes batches through, cuts the one that exceeds the limit, and then asks for no more. */
    method Next() returns (batch: Option<Batch>)
      modifies this, child
      ensures batch.Some? ==> old(Left()) == batch.value + Left()
      ensures batch.None? ==> old(Left()) == []
      ensures old(remaining) <= 0 ==> child.pending == old(child.pending)
      ensures batch.Some? ==> |child.pending| < old(|child.pending|)
    {
      if remaining <= 0 {
        return None;
      }
      ghost var all := Flatten(child.pending);
      batch := child.Next();
      if batch.None? {
        return None;
      }
      ghost var rest := Flatten(child.pending);
      assert all == batch.value + rest;
      if |batch.value| <= remaining {
        assert TakeRows(remaining, all) == batch.value + TakeRows(remaining - |batch.value|, rest);
        remaining := remaining - |batch.value|;
        return;
      }
      assert all[..remaining] == batch.value[..remaining] + [];
      batch := Some(batch.value[..remaining]);
      remaining := 0;
    }
  }

  /** A whole run of the operator; a negative limit is rejected when it is built. */
  method RunLimit(limit: int, child: BatchSource) returns (result: Option<seq<Row>>)
    modifies child
    ensures result.Some? <==> limit >= 0
    ensures result.Some? ==> result.value == TakeRows(limit, old(Flatten(child.pending)))
    ensures limit <= 0 ==> child.pending == old(child.pending)
  {
    if limit < 0 {
      return None;
    }
    var operator := new LimitOperator(limit, child);
    ghost var all := TakeRows(limit, Flatten(child.pending));
    var rows: seq<Row> := [];
    var batch := operator.Next();
    while batch.Some?
      invariant operator.child == child && fresh(operator)
      invariant batch.Some? ==> all == rows + (batch.value + operator.Left())
      invariant batch.None? ==> all == rows
      invariant limit <= 0 ==> child.pending == old(child.pending) && batch.None?
      decreases batch.Some?, |child.pending|
    {
      assert rows + (batch.value + operator.Left()) == rows + batch.value + operator.Left();
      rows := rows + batch.value;
      batch := operator.Next();
    }
    return Some(rows);
  }

  class SortOperator {
    const k: Kernels
    const keys: seq<SortKey>
    const limit: Option<int>
    const child: BatchSource
    var produced: bool

    constructor (k: Kernels, keys: seq<SortKey>, limit: Option<int>, child: BatchSource)
      ensures this.k == k && this.keys == keys && this.limit == limit && this.child == child && !produced
    {
      this.k, this.keys, this.limit, this.child, produced := k, keys, limit, child, false;
    }

    /** Fails exactly when a key is neither a column nor an expression that compiles. */
    method Open() returns (ok: bool)
      ensures ok <==> KeysMaterializable(keys)
    {
      for i := 0 to |keys|
        invariant forall key :: key in keys[..i] ==> KeyMaterializable(key.expr)
      {
        if !KeyMaterializable(keys[i].expr) {
          assert keys[i] in keys;
          return false;
        }
      }
      assert keys[..|keys|] == keys;
      return true;
    }

    /** All rows sorted, or as many of the first as the limit says, then nothing. A limit that
        leaves nothing does not read the child. */
    method Next() returns (batch: Option<Batch>)
      modifies this, child
      ensures produced
      ensures old(produced) ==> batch.None?
      ensures !old(produced) ==>
        var sorted := SortRows(k, keys, old(Flatten(child.pending)));
        (if batch.Some? then batch.value else []) == if limit.Some? then TakeRows(limit.value, sorted) else sorted
      ensures batch.Some? && LibrarySorts(k) ==> OrderedBy(k, keys, batch.value)
      ensures limit.Some? && limit.value <= 0 ==> child.pending == old(child.pending)
    {
      hide SortRows, OrderedBy;
      if produced {
        return None;
      }
      produced := true;
      if limit.Some? && limit.value <= 0 {
        return None;
      }
      ghost var all := Flatten(child.pending);
      var combined := Concatenate(child);
      var sorted := SortRows(k, keys, combined);
      if LibrarySorts(k) {
        SortRowsOrdered(k, keys, combined);
        OrderedPrefix(k, keys, sorted, if limit.Some? then limit.value else |sorted|);
      }
      if limit.Some? {
        var keep := if limit.value < |sorted| then limit.value else |sorted|;
        return Some(sorted[..keep]);
      }
      return Some(sorted);
    }
  }

  method RunSort(k: Kernels, keys: seq<SortKey>, limit: Option<int>, child: BatchSource) returns (result: Option<seq<Row>>)
    modifies child
    ensures result.Some? <==> KeysMaterializable(keys)
    ensures result.Some? ==>
      var sorted := SortRows(k, keys, old(Flatten(child.pending)));
      result.value == if limit.Some? then TakeRows(limit.value, sorted) else sorted
    ensures result.Some? && LibrarySorts(k) ==> OrderedBy(k, keys, result.value)
  {
    hide SortRows;
    var operator := new SortOperator(k, keys, limit, child);
    var ok := operator.Open();
    if !ok {
      return None;
    }
    var batch := operator.Next();
    return Some(if batch.Some? then batch.value else []);
  }
}
