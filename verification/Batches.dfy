/** Operators that yield their rows batch by batch. */
module Batches {
  import opened Expressions
  import opened Relational

  type Batch = seq<Row>

  /** A child operator: `Next` yields its remaining batches in order. */
  class BatchSource {
    var pending: seq<Batch>

    constructor (batches: seq<Batch>)
      ensures pending == batches
    {
      pending := batches;
    }

    method Next() returns (batch: Option<Batch>)
      modifies this
      ensures old(pending) == [] ==> batch.None? && pending == []
      ensures old(pending) != [] ==> batch == Some(old(pending)[0]) && pending == old(pending)[1..]
    {
      if pending == [] {
        batch := None;
      } else {
        batch := Some(pending[0]);
        pending := pending[1..];
      }
    }
  }

  /** Drain a child into one table. */
  method Concatenate(child: BatchSource) returns (rows: seq<Row>)
    modifies child
    ensures child.pending == [] && rows == old(Flatten(child.pending))
  {
    rows := [];
    var next := child.Next();
    while next.Some?
      invariant next.None? ==> child.pending == [] && rows == old(Flatten(child.pending))
      invariant next.Some? ==> rows + next.value + Flatten(child.pending) == old(Flatten(child.pending))
      decreases next.Some?, |child.pending|
    {
      assert next.value == [] ==> rows + next.value == rows;
      rows := rows + next.value;
      next := child.Next();
    }
  }

  lemma FlattenCons(batches: seq<Batch>)
    requires batches != []
    ensures Flatten(batches) == batches[0] + Flatten(batches[1..])
  {
  }

  lemma {:induction false} FlattenOfNonempty(batches: seq<Batch>)
    requires forall b :: b in batches ==> b != []
    ensures Flatten(batches) == [] <==> batches == []
  {
    if batches != [] {
      FlattenCons(batches);
      assert batches[0] in batches;
    }
  }
}
