/** The INNER / LEFT OUTER hash join (src/execution_gpu/hash_join_operator.cpp): a build side
held in memory, or both sides spilled into buckets that `Next` walks one probe batch at a
time, resuming mid-bucket. Whatever the batching, the bucket count and the hash function,
the batches it yields are the nested-loop join. */
module HashJoins {
  import opened Expressions
  import opened Relational
  import opened JoinSemantics
  import opened JoinMeaning
  import opened Batches
  import opened PartitionedJoins

  // ---------------------------------------------------------------------------
  // Gathering index pairs into rows
  // ---------------------------------------------------------------------------

  /** One output row: out-of-range right positions are turned into NULLs. */
  function GatherPair(left: seq<Row>, right: seq<Row>, width: nat, pair: (nat, Option<nat>)): Row
  {
    RowAt(left, pair.0) + match pair.1 case Some(j) => RowAt(right, j) case None => Nulls(width)
  }

  lemma GatherOne(k: Kernels, spec: JoinSpec, left: seq<Row>, right: seq<Row>, i: nat)
    ensures spec.joinType.LeftOuter? ==>
      Map((p: (nat, Option<nat>)) => GatherPair(left, right, spec.rightWidth, p), LeftPairsOf(k, spec, left, right, i))
      == JoinOne(k, spec, RowAt(left, i), right)
    ensures spec.joinType.Inner? ==>
      Map((p: (nat, Option<nat>)) => GatherPair(left, right, spec.rightWidth, p),
          Select((p: (nat, Option<nat>)) => p.1.Some?, LeftPairsOf(k, spec, left, right, i)))
      == JoinOne(k, spec, RowAt(left, i), right)
  {
    var l := RowAt(left, i);
    var found := MatchingIndices(k, spec, l, right);
    var gather := (p: (nat, Option<nat>)) => GatherPair(left, right, spec.rightWidth, p);
    var paired := (p: (nat, Option<nat>)) => p.1.Some?;
    MatchesByIndex(k, spec, l, right);
    if found == [] {
      assert LeftPairsOf(k, spec, left, right, i) == [(i, None)];
      MapAppend(gather, [(i, None)], []);
      SelectNone(paired, [(i, None)]);
    } else {
      var pairs := Map(j => (i, Some(j)), found);
      MapIndex(j => (i, Some(j)), found);
      assert pairs == LeftPairsOf(k, spec, left, right, i);
      SelectAll(paired, pairs);
      MapMap(gather, j => (i, Some(j)), j => l + RowAt(right, j), found);
      MapMap(r => l + r, j => RowAt(right, j), j => l + RowAt(right, j), found);
    }
  }

  lemma GatherIsJoin(k: Kernels, spec: JoinSpec, left: seq<Row>, right: seq<Row>)
    ensures spec.joinType.LeftOuter? ==>
      Map((p: (nat, Option<nat>)) => GatherPair(left, right, spec.rightWidth, p), LeftPairs(k, spec, left, right))
      == JoinRows(k, spec, left, right)
    ensures spec.joinType.Inner? ==>
      Map((p: (nat, Option<nat>)) => GatherPair(left, right, spec.rightWidth, p), InnerPairs(k, spec, left, right))
      == JoinRows(k, spec, left, right)
  {
    var gather := (p: (nat, Option<nat>)) => GatherPair(left, right, spec.rightWidth, p);
    var paired := (p: (nat, Option<nat>)) => p.1.Some?;
    var joined := (i: nat) => JoinOne(k, spec, RowAt(left, i), right);
    forall i: nat
      ensures spec.joinType.LeftOuter? ==> joined(i) == Map(gather, LeftPairsOf(k, spec, left, right, i))
      ensures spec.joinType.Inner? ==> joined(i) == Map(gather, Select(paired, LeftPairsOf(k, spec, left, right, i)))
    {
      GatherOne(k, spec, left, right, i);
    }
    JoinByIndex(k, spec, left, right);
    if spec.joinType.LeftOuter? {
      MapOfFlatMap(gather, i => LeftPairsOf(k, spec, left, right, i), joined, Indices(|left|));
    } else if spec.joinType.Inner? {
      var inner := (i: nat) => Select(paired, LeftPairsOf(k, spec, left, right, i));
      SelectOfFlatMap(paired, i => LeftPairsOf(k, spec, left, right, i), inner, Indices(|left|));
      MapOfFlatMap(gather, inner, joined, Indices(|left|));
    }
  }

  lemma GatheredPairs(k: Kernels, spec: JoinSpec, left: seq<Row>, right: seq<Row>, pairs: seq<(nat, Option<nat>)>)
    requires spec.joinType.LeftOuter? || spec.joinType.Inner?
    requires SameRows(pairs, if spec.joinType.LeftOuter? then LeftPairs(k, spec, left, right)
                             else InnerPairs(k, spec, left, right))
    ensures SameRows(Map((p: (nat, Option<nat>)) => GatherPair(left, right, spec.rightWidth, p), pairs),
                     JoinRows(k, spec, left, right))
    ensures |Map((p: (nat, Option<nat>)) => GatherPair(left, right, spec.rightWidth, p), pairs)| == |pairs|
  {
    var gather := (p: (nat, Option<nat>)) => GatherPair(left, right, spec.rightWidth, p);
    GatherIsJoin(k, spec, left, right);
    MapIndex(gather, pairs);
    if spec.joinType.LeftOuter? {
      MapSameRows(gather, pairs, LeftPairs(k, spec, left, right));
    } else {
      MapSameRows(gather, pairs, InnerPairs(k, spec, left, right));
    }
  }

  /** `choose_partition_count`: 1 when the build side fits the budget, and otherwise between 2
      and 64 buckets, enough that one and a half times the estimate fits unless capped at 64. */
  function ChoosePartitionCount(estimatedRows: Option<int>, rowWidth: nat, budget: nat): (count: nat)
    ensures 1 <= count <= 64
    ensures count == 1 <==>
              estimatedRows.None? || estimatedRows.value <= 0 || budget == 0 || estimatedRows.value * rowWidth <= budget
    ensures 1 < count < 64 ==> 3 * (estimatedRows.value * rowWidth) <= 2 * (count * budget)
  {
    if estimatedRows.None? || estimatedRows.value <= 0 || budget == 0 then 1
    else
      var bytes := estimatedRows.value * rowWidth;
      if bytes <= budget then 1
      else
        var raw := Ceiling(3 * bytes, 2 * budget);
        assert 2 * budget * raw == 2 * (raw * budget);
        assert raw <= 1 ==> budget * raw <= budget;
        var partitions := if raw < 2 then 2 else raw;
        if partitions < 64 then partitions else 64
  }

  lemma Shrunk(a: nat, b: nat, u: nat)
    requires a <= b
    ensures a * u <= b * u
  {
  }

  /** No more buckets than that: with one fewer, one and a half times the estimate would not fit. */
  lemma FewestPartitions(rows: int, rowWidth: nat, budget: nat)
    requires ChoosePartitionCount(Some(rows), rowWidth, budget) > 2
    ensures 2 * budget * (ChoosePartitionCount(Some(rows), rowWidth, budget) - 1) < 3 * (rows * rowWidth)
  {
    hide Ceiling;
    var count, bytes := ChoosePartitionCount(Some(rows), rowWidth, budget), rows * rowWidth;
    var raw := Ceiling(3 * bytes, 2 * budget);
    assert 2 < count <= raw;
    Shrunk(count - 1, raw - 1, 2 * budget);
  }

  /** The least integer at least `a / b`. */
  function Ceiling(a: nat, b: nat): (c: nat)
    requires b > 0
    ensures a <= b * c && (c > 0 ==> b * (c - 1) < a)
  {
    (a + b - 1) / b
  }

  // ---------------------------------------------------------------------------
  // The operator
  // ---------------------------------------------------------------------------

  class HashJoinOperator {
    const k: Kernels
    const spec: JoinSpec
    const hash: Hash
    const partitions: nat
    const left: BatchSource
    const right: BatchSource
    var rightTable: Option<seq<Row>>
    var rightIsEmpty: bool
    var buildFiles: seq<seq<Batch>>
    var buildNonempty: seq<bool>
    var probeFiles: seq<seq<Batch>>
    var probeNonempty: seq<bool>
    var current: nat
    var reader: Option<seq<Batch>>
    var batchIndex: nat
    var built: bool

    constructor (k: Kernels, spec: JoinSpec, hash: Hash, partitionCount: nat, left: BatchSource, right: BatchSource)
      requires left != right && (spec.joinType.Inner? || spec.joinType.LeftOuter?) && spec.residual.None?
      ensures this.k == k && this.spec == spec && this.hash == hash && this.left == left && this.right == right
      ensures Unopened() && partitions == if partitionCount == 0 then 1 else partitionCount
    {
      this.k, this.spec, this.hash, this.left, this.right := k, spec, hash, left, right;
      partitions := if partitionCount == 0 then 1 else partitionCount;
      rightTable, rightIsEmpty := None, false;
      buildFiles, buildNonempty, probeFiles, probeNonempty := [], [], [], [];
      current, reader, batchIndex, built := 0, None, 0, false;
    }

    ghost predicate Unopened()
      reads this
    {
      && left != right && partitions > 0 && spec.residual.None? && (spec.joinType.Inner? || spec.joinType.LeftOuter?)
      && rightTable.None? && current == 0 && reader.None? && batchIndex == 0 && !built
    }

    /** The built table holds exactly `rows`. */
    ghost predicate Holds(rows: seq<Row>)
      reads this
    {
      rightIsEmpty == (rows == []) && rightTable == if rows == [] then None else Some(rows)
    }

    ghost predicate WalkValid()
      reads this
    {
      && |probeFiles| == |buildFiles| == |probeNonempty| == |buildNonempty| == partitions
      && (forall i :: 0 <= i < partitions ==> probeNonempty[i] == (probeFiles[i] != []))
      && (forall i :: 0 <= i < partitions ==> buildNonempty[i] == (buildFiles[i] != []))
      && (forall i :: 0 <= i < partitions ==> forall b :: b in buildFiles[i] ==> b != [])
      && current <= partitions
      && (reader.None? ==> batchIndex == 0)
      && (reader.Some? ==> current < partitions && reader.value == probeFiles[current] && batchIndex <= |reader.value|)
      && (built ==> current < partitions && Holds(Flatten(buildFiles[current])))
    }

    ghost predicate Valid()
      reads this
    {
      && left != right && partitions > 0 && spec.residual.None? && (spec.joinType.Inner? || spec.joinType.LeftOuter?)
      && if partitions <= 1 then rightIsEmpty == rightTable.None? && rightTable != Some([]) else WalkValid()
    }

    ghost function BuildRows(): seq<Row>
      reads this
    {
      if rightTable.Some? then rightTable.value else []
    }

    /** The rows the operator has still to yield. */
    ghost function Remaining(): seq<Row>
      requires Valid()
      reads this, left
    {
      if partitions <= 1 then
        JoinRows(k, spec, Flatten(left.pending), BuildRows())
      else
        WalkRemaining(k, spec, probeFiles, buildFiles, current, batchIndex)
    }

    /** Index the current build table, if it has rows. */
    method BuildHashJoin()
      modifies this`rightTable, this`rightIsEmpty
      ensures Holds(old(BuildRows()))
    {
      if rightTable.None? || |rightTable.value| == 0 {
        rightTable, rightIsEmpty := None, true;
        return;
      }
      rightIsEmpty := false;
    }

    method Open()
      requires Unopened()
      modifies this, left, right
      ensures Valid()
      ensures SameRows(Remaining(), JoinRows(k, spec, old(Flatten(left.pending)), old(Flatten(right.pending))))
    {
      hide JoinRows, WalkRemaining, BucketJoins, Flatten, Bucket;
      if partitions <= 1 {
        var rows := Concatenate(right);
        rightTable := if rows == [] then None else Some(rows);
        BuildHashJoin();
        return;
      }
      buildFiles, buildNonempty := SpillPartitioned(right, hash, spec.rightKey, partitions);
      probeFiles, probeNonempty := SpillPartitioned(left, hash, spec.leftKey, partitions);
      BucketJoinsComplete(k, spec, hash, partitions, probeFiles, buildFiles, probeNonempty, buildNonempty,
                          old(Flatten(left.pending)), old(Flatten(right.pending)));
      WalkStart(k, spec, probeFiles, buildFiles);
    }

    /** Join one probe batch with the non-empty built table; no batch if nothing matched. */
    method ProbeOneBatch(batch: Batch) returns (result: Option<Batch>)
      requires rightTable.Some? && (spec.joinType.Inner? || spec.joinType.LeftOuter?)
      ensures result.None? ==> JoinRows(k, spec, batch, rightTable.value) == []
      ensures result.Some? ==> result.value != [] && SameRows(result.value, JoinRows(k, spec, batch, rightTable.value))
    {
      hide JoinRows, LeftPairs, InnerPairs, SameRows;
      var table := rightTable.value;
      var pairs: seq<(nat, Option<nat>)>;
      if spec.joinType.LeftOuter? {
        pairs := LeftJoinKernel(k, spec, batch, table);
      } else {
        pairs := InnerJoinKernel(k, spec, batch, table);
      }
      GatheredPairs(k, spec, batch, table, pairs);
      var rows := Map((p: (nat, Option<nat>)) => GatherPair(batch, table, spec.rightWidth, p), pairs);
      SameRowsLength(rows, JoinRows(k, spec, batch, table));
      result := if pairs == [] then None else Some(rows);
    }

    /** The outer join of a batch with no build rows: every row, extended with NULLs. */
    method NullExtendBatch(batch: Batch) returns (result: Option<Batch>)
      requires spec.joinType.LeftOuter?
      ensures result.None? ==> JoinRows(k, spec, batch, []) == []
      ensures result.Some? ==> result.value != [] && SameRows(result.value, JoinRows(k, spec, batch, []))
    {
      JoinWithNothing(k, spec, batch);
      MapIndex(l => l + Nulls(spec.rightWidth), batch);
      result := if |batch| == 0 then None else Some(Map(l => l + Nulls(spec.rightWidth), batch));
    }

    /** Load the current bucket's build rows, unless they are loaded already. */
    method EnsurePartitionBuilt()
      requires Valid() && partitions > 1 && current < partitions
      modifies this`rightTable, this`rightIsEmpty, this`built
      ensures Valid() && built && rightIsEmpty == !buildNonempty[current]
    {
      hide Flatten;
      FlattenOfNonempty(buildFiles[current]);
      if built {
        return;
      }
      if !buildNonempty[current] {
        rightTable, rightIsEmpty, built := None, true, true;
        return;
      }
      rightTable := Some(Flatten(buildFiles[current]));
      BuildHashJoin();
      built := true;
    }

    /** Take the next left batch, splitting its join off what remains. */
    method NextProbe() returns (probe: Option<Batch>)
      requires Valid() && partitions <= 1
      modifies left
      ensures probe.None? ==> Remaining() == [] && old(Remaining()) == []
      ensures probe.Some? ==> |left.pending| < |old(left.pending)|
      ensures probe.Some? ==> old(Remaining()) == JoinRows(k, spec, probe.value, BuildRows()) + Remaining()
    {
      probe := left.Next();
      if probe.Some? {
        JoinRowsAppend(k, spec, probe.value, Flatten(left.pending), BuildRows());
      }
    }

    /** Join one left batch with whatever build side there is. */
    method JoinBatch(probe: Batch) returns (batch: Option<Batch>)
      requires Valid() && partitions <= 1
      ensures batch.None? ==> JoinRows(k, spec, probe, BuildRows()) == []
      ensures batch.Some? ==> batch.value != [] && SameRows(batch.value, JoinRows(k, spec, probe, BuildRows()))
    {
      hide JoinRows, SameRows;
      if rightIsEmpty && spec.joinType.Inner? {
        JoinWithNothing(k, spec, probe);
        batch := None;
      } else if rightIsEmpty {
        batch := NullExtendBatch(probe);
      } else {
        batch := ProbeOneBatch(probe);
      }
    }

    method NextUnpartitioned() returns (batch: Option<Batch>)
      requires Valid() && partitions <= 1
      modifies left
      ensures batch.None? ==> Remaining() == [] && old(Remaining()) == []
      ensures batch.Some? ==> batch.value != [] && SameRows(batch.value + Remaining(), old(Remaining()))
    {
      hide JoinRows, SameRows, Flatten, BuildRows;
      var probe := NextProbe();
      while probe.Some?
        invariant probe.None? ==> Remaining() == [] && old(Remaining()) == []
        invariant probe.Some? ==> old(Remaining()) == JoinRows(k, spec, probe.value, BuildRows()) + Remaining()
        decreases probe.Some?, |left.pending|
      {
        batch := JoinBatch(probe.value);
        if batch.Some? {
          SameRowsPrefix(batch.value, JoinRows(k, spec, probe.value, BuildRows()), Remaining());
          return;
        }
        probe := NextProbe();
      }
      batch := None;
    }

    /** Probe batches of the current bucket until one yields rows. */
    method ProbeBucket() returns (batch: Option<Batch>)
      requires Valid() && partitions > 1 && current < partitions && built && reader.Some?
      requires !rightIsEmpty || spec.joinType.LeftOuter?
      modifies this`batchIndex
      ensures Valid()
      ensures batch.None? ==> batchIndex == |probeFiles[current]| && old(Remaining()) == Remaining()
      ensures batch.Some? ==> batch.value != [] && SameRows(batch.value + Remaining(), old(Remaining()))
    {
      hide JoinRows, WalkRemaining, Flatten, SameRows;
      while batchIndex < |reader.value|
        invariant Valid() && batchIndex <= |reader.value|
        invariant old(Remaining()) == Remaining()
      {
        WalkStep(k, spec, probeFiles, buildFiles, current, batchIndex);
        var probe := reader.value[batchIndex];
        batchIndex := batchIndex + 1;
        if rightIsEmpty {
          batch := NullExtendBatch(probe);
        } else {
          batch := ProbeOneBatch(probe);
        }
        if batch.Some? {
          SameRowsPrefix(batch.value, JoinRows(k, spec, probe, BuildRows()), Remaining());
          return;
        }
      }
      batch := None;
    }

    /** Release an exhausted bucket and move to the next. */
    method LeaveBucket()
      requires Valid() && partitions > 1 && current < partitions
      requires batchIndex == |probeFiles[current]| || (buildFiles[current] == [] && spec.joinType.Inner?)
      modifies this`rightTable, this`reader, this`batchIndex, this`built, this`current
      ensures Valid() && Remaining() == old(Remaining()) && current == old(current) + 1
    {
      hide WalkRemaining, Flatten;
      WalkNextBucket(k, spec, probeFiles, buildFiles, current, batchIndex);
      rightTable, reader, batchIndex, built := None, None, 0, false;
      current := current + 1;
    }

    method NextPartitioned() returns (batch: Option<Batch>)
      requires Valid() && partitions > 1
      modifies this
      ensures Valid()
      ensures batch.None? ==> Remaining() == [] && old(Remaining()) == []
      ensures batch.Some? ==> batch.value != [] && SameRows(batch.value + Remaining(), old(Remaining()))
    {
      hide WalkRemaining, Flatten, SameRows;
      while current < partitions
        invariant Valid() && old(Remaining()) == Remaining()
        decreases partitions - current
      {
        var orphans := spec.joinType.LeftOuter? && !buildNonempty[current];
        if probeNonempty[current] && (buildNonempty[current] || orphans) {
          EnsurePartitionBuilt();
          if !rightIsEmpty || spec.joinType.LeftOuter? {
            if reader.None? {
              reader, batchIndex := Some(probeFiles[current]), 0;
            }
            batch := ProbeBucket();
            if batch.Some? {
              return;
            }
          }
        }
        LeaveBucket();
      }
      WalkEnd(k, spec, probeFiles, buildFiles);
      batch := None;
    }

    /** Yield the next non-empty batch of the join, or None when all has been yielded. */
    method Next() returns (batch: Option<Batch>)
      requires Valid()
      modifies this, left
      ensures Valid()
      ensures batch.None? ==> Remaining() == [] && old(Remaining()) == []
      ensures batch.Some? ==> batch.value != [] && SameRows(batch.value + Remaining(), old(Remaining()))
    {
      if partitions <= 1 {
        batch := NextUnpartitioned();
      } else {
        batch := NextPartitioned();
      }
    }
  }

  /** A whole run: open, then take every batch. */
  method RunHashJoin(k: Kernels, spec: JoinSpec, hash: Hash, partitionCount: nat, left: BatchSource, right: BatchSource)
    returns (rows: seq<Row>)
    requires left != right && (spec.joinType.Inner? || spec.joinType.LeftOuter?) && spec.residual.None?
    modifies left, right
    ensures SameRows(rows, JoinRows(k, spec, old(Flatten(left.pending)), old(Flatten(right.pending))))
    ensures KeysInRange(spec, old(Flatten(left.pending)), old(Flatten(right.pending))) ==>
              IsJoin(k, spec, old(Flatten(left.pending)), old(Flatten(right.pending)), rows)
  {
    hide JoinRows, SameRows, Flatten, KeysInRange, IsJoin;
    hide WalkRemaining, HashJoinOperator.WalkValid;
    var join := new HashJoinOperator(k, spec, hash, partitionCount, left, right);
    ghost var expected := JoinRows(k, spec, Flatten(left.pending), Flatten(right.pending));
    join.Open();
    rows := [];
    assert [] + join.Remaining() == join.Remaining();
    while true
      invariant join.Valid() && fresh(join) && join.left == left
      invariant SameRows(rows + join.Remaining(), expected)
      decreases |join.Remaining()|
    {
      ghost var before := join.Remaining();
      var batch := join.Next();
      if batch.None? {
        assert rows + [] == rows;
        if KeysInRange(spec, old(Flatten(left.pending)), old(Flatten(right.pending))) {
          JoinMeans(k, spec, old(Flatten(left.pending)), old(Flatten(right.pending)), rows);
        }
        return;
      }
      SameRowsSym(batch.value + join.Remaining(), before);
      SameRowsMove(rows, before, batch.value, join.Remaining(), expected);
      rows := rows + batch.value;
    }
  }
}
