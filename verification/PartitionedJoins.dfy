/** What the hash join and the semi/anti join share: spilling a child operator into hash
buckets (src/execution_gpu/spill_partitioned_join.cpp), joining by row indices as the GPU
library does, and the bucket-wise join rows. */
module PartitionedJoins {
  import opened Expressions
  import opened Relational
  import opened JoinSemantics
  import opened Batches

  // ---------------------------------------------------------------------------
  // Hash buckets
  // ---------------------------------------------------------------------------

  type Hash = Value -> nat

  function BucketOf(hash: Hash, key: nat, n: nat, row: Row): nat
    requires n > 0
  {
    hash(At(row, key)) % n
  }

  /** The rows that fall into bucket `i` of `n`. */
  function Bucket(hash: Hash, key: nat, n: nat, i: nat, rows: seq<Row>): seq<Row>
    requires n > 0
  {
    Select(row => BucketOf(hash, key, n, row) == i, rows)
  }

  /** A row goes to the bucket its key value hashes to, with all rows of that key. */
  lemma BucketRows(hash: Hash, key: nat, n: nat, i: nat, rows: seq<Row>, row: Row)
    requires n > 0 && key < |row|
    ensures row in Bucket(hash, key, n, i, rows) <==> row in rows && hash(row[key]) % n == i
  {
    SelectMember(r => BucketOf(hash, key, n, r) == i, rows, row);
  }

  /** The library's hash partitioning, which does not promise an order within a bucket. */
  method HashPartition(hash: Hash, key: nat, n: nat, batch: Batch) returns (slices: seq<Batch>)
    requires n > 0
    ensures |slices| == n
    ensures forall i :: 0 <= i < n ==> SameRows(slices[i], Bucket(hash, key, n, i, batch))
  {
    slices := seq(n, i requires 0 <= i < n => Bucket(hash, key, n, i, batch));
  }

  /** One bucket's file holds `rows`, as non-empty batches, and its flag says whether any. */
  ghost predicate FileHolds(file: seq<Batch>, nonempty: bool, rows: seq<Row>)
  {
    nonempty == (file != []) && (forall b :: b in file ==> b != []) && SameRows(Flatten(file), rows)
  }

  ghost predicate Spilled(hash: Hash, key: nat, n: nat, files: seq<seq<Batch>>, nonempty: seq<bool>, rows: seq<Row>)
    requires n > 0
  {
    && |files| == n && |nonempty| == n
    && forall i :: 0 <= i < n ==> FileHolds(files[i], nonempty[i], Bucket(hash, key, n, i, rows))
  }

  lemma AppendSlice(file: seq<Batch>, nonempty: bool, rows: seq<Row>, slice: Batch, more: seq<Row>)
    requires FileHolds(file, nonempty, rows) && SameRows(slice, more)
    ensures slice != [] ==> FileHolds(file + [slice], true, rows + more)
    ensures slice == [] ==> FileHolds(file, nonempty, rows + more)
  {
    FlattenSnoc(file, slice);
    SameRowsLength(slice, more);
    assert slice == [] ==> rows + more == rows;
  }

  lemma BucketAppend(hash: Hash, key: nat, n: nat, i: nat, a: seq<Row>, b: seq<Row>)
    requires n > 0
    ensures Bucket(hash, key, n, i, a + b) == Bucket(hash, key, n, i, a) + Bucket(hash, key, n, i, b)
    ensures Bucket(hash, key, n, i, []) == []
  {
    SelectAppend(row => BucketOf(hash, key, n, row) == i, a, b);
  }

  /** Appending one batch's slices to the bucket files. */
  method AppendSlices(hash: Hash, key: nat, n: nat, files0: seq<seq<Batch>>, nonempty0: seq<bool>, slices: seq<Batch>,
                      ghost rows: seq<Row>, ghost batch: Batch)
    returns (files: seq<seq<Batch>>, nonempty: seq<bool>)
    requires n > 0 && Spilled(hash, key, n, files0, nonempty0, rows)
    requires |slices| == n && forall i :: 0 <= i < n ==> SameRows(slices[i], Bucket(hash, key, n, i, batch))
    ensures Spilled(hash, key, n, files, nonempty, rows + batch)
  {
    hide Bucket, FileHolds, SameRows;
    files, nonempty := files0, nonempty0;
    for i := 0 to n
      invariant |files| == n && |nonempty| == n
      invariant forall j :: i <= j < n ==> files[j] == files0[j] && nonempty[j] == nonempty0[j]
      invariant forall j :: 0 <= j < i ==> FileHolds(files[j], nonempty[j], Bucket(hash, key, n, j, rows + batch))
    {
      BucketAppend(hash, key, n, i, rows, batch);
      AppendSlice(files[i], nonempty[i], Bucket(hash, key, n, i, rows), slices[i], Bucket(hash, key, n, i, batch));
      if slices[i] != [] {
        files := files[i := files[i] + [slices[i]]];
        nonempty := nonempty[i := true];
      }
    }
  }

  lemma NothingSpilled(hash: Hash, key: nat, n: nat, files: seq<seq<Batch>>, nonempty: seq<bool>)
    requires n > 0 && |files| == n && |nonempty| == n
    requires forall i :: 0 <= i < n ==> files[i] == [] && !nonempty[i]
    ensures Spilled(hash, key, n, files, nonempty, [])
  {
    forall i | 0 <= i < n ensures FileHolds(files[i], nonempty[i], Bucket(hash, key, n, i, [])) {
      BucketAppend(hash, key, n, i, [], []);
    }
  }

  /** `spill_partitioned_to_disk`: drain the child, hash-partition every non-empty batch, and
      append the non-empty slices to their buckets' files. */
  method SpillPartitioned(child: BatchSource, hash: Hash, key: nat, n: nat)
    returns (files: seq<seq<Batch>>, nonempty: seq<bool>)
    requires n > 0
    modifies child
    ensures child.pending == []
    ensures Spilled(hash, key, n, files, nonempty, old(Flatten(child.pending)))
  {
    hide Spilled;
    files := seq(n, i => []);
    nonempty := seq(n, i => false);
    NothingSpilled(hash, key, n, files, nonempty);
    ghost var rows: seq<Row> := [];
    var next := child.Next();
    while next.Some?
      invariant Spilled(hash, key, n, files, nonempty, rows)
      invariant next.None? ==> child.pending == [] && rows == old(Flatten(child.pending))
      invariant next.Some? ==> rows + next.value + Flatten(child.pending) == old(Flatten(child.pending))
      decreases next.Some?, |child.pending|
    {
      if next.value != [] {
        var slices := HashPartition(hash, key, n, next.value);
        files, nonempty := AppendSlices(hash, key, n, files, nonempty, slices, rows, next.value);
      }
      assert next.value == [] ==> rows + next.value == rows;
      rows := rows + next.value;
      next := child.Next();
    }
  }

  // ---------------------------------------------------------------------------
  // Joining bucket by bucket
  // ---------------------------------------------------------------------------

  /** The join of buckets `i`, `i + 1`, ... in order. */
  function BucketJoins(k: Kernels, spec: JoinSpec, probe: seq<seq<Batch>>, build: seq<seq<Batch>>, i: nat): seq<Row>
    requires |probe| == |build| && i <= |probe|
    decreases |probe| - i
  {
    if i == |probe| then []
    else JoinRows(k, spec, Flatten(probe[i]), Flatten(build[i])) + BucketJoins(k, spec, probe, build, i + 1)
  }

  lemma {:induction false} SelectSplit<A>(p: A -> bool, q: A -> bool, r: A -> bool, s: seq<A>)
    requires forall x :: x in s ==> p(x) == (q(x) || r(x)) && !(q(x) && r(x))
    ensures SameRows(Select(p, s), Select(q, s) + Select(r, s))
  {
    if s != [] {
      assert s[0] in s;
      SelectCons(p, s);
      SelectCons(q, s);
      SelectCons(r, s);
      SelectSplit(p, q, r, s[1..]);
    }
  }

  /** Equal keys share a bucket, so a left row finds all its matches in its own bucket. */
  lemma MatchesInBucket(k: Kernels, spec: JoinSpec, hash: Hash, n: nat, i: nat, l: Row, right: seq<Row>)
    requires n > 0 && BucketOf(hash, spec.leftKey, n, l) == i
    ensures MatchesOf(k, spec, l, Bucket(hash, spec.rightKey, n, i, right)) == MatchesOf(k, spec, l, right)
  {
    SelectSelect(r => Matches(k, spec, l, r), r => BucketOf(hash, spec.rightKey, n, r) == i,
                 r => Matches(k, spec, l, r), right);
  }

  lemma JoinWithinBucket(k: Kernels, spec: JoinSpec, hash: Hash, n: nat, i: nat, left: seq<Row>, right: seq<Row>)
    requires n > 0
    ensures JoinRows(k, spec, Bucket(hash, spec.leftKey, n, i, left), Bucket(hash, spec.rightKey, n, i, right))
         == JoinRows(k, spec, Bucket(hash, spec.leftKey, n, i, left), right)
  {
    var mine := Bucket(hash, spec.leftKey, n, i, left);
    var others := Bucket(hash, spec.rightKey, n, i, right);
    forall l | l in mine ensures JoinOne(k, spec, l, others) == JoinOne(k, spec, l, right) {
      SelectMember(row => BucketOf(hash, spec.leftKey, n, row) == i, left, l);
      MatchesInBucket(k, spec, hash, n, i, l, right);
    }
    FlatMapExt(l => JoinOne(k, spec, l, others), l => JoinOne(k, spec, l, right), mine);
  }

  function FromBucket(hash: Hash, key: nat, n: nat, i: nat, rows: seq<Row>): seq<Row>
    requires n > 0
  {
    Select(row => i <= BucketOf(hash, key, n, row), rows)
  }

  lemma BucketThenRest(hash: Hash, key: nat, n: nat, i: nat, rows: seq<Row>)
    requires n > 0
    ensures SameRows(FromBucket(hash, key, n, i, rows),
                     Bucket(hash, key, n, i, rows) + FromBucket(hash, key, n, i + 1, rows))
  {
    SelectSplit(row => i <= BucketOf(hash, key, n, row), row => BucketOf(hash, key, n, row) == i,
                row => i + 1 <= BucketOf(hash, key, n, row), rows);
  }

  lemma OneBucket(k: Kernels, spec: JoinSpec, hash: Hash, n: nat, i: nat, probe: seq<Batch>, build: seq<Batch>,
                  left: seq<Row>, right: seq<Row>)
    requires n > 0
    requires SameRows(Flatten(probe), Bucket(hash, spec.leftKey, n, i, left))
    requires SameRows(Flatten(build), Bucket(hash, spec.rightKey, n, i, right))
    ensures SameRows(JoinRows(k, spec, Flatten(probe), Flatten(build)),
                     JoinRows(k, spec, Bucket(hash, spec.leftKey, n, i, left), right))
  {
    JoinSameRows(k, spec, Flatten(probe), Bucket(hash, spec.leftKey, n, i, left),
                 Flatten(build), Bucket(hash, spec.rightKey, n, i, right));
    JoinWithinBucket(k, spec, hash, n, i, left, right);
  }

  lemma {:induction false} BucketJoinsFrom(k: Kernels, spec: JoinSpec, hash: Hash, n: nat, i: nat,
                                           probe: seq<seq<Batch>>, build: seq<seq<Batch>>,
                                           probeFlags: seq<bool>, buildFlags: seq<bool>,
                                           left: seq<Row>, right: seq<Row>)
    requires n > 0 && i <= n
    requires Spilled(hash, spec.leftKey, n, probe, probeFlags, left)
    requires Spilled(hash, spec.rightKey, n, build, buildFlags, right)
    ensures SameRows(BucketJoins(k, spec, probe, build, i),
                     JoinRows(k, spec, FromBucket(hash, spec.leftKey, n, i, left), right))
    decreases n - i
  {
    hide JoinRows, Bucket, FromBucket, Flatten;
    assert i < n ==> FileHolds(probe[i], probeFlags[i], Bucket(hash, spec.leftKey, n, i, left));
    assert i < n ==> FileHolds(build[i], buildFlags[i], Bucket(hash, spec.rightKey, n, i, right));
    if i == n {
      NothingBeyond(hash, spec.leftKey, n, left);
      JoinOfNone(k, spec, right);
    } else {
      var mine := Bucket(hash, spec.leftKey, n, i, left);
      var rest := FromBucket(hash, spec.leftKey, n, i + 1, left);
      OneBucket(k, spec, hash, n, i, probe[i], build[i], left, right);
      BucketJoinsFrom(k, spec, hash, n, i + 1, probe, build, probeFlags, buildFlags, left, right);
      BucketThenRest(hash, spec.leftKey, n, i, left);
      JoinSameRows(k, spec, FromBucket(hash, spec.leftKey, n, i, left), mine + rest, right, right);
      JoinRowsAppend(k, spec, mine, rest, right);
    }
  }

  lemma JoinOfNone(k: Kernels, spec: JoinSpec, right: seq<Row>)
    ensures JoinRows(k, spec, [], right) == []
  {
  }

  lemma NothingBeyond(hash: Hash, key: nat, n: nat, rows: seq<Row>)
    requires n > 0
    ensures FromBucket(hash, key, n, n, rows) == []
  {
    SelectNone(row => n <= BucketOf(hash, key, n, row), rows);
  }

  /** Joining bucket by bucket is joining the whole inputs, for every hash function and
      every number of buckets. */
  lemma BucketJoinsComplete(k: Kernels, spec: JoinSpec, hash: Hash, n: nat,
                            probe: seq<seq<Batch>>, build: seq<seq<Batch>>,
                            probeFlags: seq<bool>, buildFlags: seq<bool>, left: seq<Row>, right: seq<Row>)
    requires n > 0
    requires Spilled(hash, spec.leftKey, n, probe, probeFlags, left)
    requires Spilled(hash, spec.rightKey, n, build, buildFlags, right)
    ensures SameRows(BucketJoins(k, spec, probe, build, 0), JoinRows(k, spec, left, right))
  {
    BucketJoinsFrom(k, spec, hash, n, 0, probe, build, probeFlags, buildFlags, left, right);
    SelectAll(row => 0 <= BucketOf(hash, spec.leftKey, n, row), left);
  }

  // ---------------------------------------------------------------------------
  // Joining by row indices
  // ---------------------------------------------------------------------------

  function RowAt(rows: seq<Row>, i: nat): Row
  {
    if i < |rows| then rows[i] else []
  }

  function Indices(n: nat): (s: seq<nat>)
    ensures |s| == n && forall i :: 0 <= i < n ==> s[i] == i
  {
    seq(n, i => i)
  }

  lemma RowsByIndex(rows: seq<Row>)
    ensures Map(i => RowAt(rows, i), Indices(|rows|)) == rows
  {
    MapIndex(i => RowAt(rows, i), Indices(|rows|));
  }

  /** A library left join pairs every left index with each matching right index, or with the
      no-match sentinel (here None) if there is none. */
  function LeftPairsOf(k: Kernels, spec: JoinSpec, left: seq<Row>, right: seq<Row>, i: nat): seq<(nat, Option<nat>)>
  {
    var found := MatchingIndices(k, spec, RowAt(left, i), right);
    if found == [] then [(i, None)] else Map(j => (i, Some(j)), found)
  }

  function MatchingIndices(k: Kernels, spec: JoinSpec, l: Row, right: seq<Row>): seq<nat>
  {
    Select(j => Matches(k, spec, l, RowAt(right, j)), Indices(|right|))
  }

  function LeftPairs(k: Kernels, spec: JoinSpec, left: seq<Row>, right: seq<Row>): seq<(nat, Option<nat>)>
  {
    FlatMap(i => LeftPairsOf(k, spec, left, right, i), Indices(|left|))
  }

  /** A library inner join: only the real pairs. */
  function InnerPairs(k: Kernels, spec: JoinSpec, left: seq<Row>, right: seq<Row>): seq<(nat, Option<nat>)>
  {
    Select((pair: (nat, Option<nat>)) => pair.1.Some?, LeftPairs(k, spec, left, right))
  }

  /** The library promises the pairs, not their order. */
  method LeftJoinKernel(k: Kernels, spec: JoinSpec, left: seq<Row>, right: seq<Row>)
    returns (pairs: seq<(nat, Option<nat>)>)
    ensures SameRows(pairs, LeftPairs(k, spec, left, right))
  {
    pairs := LeftPairs(k, spec, left, right);
  }

  method InnerJoinKernel(k: Kernels, spec: JoinSpec, left: seq<Row>, right: seq<Row>)
    returns (pairs: seq<(nat, Option<nat>)>)
    ensures SameRows(pairs, InnerPairs(k, spec, left, right))
  {
    pairs := InnerPairs(k, spec, left, right);
  }

  lemma MatchesByIndex(k: Kernels, spec: JoinSpec, l: Row, right: seq<Row>)
    ensures Map(j => RowAt(right, j), MatchingIndices(k, spec, l, right)) == MatchesOf(k, spec, l, right)
    ensures MatchingIndices(k, spec, l, right) == [] <==> MatchesOf(k, spec, l, right) == []
  {
    RowsByIndex(right);
    SelectOfMap(r => Matches(k, spec, l, r), j => RowAt(right, j), j => Matches(k, spec, l, RowAt(right, j)),
                Indices(|right|));
    MapIndex(j => RowAt(right, j), MatchingIndices(k, spec, l, right));
  }

  /** Folding over rows is folding over their indices. */
  lemma JoinByIndex(k: Kernels, spec: JoinSpec, left: seq<Row>, right: seq<Row>)
    ensures JoinRows(k, spec, left, right) == FlatMap(i => JoinOne(k, spec, RowAt(left, i), right), Indices(|left|))
  {
    RowsByIndex(left);
    FlatMapOfMap(l => JoinOne(k, spec, l, right), i => RowAt(left, i), i => JoinOne(k, spec, RowAt(left, i), right),
                 Indices(|left|));
  }

  // ---------------------------------------------------------------------------
  // A walk over the buckets that can stop after any probe batch
  // ---------------------------------------------------------------------------

  /** The rows still to come when bucket `i` has been probed up to its batch `b`. */
  function WalkRemaining(k: Kernels, spec: JoinSpec, probe: seq<seq<Batch>>, build: seq<seq<Batch>>, i: nat,
                         b: nat): seq<Row>
    requires |probe| == |build| && i <= |probe| && (i < |probe| ==> b <= |probe[i]|)
  {
    if i == |probe| then []
    else JoinRows(k, spec, Flatten(probe[i][b..]), Flatten(build[i])) + BucketJoins(k, spec, probe, build, i + 1)
  }

  /** Probing one more batch splits its rows off what remains. */
  lemma WalkStep(k: Kernels, spec: JoinSpec, probe: seq<seq<Batch>>, build: seq<seq<Batch>>, i: nat, b: nat)
    requires |probe| == |build| && i < |probe| && b < |probe[i]|
    ensures WalkRemaining(k, spec, probe, build, i, b)
         == JoinRows(k, spec, probe[i][b], Flatten(build[i])) + WalkRemaining(k, spec, probe, build, i, b + 1)
  {
    hide JoinRows, Flatten;
    FlattenCons(probe[i][b..]);
    assert probe[i][b..][1..] == probe[i][b + 1..];
    JoinRowsAppend(k, spec, probe[i][b], Flatten(probe[i][b + 1..]), Flatten(build[i]));
  }

  /** A bucket that is exhausted, or whose join is empty, can be left. */
  lemma WalkNextBucket(k: Kernels, spec: JoinSpec, probe: seq<seq<Batch>>, build: seq<seq<Batch>>, i: nat, b: nat)
    requires |probe| == |build| && i < |probe| && b <= |probe[i]|
    requires b == |probe[i]| || (build[i] == [] && (spec.joinType.Inner? || spec.joinType.LeftSemi?))
    ensures WalkRemaining(k, spec, probe, build, i, b) == WalkRemaining(k, spec, probe, build, i + 1, 0)
  {
    if b == |probe[i]| {
      assert Flatten(probe[i][b..]) == [];
      JoinOfNone(k, spec, Flatten(build[i]));
    } else {
      assert Flatten(build[i]) == [];
      JoinWithNothing(k, spec, Flatten(probe[i][b..]));
    }
    if i + 1 < |probe| {
      assert probe[i + 1][0..] == probe[i + 1];
    }
  }

  lemma WalkEnd(k: Kernels, spec: JoinSpec, probe: seq<seq<Batch>>, build: seq<seq<Batch>>)
    requires |probe| == |build|
    ensures WalkRemaining(k, spec, probe, build, |probe|, 0) == []
  {
  }

  lemma WalkStart(k: Kernels, spec: JoinSpec, probe: seq<seq<Batch>>, build: seq<seq<Batch>>)
    requires |probe| == |build|
    ensures WalkRemaining(k, spec, probe, build, 0, 0) == BucketJoins(k, spec, probe, build, 0)
  {
    if 0 < |probe| {
      assert probe[0][0..] == probe[0];
    }
  }
}
