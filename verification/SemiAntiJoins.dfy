/** The LEFT SEMI / LEFT ANTI hash join (src/execution_gpu/semi_anti_join_operator.cpp): every
left row is yielded as often as it occurs on the left, if and only if it has (semi) or lacks
(anti) a matching right row, whatever the batching, bucket count and hash function. */
module SemiAntiJoins {
  import opened Expressions
  import opened Relational
  import opened Distinctness
  import opened JoinSemantics
  import opened JoinMeaning
  import opened Batches
  import opened PartitionedJoins
  import opened ExpressionCompiler

  // ---------------------------------------------------------------------------
  // What semi and anti joins are
  // ---------------------------------------------------------------------------

  predicate HasMatch(k: Kernels, spec: JoinSpec, right: seq<Row>, l: Row)
  {
    MatchesOf(k, spec, l, right) != []
  }

  /** Having a match means what it says. */
  lemma HasMatchMeans(k: Kernels, spec: JoinSpec, right: seq<Row>, l: Row)
    ensures HasMatch(k, spec, right, l) <==> exists r :: r in right && Matches(k, spec, l, r)
  {
    var found := MatchesOf(k, spec, l, right);
    if found != [] {
      SelectMember(r => Matches(k, spec, l, r), right, found[0]);
    }
    forall r | r in right && Matches(k, spec, l, r) ensures found != [] {
      SelectMember(r => Matches(k, spec, l, r), right, r);
    }
  }

  /** A semi join keeps the left rows that some right row matches, an anti join the others. */
  lemma KeptRows(k: Kernels, spec: JoinSpec, left: seq<Row>, right: seq<Row>, l: Row)
    ensures spec.joinType.LeftSemi? ==>
              (l in JoinRows(k, spec, left, right) <==> l in left && exists r :: r in right && Matches(k, spec, l, r))
    ensures spec.joinType.LeftAnti? ==>
              (l in JoinRows(k, spec, left, right) <==> l in left && forall r :: r in right ==> !Matches(k, spec, l, r))
  {
    hide JoinRows;
    KeepsWhole(k, spec, left, right);
    HasMatchMeans(k, spec, right, l);
    SelectMember(l => HasMatch(k, spec, right, l), left, l);
    SelectMember(l => !HasMatch(k, spec, right, l), left, l);
  }

  /** A semi join keeps exactly the left rows with a match, an anti join those without, each as
      often as it came. */
  lemma KeepsWhole(k: Kernels, spec: JoinSpec, left: seq<Row>, right: seq<Row>)
    ensures spec.joinType.LeftSemi? ==> JoinRows(k, spec, left, right) == Select(l => HasMatch(k, spec, right, l), left)
    ensures spec.joinType.LeftAnti? ==> JoinRows(k, spec, left, right) == Select(l => !HasMatch(k, spec, right, l), left)
  {
    if spec.joinType.LeftSemi? {
      SelectAsFlatMap(l => HasMatch(k, spec, right, l), l => JoinOne(k, spec, l, right), left);
    } else if spec.joinType.LeftAnti? {
      SelectAsFlatMap(l => !HasMatch(k, spec, right, l), l => JoinOne(k, spec, l, right), left);
    }
  }

  /** A semi join and an anti join on the same condition split the left input between them. */
  lemma SemiAndAntiSplit(k: Kernels, spec: JoinSpec, left: seq<Row>, right: seq<Row>)
    ensures SameRows(JoinRows(k, spec.(joinType := LeftSemi), left, right)
                     + JoinRows(k, spec.(joinType := LeftAnti), left, right), left)
  {
    var semi, anti := spec.(joinType := LeftSemi), spec.(joinType := LeftAnti);
    forall l: Row ensures MatchesOf(k, semi, l, right) == MatchesOf(k, anti, l, right) {
      SelectExt(r => Matches(k, semi, l, r), r => Matches(k, anti, l, r), right);
    }
    KeepsWhole(k, semi, left, right);
    KeepsWhole(k, anti, left, right);
    SelectSplit((l: Row) => true, (l: Row) => HasMatch(k, semi, right, l), (l: Row) => !HasMatch(k, anti, right, l),
                left);
    SelectAll((l: Row) => true, left);
  }

  // ---------------------------------------------------------------------------
  // Left indices and the rows they gather
  // ---------------------------------------------------------------------------

  predicate IndexKept(k: Kernels, spec: JoinSpec, left: seq<Row>, right: seq<Row>, i: nat)
  {
    HasMatch(k, spec, right, RowAt(left, i)) == spec.joinType.LeftSemi?
  }

  /** The indices of the left rows to keep. */
  function KeptIndices(k: Kernels, spec: JoinSpec, left: seq<Row>, right: seq<Row>): seq<nat>
  {
    Select((i: nat) => IndexKept(k, spec, left, right, i), Indices(|left|))
  }

  lemma GatherKept(k: Kernels, spec: JoinSpec, left: seq<Row>, right: seq<Row>, indices: seq<nat>)
    requires spec.joinType.LeftSemi? || spec.joinType.LeftAnti?
    requires SameRows(indices, KeptIndices(k, spec, left, right))
    ensures SameRows(Map(i => RowAt(left, i), indices), JoinRows(k, spec, left, right))
    ensures |Map(i => RowAt(left, i), indices)| == |indices|
  {
    MapIndex(i => RowAt(left, i), indices);
    MapSameRows(i => RowAt(left, i), indices, KeptIndices(k, spec, left, right));
    MapOfSelect(i => RowAt(left, i), (i: nat) => IndexKept(k, spec, left, right, i),
                i => JoinOne(k, spec, RowAt(left, i), right), Indices(|left|));
    JoinByIndex(k, spec, left, right);
  }

  lemma {:induction false} IndicesUnrepeated(n: nat)
    ensures Unrepeated(Indices(n))
  {
    if n > 0 {
      IndicesUnrepeated(n - 1);
      assert Indices(n) == Indices(n - 1) + [n - 1];
    }
  }

  /** The library's `distinct`: each value once, in any order. */
  method DistinctKernel(s: seq<nat>) returns (d: seq<nat>)
    ensures SameRows(d, Distinct(s))
  {
    d := Distinct(s);
  }

  predicate IsLeftPair(k: Kernels, spec: JoinSpec, left: seq<Row>, right: seq<Row>, i: nat, pair: (nat, Option<nat>))
  {
    pair.0 == i && if pair.1.None? then !HasMatch(k, spec, right, RowAt(left, i))
                   else pair.1.value in MatchingIndices(k, spec, RowAt(left, i), right)
  }

  lemma LeftPairOf(k: Kernels, spec: JoinSpec, left: seq<Row>, right: seq<Row>, i: nat, pair: (nat, Option<nat>))
    ensures pair in LeftPairsOf(k, spec, left, right, i) <==> IsLeftPair(k, spec, left, right, i, pair)
  {
    MatchesByIndex(k, spec, RowAt(left, i), right);
    MapMember((j: nat) => (i, Some(j)), MatchingIndices(k, spec, RowAt(left, i), right), pair);
  }

  lemma LeftPairMember(k: Kernels, spec: JoinSpec, left: seq<Row>, right: seq<Row>, pair: (nat, Option<nat>))
    ensures pair in LeftPairs(k, spec, left, right) <==>
              pair.0 < |left| && IsLeftPair(k, spec, left, right, pair.0, pair)
  {
    hide LeftPairsOf, HasMatch, MatchingIndices;
    var pairsOf := (i: nat) => LeftPairsOf(k, spec, left, right, i);
    FlatMapMember(pairsOf, Indices(|left|), pair);
    forall i: nat ensures pair in pairsOf(i) <==> IsLeftPair(k, spec, left, right, i, pair) {
      LeftPairOf(k, spec, left, right, i, pair);
    }
    assert pair.0 < |left| ==> Indices(|left|)[pair.0] == pair.0;
  }

  /** Semi join: the distinct left indices of the inner pairs. */
  lemma DistinctPairs(k: Kernels, spec: JoinSpec, left: seq<Row>, right: seq<Row>,
                      pairs: seq<(nat, Option<nat>)>, distinct: seq<nat>)
    requires spec.joinType.LeftSemi? && SameRows(pairs, InnerPairs(k, spec, left, right))
    requires SameRows(distinct, Distinct(Map((p: (nat, Option<nat>)) => p.0, pairs)))
    ensures SameRows(distinct, KeptIndices(k, spec, left, right))
  {
    hide InnerPairs, HasMatch;
    var first := (p: (nat, Option<nat>)) => p.0;
    DistinctUnrepeated(Map(first, pairs));
    UnrepeatedOfSameRows(distinct, Distinct(Map(first, pairs)));
    SameRowsMembers(distinct, Distinct(Map(first, pairs)));
    forall i: nat ensures i in distinct <==> i in KeptIndices(k, spec, left, right) {
      DistinctMember(Map(first, pairs), i);
      MapMember(first, pairs, i);
      KeptIndex(k, spec, left, right, i);
      InnerPairOf(k, spec, left, right, pairs, i);
    }
    IndicesUnrepeated(|left|);
    SelectUnrepeated((i: nat) => IndexKept(k, spec, left, right, i), Indices(|left|));
    UnrepeatedSameRows(distinct, KeptIndices(k, spec, left, right));
  }

  lemma KeptIndex(k: Kernels, spec: JoinSpec, left: seq<Row>, right: seq<Row>, i: nat)
    ensures i in KeptIndices(k, spec, left, right) <==> i < |left| && IndexKept(k, spec, left, right, i)
  {
    SelectMember((j: nat) => IndexKept(k, spec, left, right, j), Indices(|left|), i);
    assert i < |left| ==> Indices(|left|)[i] == i;
  }

  lemma InnerPairOf(k: Kernels, spec: JoinSpec, left: seq<Row>, right: seq<Row>, pairs: seq<(nat, Option<nat>)>, i: nat)
    requires SameRows(pairs, InnerPairs(k, spec, left, right))
    ensures (exists p :: p in pairs && i == p.0) <==> i < |left| && HasMatch(k, spec, right, RowAt(left, i))
  {
    var some := (p: (nat, Option<nat>)) => p.1.Some?;
    forall p: (nat, Option<nat>)
      ensures p in pairs <==> p.1.Some? && p.0 < |left| && IsLeftPair(k, spec, left, right, p.0, p)
    {
      assert p in pairs <==> p in multiset(pairs);
      assert p in InnerPairs(k, spec, left, right) <==> p in multiset(InnerPairs(k, spec, left, right));
      SelectMember(some, LeftPairs(k, spec, left, right), p);
      LeftPairMember(k, spec, left, right, p);
    }
    MatchesByIndex(k, spec, RowAt(left, i), right);
    var found := MatchingIndices(k, spec, RowAt(left, i), right);
    if i < |left| && found != [] {
      assert found[0] in found;
      assert (i, Some(found[0])) in pairs;
    }
  }

  /** Anti join: the left indices paired with the no-match sentinel. */
  lemma SentinelPairs(k: Kernels, spec: JoinSpec, left: seq<Row>, right: seq<Row>, pairs: seq<(nat, Option<nat>)>)
    requires spec.joinType.LeftAnti? && SameRows(pairs, LeftPairs(k, spec, left, right))
    ensures SameRows(Map((p: (nat, Option<nat>)) => p.0, Select((p: (nat, Option<nat>)) => p.1.None?, pairs)),
                     KeptIndices(k, spec, left, right))
  {
    hide IndexKept, LeftPairsOf;
    var first := (p: (nat, Option<nat>)) => p.0;
    var alone := (p: (nat, Option<nat>)) => p.1.None?;
    var kept := (i: nat) => if IndexKept(k, spec, left, right, i) then [i] else [];
    var sentinel := (i: nat) => Select(alone, LeftPairsOf(k, spec, left, right, i));
    forall i: nat ensures kept(i) == Map(first, sentinel(i)) {
      SentinelOf(k, spec, left, right, i);
    }
    SelectSameRows(alone, pairs, LeftPairs(k, spec, left, right));
    MapSameRows(first, Select(alone, pairs), Select(alone, LeftPairs(k, spec, left, right)));
    SelectOfFlatMap(alone, i => LeftPairsOf(k, spec, left, right, i), sentinel, Indices(|left|));
    MapOfFlatMap(first, sentinel, kept, Indices(|left|));
    SelectAsFlatMap((i: nat) => IndexKept(k, spec, left, right, i), kept, Indices(|left|));
  }

  lemma SentinelOf(k: Kernels, spec: JoinSpec, left: seq<Row>, right: seq<Row>, i: nat)
    requires spec.joinType.LeftAnti?
    ensures Map((p: (nat, Option<nat>)) => p.0,
                Select((p: (nat, Option<nat>)) => p.1.None?, LeftPairsOf(k, spec, left, right, i)))
         == if IndexKept(k, spec, left, right, i) then [i] else []
  {
    var alone := (p: (nat, Option<nat>)) => p.1.None?;
    var found := MatchingIndices(k, spec, RowAt(left, i), right);
    MatchesByIndex(k, spec, RowAt(left, i), right);
    if found == [] {
      assert LeftPairsOf(k, spec, left, right, i) == [(i, None)];
      SelectAll(alone, [(i, None)]);
      MapAppend((p: (nat, Option<nat>)) => p.0, [(i, None)], []);
    } else {
      MapIndex(j => (i, Some(j)), found);
      SelectNone(alone, Map(j => (i, Some(j)), found));
    }
  }

  // ---------------------------------------------------------------------------
  // Residual predicates
  // ---------------------------------------------------------------------------

  predicate CompiledMatch(k: Kernels, spec: JoinSpec, residual: Ast, l: Row, r: Row)
  {
    At(l, spec.leftKey) == At(r, spec.rightKey) && EvalAst(k, residual, l, r) == Bool(true)
  }

  predicate CompiledKept(k: Kernels, spec: JoinSpec, residual: Ast, left: seq<Row>, right: seq<Row>, i: nat)
  {
    (Select(r => CompiledMatch(k, spec, residual, RowAt(left, i), r), right) != []) == spec.joinType.LeftSemi?
  }

  /** The library's mixed semi or anti join: each qualifying left index once, in any order. */
  method MixedJoinKernel(k: Kernels, spec: JoinSpec, residual: Ast, left: seq<Row>, right: seq<Row>)
    returns (indices: seq<nat>)
    ensures SameRows(indices, Select(i => CompiledKept(k, spec, residual, left, right, i), Indices(|left|)))
  {
    indices := Select(i => CompiledKept(k, spec, residual, left, right, i), Indices(|left|));
  }

  /** The compiled residual picks the same left rows as the original predicate over the
      concatenated row. */
  lemma CompiledResidualAgrees(k: Kernels, spec: JoinSpec, width: nat, left: seq<Row>, right: seq<Row>)
    requires spec.residual.Some? && Compile(spec.residual.value, Some(width)).Some? && AllWidth(left, width)
    ensures Select(i => CompiledKept(k, spec, Compile(spec.residual.value, Some(width)).value, left, right, i), Indices(|left|))
         == KeptIndices(k, spec, left, right)
  {
    var ast := Compile(spec.residual.value, Some(width)).value;
    forall i | i in Indices(|left|)
      ensures CompiledKept(k, spec, ast, left, right, i) == IndexKept(k, spec, left, right, i)
    {
      var l := RowAt(left, i);
      assert l in left;
      forall r | r in right ensures CompiledMatch(k, spec, ast, l, r) == Matches(k, spec, l, r) {
        CompileTwoTable(k, spec.residual.value, l, r);
      }
      SelectExt(r => CompiledMatch(k, spec, ast, l, r), r => Matches(k, spec, l, r), right);
    }
    SelectExt(i => CompiledKept(k, spec, ast, left, right, i), (i: nat) => IndexKept(k, spec, left, right, i),
              Indices(|left|));
  }

  // ---------------------------------------------------------------------------
  // The operator
  // ---------------------------------------------------------------------------

  lemma BucketWide(hash: Hash, key: nat, n: nat, i: nat, file: seq<Batch>, nonempty: bool, rows: seq<Row>, width: nat)
    requires n > 0 && FileHolds(file, nonempty, Bucket(hash, key, n, i, rows)) && AllWidth(rows, width)
    ensures AllWidth(Flatten(file), width)
  {
    forall row | row in Flatten(file) ensures |row| == width {
      assert row in multiset(Flatten(file));
      assert row in Bucket(hash, key, n, i, rows);
      SelectMember(r => BucketOf(hash, key, n, r) == i, rows, row);
    }
  }

  class SemiAntiJoinOperator {
    const k: Kernels
    const spec: JoinSpec
    const hash: Hash
    const partitions: nat
    const leftWidth: nat
    const left: BatchSource
    const right: BatchSource
    var compiledResidual: Option<Ast>
    var rightTable: Option<seq<Row>>
    var rightIsEmpty: bool
    var buildFiles: seq<seq<Batch>>
    var buildNonempty: seq<bool>
    var probeFiles: seq<seq<Batch>>
    var probeNonempty: seq<bool>
    var current: nat
    var reader: Option<seq<Batch>>
    var batchIndex: nat
    var built: bool

    constructor (k: Kernels, spec: JoinSpec, hash: Hash, partitionCount: nat, leftWidth: nat,
                 left: BatchSource, right: BatchSource)
      requires left != right && (spec.joinType.LeftSemi? || spec.joinType.LeftAnti?)
      ensures this.k == k && this.spec == spec && this.hash == hash && this.leftWidth == leftWidth
      ensures this.left == left && this.right == right
      ensures Unopened() && partitions == if partitionCount == 0 then 1 else partitionCount
    {
      this.k, this.spec, this.hash, this.leftWidth, this.left, this.right := k, spec, hash, leftWidth, left, right;
      partitions := if partitionCount == 0 then 1 else partitionCount;
      compiledResidual, rightTable, rightIsEmpty := None, None, false;
      buildFiles, buildNonempty, probeFiles, probeNonempty := [], [], [], [];
      current, reader, batchIndex, built := 0, None, 0, false;
    }

    ghost predicate Unopened()
      reads this
    {
      && left != right && partitions > 0 && (spec.joinType.LeftSemi? || spec.joinType.LeftAnti?)
      && rightTable.None? && current == 0 && reader.None? && batchIndex == 0 && !built
    }

    /** The built table holds exactly `rows`. */
    ghost predicate Holds(rows: seq<Row>)
      reads this
    {
      rightIsEmpty == (rows == []) && rightTable == if rows == [] then None else Some(rows)
    }

    ghost predicate Compiled()
      reads this
    {
      if spec.residual.None? then compiledResidual.None?
      else compiledResidual.Some? && Compile(spec.residual.value, Some(leftWidth)) == compiledResidual
    }

    ghost predicate WalkValid()
      reads this
    {
      && |probeFiles| == |buildFiles| == |probeNonempty| == |buildNonempty| == partitions
      && (forall i :: 0 <= i < partitions ==> probeNonempty[i] == (probeFiles[i] != []))
      && (forall i :: 0 <= i < partitions ==> buildNonempty[i] == (buildFiles[i] != []))
      && (forall i :: 0 <= i < partitions ==> forall b :: b in buildFiles[i] ==> b != [])
      && (forall i :: 0 <= i < partitions ==> forall b :: b in probeFiles[i] ==> b != [])
      && (forall i :: 0 <= i < partitions ==> AllWidth(Flatten(probeFiles[i]), leftWidth))
      && current <= partitions
      && (reader.None? ==> batchIndex == 0)
      && (reader.Some? ==> current < partitions && reader.value == probeFiles[current] && batchIndex <= |reader.value|)
      && (built ==> current < partitions && Holds(Flatten(buildFiles[current])))
    }

    ghost predicate Valid()
      reads this, left
    {
      && left != right && partitions > 0 && (spec.joinType.LeftSemi? || spec.joinType.LeftAnti?) && Compiled()
      && if partitions <= 1 then
           rightIsEmpty == rightTable.None? && rightTable != Some([]) && AllWidth(Flatten(left.pending), leftWidth)
         else WalkValid()
    }

    ghost function BuildRows(): seq<Row>
      reads this
    {
      if rightTable.Some? then rightTable.value else []
    }

    /** The rows the operator has still to yield. */
    ghost function Remaining(): seq<Row>
      requires Valid()
      reads this, left
    {
      if partitions <= 1 then JoinRows(k, spec, Flatten(left.pending), BuildRows())
      else WalkRemaining(k, spec, probeFiles, buildFiles, current, batchIndex)
    }

    method BuildHashJoin()
      modifies this`rightTable, this`rightIsEmpty
      ensures Holds(old(BuildRows()))
    {
      if rightTable.None? || |rightTable.value| == 0 {
        rightTable, rightIsEmpty := None, true;
        return;
      }
      rightIsEmpty := false;
    }

    method CompileResidual() returns (ok: bool)
      modifies this`compiledResidual
      ensures ok <==> spec.residual.None? || Compile(spec.residual.value, Some(leftWidth)).Some?
      ensures ok ==> Compiled()
    {
      compiledResidual := None;
      if spec.residual.Some? {
        compiledResidual := Compile(spec.residual.value, Some(leftWidth));
        if compiledResidual.None? {
          return false;
        }
      }
      return true;
    }

    /** Spill both inputs into buckets. */
    method SpillBoth()
      requires Unopened() && Compiled() && partitions > 1 && AllWidth(Flatten(left.pending), leftWidth)
      modifies this`buildFiles, this`buildNonempty, this`probeFiles, this`probeNonempty, left, right
      ensures Valid()
      ensures SameRows(Remaining(), JoinRows(k, spec, old(Flatten(left.pending)), old(Flatten(right.pending))))
    {
      hide JoinRows, WalkRemaining, BucketJoins, Flatten, Bucket, AllWidth, SameRows;
      ghost var leftRows := Flatten(left.pending);
      buildFiles, buildNonempty := SpillPartitioned(right, hash, spec.rightKey, partitions);
      probeFiles, probeNonempty := SpillPartitioned(left, hash, spec.leftKey, partitions);
      BucketJoinsComplete(k, spec, hash, partitions, probeFiles, buildFiles, probeNonempty, buildNonempty,
                          leftRows, old(Flatten(right.pending)));
      WalkStart(k, spec, probeFiles, buildFiles);
      forall i | 0 <= i < partitions ensures AllWidth(Flatten(probeFiles[i]), leftWidth) {
        BucketWide(hash, spec.leftKey, partitions, i, probeFiles[i], probeNonempty[i], leftRows, leftWidth);
      }
    }

    /** Fails, before reading anything, exactly when the residual predicate cannot be compiled. */
    method Open() returns (ok: bool)
      requires Unopened() && AllWidth(Flatten(left.pending), leftWidth)
      modifies this, left, right
      ensures ok <==> spec.residual.None? || Compile(spec.residual.value, Some(leftWidth)).Some?
      ensures ok ==> Valid()
      ensures ok ==> SameRows(Remaining(), JoinRows(k, spec, old(Flatten(left.pending)), old(Flatten(right.pending))))
    {
      hide JoinRows, WalkRemaining, Flatten, AllWidth, WalkValid;
      ok := CompileResidual();
      if !ok {
        return;
      }
      if partitions <= 1 {
        var rows := Concatenate(right);
        rightTable := if rows == [] then None else Some(rows);
        BuildHashJoin();
        return;
      }
      SpillBoth();
    }

    /** The left rows of one batch to keep against the non-empty built table. */
    method ProbeOneBatch(batch: Batch) returns (result: Option<Batch>)
      requires rightTable.Some? && (spec.joinType.LeftSemi? || spec.joinType.LeftAnti?)
      requires Compiled() && AllWidth(batch, leftWidth)
      ensures result.None? ==> JoinRows(k, spec, batch, rightTable.value) == []
      ensures result.Some? ==> result.value != [] && SameRows(result.value, JoinRows(k, spec, batch, rightTable.value))
    {
      hide JoinRows, LeftPairs, InnerPairs, KeptIndices, AllWidth;
      var table := rightTable.value;
      var indices: seq<nat>;
      if compiledResidual.Some? {
        indices := MixedJoinKernel(k, spec, compiledResidual.value, batch, table);
        CompiledResidualAgrees(k, spec, leftWidth, batch, table);
      } else if spec.joinType.LeftSemi? {
        var pairs := InnerJoinKernel(k, spec, batch, table);
        indices := DistinctKernel(Map((p: (nat, Option<nat>)) => p.0, pairs));
        DistinctPairs(k, spec, batch, table, pairs, indices);
      } else {
        var pairs := LeftJoinKernel(k, spec, batch, table);
        indices := Map((p: (nat, Option<nat>)) => p.0, Select((p: (nat, Option<nat>)) => p.1.None?, pairs));
        SentinelPairs(k, spec, batch, table, pairs);
      }
      GatherKept(k, spec, batch, table, indices);
      SameRowsLength(Map(i => RowAt(batch, i), indices), JoinRows(k, spec, batch, table));
      result := if indices == [] then None else Some(Map(i => RowAt(batch, i), indices));
    }

    /** Load the current bucket's build rows. After loading a non-empty bucket the flag that
        would save a reload stays unset, so every later call loads it again. */
    method EnsurePartitionBuilt()
      requires Valid() && partitions > 1 && current < partitions
      modifies this`rightTable, this`rightIsEmpty, this`built
      ensures Valid() && Holds(Flatten(buildFiles[current])) && rightIsEmpty == !buildNonempty[current]
    {
      hide Flatten, AllWidth;
      FlattenOfNonempty(buildFiles[current]);
      if built {
        return;
      }
      if !buildNonempty[current] {
        rightTable, rightIsEmpty, built := None, true, true;
        return;
      }
      rightTable := Some(Flatten(buildFiles[current]));
      BuildHashJoin();
    }

    /** Take the next left batch, splitting its join off what remains. */
    method NextProbe() returns (probe: Option<Batch>)
      requires Valid() && partitions <= 1
      modifies left
      ensures Valid() && |left.pending| <= |old(left.pending)|
      ensures probe.None? ==> Remaining() == [] && old(Remaining()) == []
      ensures probe.Some? ==> |left.pending| < |old(left.pending)| && AllWidth(probe.value, leftWidth)
      ensures probe.Some? ==> old(Remaining()) == JoinRows(k, spec, probe.value, BuildRows()) + Remaining()
    {
      hide JoinRows;
      probe := left.Next();
      if probe.Some? {
        assert old(Flatten(left.pending)) == probe.value + Flatten(left.pending);
        JoinRowsAppend(k, spec, probe.value, Flatten(left.pending), BuildRows());
      } else {
        JoinOfNone(k, spec, BuildRows());
      }
    }

    /** One left batch against whatever build side there is: no build rows let an anti join
        pass the batch through as it is, even an empty one. */
    method JoinBatch(probe: Batch) returns (batch: Option<Batch>)
      requires (spec.joinType.LeftSemi? || spec.joinType.LeftAnti?) && Compiled() && AllWidth(probe, leftWidth)
      requires rightIsEmpty == rightTable.None?
      ensures batch.None? ==> JoinRows(k, spec, probe, BuildRows()) == []
      ensures batch.Some? ==> (batch.value == [] ==> probe == [])
      ensures batch.Some? ==> SameRows(batch.value, JoinRows(k, spec, probe, BuildRows()))
    {
      hide JoinRows, AllWidth;
      if rightIsEmpty {
        JoinWithNothing(k, spec, probe);
        batch := if spec.joinType.LeftAnti? then Some(probe) else None;
      } else {
        batch := ProbeOneBatch(probe);
      }
    }

    method NextUnpartitioned() returns (batch: Option<Batch>)
      requires Valid() && partitions <= 1
      modifies left
      ensures Valid() && |left.pending| <= |old(left.pending)|
      ensures batch.None? ==> Remaining() == [] && old(Remaining()) == []
      ensures batch.Some? ==> |left.pending| < |old(left.pending)| && SameRows(batch.value + Remaining(), old(Remaining()))
    {
      hide JoinRows, SameRows, Flatten, BuildRows, AllWidth, Compiled, WalkValid, WalkRemaining;
      var probe := NextProbe();
      while probe.Some?
        invariant Valid() && |left.pending| <= |old(left.pending)|
        invariant probe.Some? ==> |left.pending| < |old(left.pending)| && AllWidth(probe.value, leftWidth)
        invariant probe.None? ==> Remaining() == [] && old(Remaining()) == []
        invariant probe.Some? ==> old(Remaining()) == JoinRows(k, spec, probe.value, BuildRows()) + Remaining()
        decreases probe.Some?, |left.pending|
      {
        ghost var joined, rest := JoinRows(k, spec, probe.value, BuildRows()), Remaining();
        batch := JoinBatch(probe.value);
        if batch.Some? {
          SameRowsPrefix(batch.value, joined, rest);
          return;
        }
        assert joined + rest == rest;
        probe := NextProbe();
      }
      batch := None;
    }

    lemma BatchWide(i: nat, b: nat)
      requires |probeFiles| == partitions && i < partitions && b < |probeFiles[i]|
      requires AllWidth(Flatten(probeFiles[i]), leftWidth)
      ensures AllWidth(probeFiles[i][b], leftWidth)
    {
      forall row | row in probeFiles[i][b] ensures row in Flatten(probeFiles[i]) {
        FlatMapMember((x: Batch) => x, probeFiles[i], row);
        assert probeFiles[i][b] in probeFiles[i];
      }
    }

    method ProbeBucket() returns (batch: Option<Batch>)
      requires Valid() && partitions > 1 && current < partitions && reader.Some?
      requires Holds(Flatten(buildFiles[current]))
      modifies this`batchIndex
      ensures Valid()
      ensures batch.None? ==> batchIndex == |probeFiles[current]| && old(Remaining()) == Remaining()
      ensures batch.Some? ==> batch.value != [] && SameRows(batch.value + Remaining(), old(Remaining()))
    {
      hide JoinRows, WalkRemaining, Flatten, SameRows, AllWidth;
      while batchIndex < |reader.value|
        invariant Valid() && batchIndex <= |reader.value| && Holds(Flatten(buildFiles[current]))
        invariant old(Remaining()) == Remaining()
      {
        WalkStep(k, spec, probeFiles, buildFiles, current, batchIndex);
        BatchWide(current, batchIndex);
        var probe := reader.value[batchIndex];
        assert probe in probeFiles[current];
        batchIndex := batchIndex + 1;
        batch := JoinBatch(probe);
        if batch.Some? {
          SameRowsPrefix(batch.value, JoinRows(k, spec, probe, BuildRows()), Remaining());
          return;
        }
      }
      batch := None;
    }

    method LeaveBucket()
      requires Valid() && partitions > 1 && current < partitions
      requires batchIndex == |probeFiles[current]| || (buildFiles[current] == [] && spec.joinType.LeftSemi?)
      modifies this`rightTable, this`reader, this`batchIndex, this`built, this`current
      ensures Valid() && Remaining() == old(Remaining()) && current == old(current) + 1
    {
      hide WalkRemaining, Flatten, AllWidth;
      WalkNextBucket(k, spec, probeFiles, buildFiles, current, batchIndex);
      rightTable, reader, batchIndex, built := None, None, 0, false;
      current := current + 1;
    }

    method NextPartitioned() returns (batch: Option<Batch>)
      requires Valid() && partitions > 1
      modifies this
      ensures Valid()
      ensures batch.None? ==> Remaining() == [] && old(Remaining()) == []
      ensures batch.Some? ==> batch.value != [] && SameRows(batch.value + Remaining(), old(Remaining()))
    {
      hide WalkRemaining, Flatten, SameRows, AllWidth;
      while current < partitions
        invariant Valid() && old(Remaining()) == Remaining()
        decreases partitions - current
      {
        var orphans := spec.joinType.LeftAnti? && !buildNonempty[current];
        if probeNonempty[current] && (buildNonempty[current] || orphans) {
          EnsurePartitionBuilt();
          if !rightIsEmpty || spec.joinType.LeftAnti? {
            if reader.None? {
              reader, batchIndex := Some(probeFiles[current]), 0;
            }
            batch := ProbeBucket();
            if batch.Some? {
              return;
            }
          }
        }
        LeaveBucket();
      }
      WalkEnd(k, spec, probeFiles, buildFiles);
      batch := None;
    }

    /** Yield the next batch, or None when all has been yielded. Only an empty left batch that
        an anti join passes through yields an empty batch. */
    method Next() returns (batch: Option<Batch>)
      requires Valid()
      modifies this, left
      ensures Valid() && |left.pending| <= |old(left.pending)|
      ensures batch.None? ==> Remaining() == [] && old(Remaining()) == []
      ensures batch.Some? ==> SameRows(batch.value + Remaining(), old(Remaining()))
      ensures batch == Some([]) ==> |left.pending| < |old(left.pending)|
    {
      if partitions <= 1 {
        batch := NextUnpartitioned();
      } else {
        batch := NextPartitioned();
      }
    }
  }

  /** A whole run: open, then take every batch. */
  method RunSemiAntiJoin(k: Kernels, spec: JoinSpec, hash: Hash, partitionCount: nat, leftWidth: nat,
                         left: BatchSource, right: BatchSource) returns (result: Option<seq<Row>>)
    requires left != right && (spec.joinType.LeftSemi? || spec.joinType.LeftAnti?)
    requires AllWidth(Flatten(left.pending), leftWidth)
    modifies left, right
    ensures result.Some? <==> spec.residual.None? || Compile(spec.residual.value, Some(leftWidth)).Some?
    ensures result.Some? ==>
      SameRows(result.value, JoinRows(k, spec, old(Flatten(left.pending)), old(Flatten(right.pending))))
    ensures result.Some? && KeysInRange(spec, old(Flatten(left.pending)), old(Flatten(right.pending))) ==>
              IsJoin(k, spec, old(Flatten(left.pending)), old(Flatten(right.pending)), result.value)
  {
    hide JoinRows, SameRows, Flatten, AllWidth, KeysInRange, IsJoin;
    hide WalkRemaining, SemiAntiJoinOperator.WalkValid;
    var join := new SemiAntiJoinOperator(k, spec, hash, partitionCount, leftWidth, left, right);
    ghost var expected := JoinRows(k, spec, Flatten(left.pending), Flatten(right.pending));
    var ok := join.Open();
    if !ok {
      return None;
    }
    var rows := [];
    assert [] + join.Remaining() == join.Remaining();
    while true
      invariant join.Valid() && fresh(join) && join.left == left
      invariant SameRows(rows + join.Remaining(), expected)
      decreases |join.Remaining()|, |left.pending|
    {
      ghost var before := join.Remaining();
      var batch := join.Next();
      if batch.None? {
        assert rows + [] == rows;
        if KeysInRange(spec, old(Flatten(left.pending)), old(Flatten(right.pending))) {
          JoinMeans(k, spec, old(Flatten(left.pending)), old(Flatten(right.pending)), rows);
        }
        return Some(rows);
      }
      SameRowsSym(batch.value + join.Remaining(), before);
      SameRowsMove(rows, before, batch.value, join.Remaining(), expected);
      rows := rows + batch.value;
    }
  }
}
