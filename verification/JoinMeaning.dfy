/** What a join is, pair by pair: how often every row occurs in the result, counted from the
input rows and the values in their key columns. Two NULL keys are equal
(src/execution_gpu/hash_join_operator.cpp:144). */
module JoinMeaning {
  import opened Expressions
  import opened Relational
  import opened JoinSemantics

  /** The key columns hold equal values, NULL being equal to NULL, and the extra condition is TRUE. */
  ghost predicate Together(k: Kernels, spec: JoinSpec, l: Row, r: Row)
  {
    && spec.leftKey < |l| && spec.rightKey < |r| && l[spec.leftKey] == r[spec.rightKey]
    && (spec.residual.Some? ==> Eval(k, spec.residual.value, l + r) == Bool(true))
  }

  ghost predicate HasPartner(k: Kernels, spec: JoinSpec, l: Row, right: seq<Row>)
  {
    exists j :: 0 <= j < |right| && Together(k, spec, l, right[j])
  }

  /** How many right rows make `o` with `l`. */
  ghost function Partners(k: Kernels, spec: JoinSpec, l: Row, right: seq<Row>, o: Row): nat
  {
    if right == [] then 0
    else (if Together(k, spec, l, right[0]) && o == l + right[0] then 1 else 0) + Partners(k, spec, l, right[1..], o)
  }

  /** How many pairs of a left and a right row make `o`. */
  ghost function Pairs(k: Kernels, spec: JoinSpec, left: seq<Row>, right: seq<Row>, o: Row): nat
  {
    if left == [] then 0 else Partners(k, spec, left[0], right, o) + Pairs(k, spec, left[1..], right, o)
  }

  ghost predicate NullExtended(spec: JoinSpec, l: Row, o: Row)
  {
    |o| == |l| + spec.rightWidth && o[..|l|] == l && forall i :: |l| <= i < |o| ==> o[i] == Null
  }

  /** How many left rows without a partner are `o` when extended by NULLs. */
  ghost function Alone(k: Kernels, spec: JoinSpec, left: seq<Row>, right: seq<Row>, o: Row): nat
  {
    if left == [] then 0
    else
      var first := if !HasPartner(k, spec, left[0], right) && NullExtended(spec, left[0], o) then 1 else 0;
      first + Alone(k, spec, left[1..], right, o)
  }

  ghost function Occurrences(k: Kernels, spec: JoinSpec, left: seq<Row>, right: seq<Row>, o: Row): nat
  {
    match spec.joinType
    case Inner => Pairs(k, spec, left, right, o)
    case LeftOuter => Pairs(k, spec, left, right, o) + Alone(k, spec, left, right, o)
    case LeftSemi => if HasPartner(k, spec, o, right) then multiset(left)[o] else 0
    case LeftAnti => if HasPartner(k, spec, o, right) then 0 else multiset(left)[o]
  }

  ghost predicate KeysInRange(spec: JoinSpec, left: seq<Row>, right: seq<Row>)
  {
    (forall l :: l in left ==> spec.leftKey < |l|) && (forall r :: r in right ==> spec.rightKey < |r|)
  }

  /** Every row occurs as often as the join says. */
  ghost predicate IsJoin(k: Kernels, spec: JoinSpec, left: seq<Row>, right: seq<Row>, rows: seq<Row>)
  {
    forall o :: multiset(rows)[o] == Occurrences(k, spec, left, right, o)
  }

  // ---------------------------------------------------------------------------
  // One left row
  // ---------------------------------------------------------------------------

  lemma SomePartner(k: Kernels, spec: JoinSpec, l: Row, right: seq<Row>)
    requires spec.leftKey < |l| && forall r :: r in right ==> spec.rightKey < |r|
    ensures MatchesOf(k, spec, l, right) != [] <==> HasPartner(k, spec, l, right)
  {
    var matched := MatchesOf(k, spec, l, right);
    if matched != [] {
      SelectMember(r => Matches(k, spec, l, r), right, matched[0]);
      var j :| 0 <= j < |right| && right[j] == matched[0];
      assert Together(k, spec, l, right[j]);
    }
    if j :| 0 <= j < |right| && Together(k, spec, l, right[j]) {
      assert right[j] in right;
      SelectMember(r => Matches(k, spec, l, r), right, right[j]);
    }
  }

  lemma {:induction false} MatchedCount(k: Kernels, spec: JoinSpec, l: Row, right: seq<Row>, o: Row)
    requires spec.leftKey < |l| && forall r :: r in right ==> spec.rightKey < |r|
    ensures multiset(Map(r => l + r, MatchesOf(k, spec, l, right)))[o] == Partners(k, spec, l, right, o)
  {
    if right != [] {
      var matches, glue := (r: Row) => Matches(k, spec, l, r), (r: Row) => l + r;
      var rest := MatchesOf(k, spec, l, right[1..]);
      assert right[0] in right;
      MatchedCount(k, spec, l, right[1..], o);
      SelectCons(matches, right);
      if matches(right[0]) {
        MapAppend(glue, [right[0]], rest);
        MapIndex(glue, [right[0]]);
        assert Map(glue, [right[0]]) == [l + right[0]];
        assert Map(r => l + r, MatchesOf(k, spec, l, right)) == [l + right[0]] + Map(r => l + r, rest);
        assert Together(k, spec, l, right[0]);
      } else {
        assert MatchesOf(k, spec, l, right) == rest;
      }
    }
  }

  lemma NullsAppended(spec: JoinSpec, l: Row, o: Row)
    ensures NullExtended(spec, l, o) <==> o == l + Nulls(spec.rightWidth)
  {
    if NullExtended(spec, l, o) {
      assert o == o[..|l|] + o[|l|..];
      assert o[|l|..] == Nulls(spec.rightWidth);
    }
  }

  lemma OneCount(k: Kernels, spec: JoinSpec, l: Row, right: seq<Row>, o: Row)
    requires KeysInRange(spec, [l], right)
    ensures multiset(JoinOne(k, spec, l, right))[o] == Occurrences(k, spec, [l], right, o)
  {
    var one := [l];
    assert l in one && one[1..] == [];
    assert Pairs(k, spec, one, right, o) == Partners(k, spec, l, right, o) + Pairs(k, spec, one[1..], right, o);
    assert Alone(k, spec, one[1..], right, o) == 0;
    SomePartner(k, spec, l, right);
    MatchedCount(k, spec, l, right, o);
    NullsAppended(spec, l, o);
    if !HasPartner(k, spec, l, right) {
      NoPartners(k, spec, l, right, o);
    }
  }

  lemma {:induction false} NoPartners(k: Kernels, spec: JoinSpec, l: Row, right: seq<Row>, o: Row)
    requires !HasPartner(k, spec, l, right)
    ensures Partners(k, spec, l, right, o) == 0
  {
    if right != [] {
      assert forall j :: 0 <= j < |right[1..]| ==> right[1..][j] == right[j + 1];
      assert !Together(k, spec, l, right[0]);
      NoPartners(k, spec, l, right[1..], o);
    }
  }

  // ---------------------------------------------------------------------------
  // Whole inputs
  // ---------------------------------------------------------------------------

  lemma OccurrencesCons(k: Kernels, spec: JoinSpec, left: seq<Row>, right: seq<Row>, o: Row)
    requires left != []
    ensures Occurrences(k, spec, left, right, o)
         == Occurrences(k, spec, [left[0]], right, o) + Occurrences(k, spec, left[1..], right, o)
  {
    var one := [left[0]];
    assert one[1..] == [] && left == one + left[1..];
    assert Pairs(k, spec, one, right, o) == Partners(k, spec, left[0], right, o) + Pairs(k, spec, one[1..], right, o);
    assert Alone(k, spec, one[1..], right, o) == 0;
  }

  lemma {:induction false} JoinCounted(k: Kernels, spec: JoinSpec, left: seq<Row>, right: seq<Row>, o: Row)
    requires KeysInRange(spec, left, right)
    ensures multiset(JoinRows(k, spec, left, right))[o] == Occurrences(k, spec, left, right, o)
  {
    hide JoinOne;
    if left != [] {
      assert left[0] in left && forall l :: l in left[1..] ==> l in left;
      JoinCounted(k, spec, left[1..], right, o);
      OneCount(k, spec, left[0], right, o);
      OccurrencesCons(k, spec, left, right, o);
    }
  }

  /** Any arrangement of the rows of a join is a join in this sense. */
  lemma JoinMeans(k: Kernels, spec: JoinSpec, left: seq<Row>, right: seq<Row>, rows: seq<Row>)
    requires KeysInRange(spec, left, right) && SameRows(rows, JoinRows(k, spec, left, right))
    ensures IsJoin(k, spec, left, right, rows)
  {
    hide JoinRows, Occurrences, KeysInRange;
    forall o ensures multiset(rows)[o] == Occurrences(k, spec, left, right, o) {
      JoinCounted(k, spec, left, right, o);
    }
  }

  // ---------------------------------------------------------------------------
  // Which rows occur
  // ---------------------------------------------------------------------------

  lemma {:induction false} SomePartners(k: Kernels, spec: JoinSpec, l: Row, right: seq<Row>, o: Row)
    ensures Partners(k, spec, l, right, o) > 0 <==> exists r :: r in right && Together(k, spec, l, r) && o == l + r
  {
    if right != [] {
      SomePartners(k, spec, l, right[1..], o);
      assert forall r :: r in right <==> r == right[0] || r in right[1..];
    }
  }

  lemma {:induction false} SomePairs(k: Kernels, spec: JoinSpec, left: seq<Row>, right: seq<Row>, o: Row)
    ensures Pairs(k, spec, left, right, o) > 0 <==>
      exists l, r :: l in left && r in right && Together(k, spec, l, r) && o == l + r
  {
    if left != [] {
      SomePairs(k, spec, left[1..], right, o);
      SomePartners(k, spec, left[0], right, o);
      assert forall l :: l in left <==> l == left[0] || l in left[1..];
    }
  }

  /** An inner join consists of the pairs whose keys are equal, and of nothing else. */
  lemma InnerJoinRows(k: Kernels, spec: JoinSpec, left: seq<Row>, right: seq<Row>, rows: seq<Row>, o: Row)
    requires spec.joinType.Inner? && IsJoin(k, spec, left, right, rows)
    ensures o in rows <==> exists l, r :: l in left && r in right && Together(k, spec, l, r) && o == l + r
  {
    SomePairs(k, spec, left, right, o);
    assert o in rows <==> o in multiset(rows);
  }

  /** For example, rows whose keys are NULL join. */
  lemma NullKeysJoin(k: Kernels)
    ensures var spec := JoinSpec(Inner, 0, 0, 1, None);
            JoinRows(k, spec, [[Null]], [[Null]]) == [[Null, Null]]
  {
    var spec := JoinSpec(Inner, 0, 0, 1, None);
    SelectAll((r: Row) => Matches(k, spec, [Null], r), [[Null]]);
    var l: Row, rows: seq<Row> := [Null], [[Null]];
    MapIndex((r: Row) => l + r, rows);
    assert l + rows[0] == [Null, Null];
    assert MatchesOf(k, spec, l, rows) == rows && rows[1..] == [];
    assert JoinRows(k, spec, rows, rows) == JoinOne(k, spec, l, rows) + JoinRows(k, spec, [], rows);
  }
}
