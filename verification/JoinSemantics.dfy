/** The reference meaning of every join: a left-major nested loop whose key comparison
treats NULL as equal to NULL. */
module JoinSemantics {
  import opened Expressions
  import opened Relational

  datatype JoinType = Inner | LeftOuter | LeftSemi | LeftAnti

  /** `residual` is an extra condition over the concatenated row (EXISTS subqueries). */
  datatype JoinSpec = JoinSpec(joinType: JoinType, leftKey: nat, rightKey: nat, rightWidth: nat,
                               residual: Option<Expr>)

  function At(row: Row, i: nat): Value
  {
    if i < |row| then row[i] else Null
  }

  function Nulls(n: nat): (row: Row)
    ensures |row| == n && forall i :: 0 <= i < n ==> row[i] == Null
  {
    seq(n, _ => Null)
  }

  ghost predicate AllWidth(rows: seq<Row>, n: nat)
  {
    forall row :: row in rows ==> |row| == n
  }

  predicate Matches(k: Kernels, spec: JoinSpec, l: Row, r: Row)
  {
    && At(l, spec.leftKey) == At(r, spec.rightKey)
    && (spec.residual.Some? ==> Holds(k, spec.residual.value, l + r))
  }

  function MatchesOf(k: Kernels, spec: JoinSpec, l: Row, right: seq<Row>): seq<Row>
  {
    Select(r => Matches(k, spec, l, r), right)
  }

  /** What one left row contributes. */
  function JoinOne(k: Kernels, spec: JoinSpec, l: Row, right: seq<Row>): seq<Row>
  {
    var matched := MatchesOf(k, spec, l, right);
    match spec.joinType
    case Inner => Map(r => l + r, matched)
    case LeftOuter => if matched == [] then [l + Nulls(spec.rightWidth)] else Map(r => l + r, matched)
    case LeftSemi => if matched == [] then [] else [l]
    case LeftAnti => if matched == [] then [l] else []
  }

  function JoinRows(k: Kernels, spec: JoinSpec, left: seq<Row>, right: seq<Row>): seq<Row>
  {
    FlatMap(l => JoinOne(k, spec, l, right), left)
  }

  /** Every output row of `l` starts with `l`, and for semi and anti joins is `l`. */
  lemma JoinOneShape(k: Kernels, spec: JoinSpec, l: Row, right: seq<Row>, o: Row)
    requires o in JoinOne(k, spec, l, right)
    ensures |l| <= |o| && o[..|l|] == l
    ensures spec.joinType.LeftSemi? || spec.joinType.LeftAnti? ==> o == l
    ensures !(spec.joinType.LeftSemi? || spec.joinType.LeftAnti?) ==>
              o == l + Nulls(spec.rightWidth) || exists r :: r in right && o == l + r
  {
    var matched := MatchesOf(k, spec, l, right);
    MapMember(r => l + r, matched, o);
    forall r | r in matched ensures r in right {
      SelectMember(r => Matches(k, spec, l, r), right, r);
    }
  }

  /** A condition that only looks at the left part of the output can be tested before the join. */
  lemma SelectBeforeJoinLeft(k: Kernels, spec: JoinSpec, p: Row -> bool, left: seq<Row>, right: seq<Row>)
    requires forall l, o :: l in left && o in JoinOne(k, spec, l, right) ==> p(o) == p(l)
    ensures Select(p, JoinRows(k, spec, left, right)) == JoinRows(k, spec, Select(p, left), right)
  {
    var one := (l: Row) => JoinOne(k, spec, l, right);
    var kept := (l: Row) => if p(l) then one(l) else [];
    forall l | l in left
      ensures Select(p, one(l)) == kept(l)
    {
      if p(l) {
        SelectAll(p, one(l));
      } else {
        SelectNone(p, one(l));
      }
    }
    SelectOfFlatMap(p, one, kept, left);
    FlatMapOfSelect(one, p, kept, left);
  }

  /** For an inner join, a condition on the right part can be tested before the join. */
  lemma SelectBeforeJoinRight(k: Kernels, spec: JoinSpec, p: Row -> bool, q: Row -> bool,
                              left: seq<Row>, right: seq<Row>)
    requires spec.joinType.Inner?
    requires forall l, r :: l in left && r in right ==> p(l + r) == q(r)
    ensures Select(p, JoinRows(k, spec, left, right)) == JoinRows(k, spec, left, Select(q, right))
  {
    forall l | l in left
      ensures JoinOne(k, spec, l, Select(q, right)) == Select(p, JoinOne(k, spec, l, right))
    {
      InnerSelect(k, spec, l, p, q, right);
    }
    SelectOfFlatMap(p, l => JoinOne(k, spec, l, right), l => JoinOne(k, spec, l, Select(q, right)), left);
  }

  lemma InnerSelect(k: Kernels, spec: JoinSpec, l: Row, p: Row -> bool, q: Row -> bool, right: seq<Row>)
    requires spec.joinType.Inner?
    requires forall r :: r in right ==> p(l + r) == q(r)
    ensures Select(p, JoinOne(k, spec, l, right)) == JoinOne(k, spec, l, Select(q, right))
  {
    var m := (r: Row) => Matches(k, spec, l, r);
    var matched := Select(m, right);
    forall r | r in matched ensures p(l + r) == q(r) { SelectMember(m, right, r); }
    SelectOfMap(p, r => l + r, q, matched);
    SelectCommute(q, m, right);
  }

  // ---------------------------------------------------------------------------
  // Joins as multisets
  // ---------------------------------------------------------------------------

  lemma JoinOneSameRows(k: Kernels, spec: JoinSpec, l: Row, right: seq<Row>, right': seq<Row>)
    requires SameRows(right, right')
    ensures SameRows(JoinOne(k, spec, l, right), JoinOne(k, spec, l, right'))
  {
    var matched, matched' := MatchesOf(k, spec, l, right), MatchesOf(k, spec, l, right');
    SelectSameRows(r => Matches(k, spec, l, r), right, right');
    SameRowsLength(matched, matched');
    if spec.joinType.Inner? || spec.joinType.LeftOuter? {
      MapSameRows(r => l + r, matched, matched');
    }
  }

  /** A join's rows depend on its inputs only as multisets. */
  lemma JoinSameRows(k: Kernels, spec: JoinSpec, left: seq<Row>, left': seq<Row>, right: seq<Row>, right': seq<Row>)
    requires SameRows(left, left') && SameRows(right, right')
    ensures SameRows(JoinRows(k, spec, left, right), JoinRows(k, spec, left', right'))
  {
    forall l | l in left ensures SameRows(JoinOne(k, spec, l, right), JoinOne(k, spec, l, right')) {
      JoinOneSameRows(k, spec, l, right, right');
    }
    FlatMapSameRowsEach(l => JoinOne(k, spec, l, right), l => JoinOne(k, spec, l, right'), left);
    FlatMapSameRows(l => JoinOne(k, spec, l, right'), left, left');
  }

  lemma JoinRowsAppend(k: Kernels, spec: JoinSpec, a: seq<Row>, b: seq<Row>, right: seq<Row>)
    ensures JoinRows(k, spec, a + b, right) == JoinRows(k, spec, a, right) + JoinRows(k, spec, b, right)
  {
    FlatMapAppend(l => JoinOne(k, spec, l, right), a, b);
  }

  /** Against no rows an inner or semi join is empty, an anti join passes every row, and an
      outer join null-extends every row. */
  lemma JoinWithNothing(k: Kernels, spec: JoinSpec, left: seq<Row>)
    ensures spec.joinType.Inner? || spec.joinType.LeftSemi? ==> JoinRows(k, spec, left, []) == []
    ensures spec.joinType.LeftAnti? ==> JoinRows(k, spec, left, []) == left
    ensures spec.joinType.LeftOuter? ==> JoinRows(k, spec, left, []) == Map(l => l + Nulls(spec.rightWidth), left)
  {
    if spec.joinType.Inner? || spec.joinType.LeftSemi? {
      FlatMapEmpty(l => JoinOne(k, spec, l, []), left);
    } else if spec.joinType.LeftAnti? {
      MapOfSelect((l: Row) => l, l => true, l => JoinOne(k, spec, l, []), left);
      SelectAll(l => true, left);
      MapIndex((l: Row) => l, left);
    } else {
      MapOfSelect(l => l + Nulls(spec.rightWidth), l => true, l => JoinOne(k, spec, l, []), left);
      SelectAll(l => true, left);
    }
  }
}
