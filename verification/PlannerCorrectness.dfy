/** Physical planning keeps query results.

A physical row is the logical row gathered through a `layout`: physical column j holds
logical column layout[j]. The proofs carry a layout for every node and show that the
node's column map inverts it, so each re-indexed expression means on the physical row what
the original means on the full one. */
module PlannerCorrectness {
  import opened Expressions
  import opened Relational
  import opened Aggregation
  import opened JoinSemantics
  import opened LogicalPlans
  import opened PhysicalPlanner

  // ---------------------------------------------------------------------------
  // Layouts
  // ---------------------------------------------------------------------------

  /** `columnMap` sends each logical column of a `width`-wide row that it knows to the
      physical column holding it. */
  ghost predicate Fits(columnMap: ColumnMap, layout: seq<nat>, width: nat)
  {
    && |columnMap| == width
    && (forall j :: 0 <= j < |layout| ==> layout[j] < width)
    && (forall i :: 0 <= i < width && columnMap[i].Some? ==>
          columnMap[i].value < |layout| && layout[columnMap[i].value] == i)
  }

  lemma GatherAt(layout: seq<nat>, row: Row)
    ensures |Gather(layout, row)| == |layout|
    ensures forall j :: 0 <= j < |layout| ==> Gather(layout, row)[j] == At(row, layout[j])
  {
    MapIndex((i: nat) => At(row, i), layout);
  }

  /** A remapped expression means on the gathered row what the original means on the full one. */
  lemma RemapPreserves(k: Kernels, e: Expr, columnMap: ColumnMap, layout: seq<nat>, row: Row)
    requires Fits(columnMap, layout, |row|) && Remap(e, columnMap).Some?
    ensures Eval(k, Remap(e, columnMap).value, Gather(layout, row)) == Eval(k, e, row)
  {
    GatherAt(layout, row);
    RenamePreserves(k, e, Columns(e), (i: nat) => Lookup(columnMap, i), row, Gather(layout, row));
  }

  lemma {:induction false} RemapItemsPreserves(k: Kernels, items: seq<NamedExpr>, columnMap: ColumnMap,
                                               layout: seq<nat>, row: Row)
    requires Fits(columnMap, layout, |row|) && RemapItems(items, columnMap).Some?
    ensures EvalItems(k, RemapItems(items, columnMap).value, Gather(layout, row)) == EvalItems(k, items, row)
  {
    if items != [] {
      var e := (item: NamedExpr) => Eval(k, item.expr, row);
      var e' := (item: NamedExpr) => Eval(k, item.expr, Gather(layout, row));
      var rest := RemapItems(items[1..], columnMap).value;
      var first := NamedExpr(Remap(items[0].expr, columnMap).value, items[0].name);
      RemapPreserves(k, items[0].expr, columnMap, layout, row);
      RemapItemsPreserves(k, items[1..], columnMap, layout, row);
      assert items == [items[0]] + items[1..];
      MapAppend(e, [items[0]], items[1..]);
      MapAppend(e', [first], rest);
    }
  }

  lemma {:induction false} RemapItemsLength(items: seq<NamedExpr>, columnMap: ColumnMap)
    requires RemapItems(items, columnMap).Some?
    ensures |RemapItems(items, columnMap).value| == |items|
  {
    if items != [] { RemapItemsLength(items[1..], columnMap); }
  }

  // ---------------------------------------------------------------------------
  // Scans
  // ---------------------------------------------------------------------------

  lemma {:induction false} KeptFits(fields: seq<Field>, required: set<string>, n: nat)
    requires n <= |fields|
    ensures Fits(NarrowMap(fields, required, n), Kept(fields, required, n), n)
    ensures forall i :: 0 <= i < n ==> (NarrowMap(fields, required, n)[i].Some? <==> fields[i].name in required)
  {
    if n > 0 {
      KeptFits(fields, required, n - 1);
    }
  }

  lemma ScanFits(p: Plan)
    requires p.Scan?
    ensures var q := ConvertScan(p);
            Fits(q.columnMap, q.kept, |p.fields|) && |q.names| == |q.kept| &&
            forall i :: 0 <= i < |p.fields| && p.fields[i].name in p.required ==> q.columnMap[i].Some?
  {
    KeptFits(p.fields, p.required, |p.fields|);
    var q := ConvertScan(p);
    MapIndex((i: nat) => if i < |p.fields| then p.fields[i].name else "", q.kept);
    var narrowed := NarrowMap(p.fields, p.required, |p.fields|);
    if Kept(p.fields, p.required, |p.fields|) == [] && |p.fields| > 0 {
      assert forall i :: 0 <= i < |p.fields| ==> narrowed[i].None?;
    }
  }

  // ---------------------------------------------------------------------------
  // Joins over rearranged inputs
  // ---------------------------------------------------------------------------

  /** What `gl`, `gr` and `g` must satisfy for a join of gathered rows to be the gathered join. */
  ghost predicate Commutes(k: Kernels, spec: JoinSpec, spec': JoinSpec, gl: Row -> Row, gr: Row -> Row,
                           g: Row -> Row, l: Row, right: seq<Row>)
  {
    && spec'.joinType == spec.joinType
    && (forall r :: r in right ==> Matches(k, spec', gl(l), gr(r)) == Matches(k, spec, l, r))
    && (if spec.joinType.LeftSemi? || spec.joinType.LeftAnti? then g(l) == gl(l)
        else && (forall r :: r in right ==> g(l + r) == gl(l) + gr(r))
             && (spec.joinType.LeftOuter? ==> g(l + Nulls(spec.rightWidth)) == gl(l) + Nulls(spec'.rightWidth)))
  }

  lemma JoinOneOfGathered(k: Kernels, spec: JoinSpec, spec': JoinSpec, gl: Row -> Row, gr: Row -> Row,
                          g: Row -> Row, l: Row, right: seq<Row>)
    requires Commutes(k, spec, spec', gl, gr, g, l, right)
    ensures JoinOne(k, spec', gl(l), Map(gr, right)) == Map(g, JoinOne(k, spec, l, right))
  {
    var matched := MatchesOf(k, spec, l, right);
    SelectOfMap(r => Matches(k, spec', gl(l), r), gr, r => Matches(k, spec, l, r), right);
    MapIndex(gr, matched);
    if spec.joinType.Inner? || spec.joinType.LeftOuter? {
      forall r | r in matched ensures g(l + r) == gl(l) + gr(r) {
        SelectMember(r => Matches(k, spec, l, r), right, r);
      }
      MapMap(r => gl(l) + r, gr, r => gl(l) + gr(r), matched);
      MapMap(g, r => l + r, r => gl(l) + gr(r), matched);
      MapAppend(g, [l + Nulls(spec.rightWidth)], []);
    } else {
      MapAppend(g, [l], []);
    }
  }

  lemma JoinOfGathered(k: Kernels, spec: JoinSpec, spec': JoinSpec, gl: Row -> Row, gr: Row -> Row,
                       g: Row -> Row, left: seq<Row>, right: seq<Row>)
    requires forall l :: l in left ==> Commutes(k, spec, spec', gl, gr, g, l, right)
    ensures JoinRows(k, spec', Map(gl, left), Map(gr, right)) == Map(g, JoinRows(k, spec, left, right))
  {
    var both := (l: Row) => JoinOne(k, spec', gl(l), Map(gr, right));
    FlatMapOfMap(l => JoinOne(k, spec', l, Map(gr, right)), gl, both, left);
    forall l | l in left ensures both(l) == Map(g, JoinOne(k, spec, l, right)) {
      JoinOneOfGathered(k, spec, spec', gl, gr, g, l, right);
    }
    MapOfFlatMap(g, l => JoinOne(k, spec, l, right), both, left);
  }

  function Exchanged(spec: JoinSpec, leftWidth: nat): JoinSpec
  {
    JoinSpec(spec.joinType, spec.rightKey, spec.leftKey, leftWidth, spec.residual)
  }

  function RightThenLeft(n: nat): Row -> Row
  {
    (row: Row) => if n <= |row| then row[n..] + row[..n] else row
  }

  function Pair(k: Kernels, spec: JoinSpec, l: Row, r: Row): seq<Row>
  {
    if Matches(k, spec, l, r) then [l + r] else []
  }

  lemma InnerAsLoop(k: Kernels, spec: JoinSpec, l: Row, right: seq<Row>)
    requires spec.joinType.Inner?
    ensures JoinOne(k, spec, l, right) == FlatMap(r => Pair(k, spec, l, r), right)
  {
    MapOfSelect(r => l + r, r => Matches(k, spec, l, r), r => Pair(k, spec, l, r), right);
  }

  lemma SwappedRow(k: Kernels, spec: JoinSpec, l: Row, right: seq<Row>, n: nat)
    requires spec.joinType.Inner? && spec.residual.None? && |l| == n
    ensures Map(RightThenLeft(n), JoinOne(k, spec, l, right))
         == FlatMap(r => Pair(k, Exchanged(spec, n), r, l), right)
  {
    var matched := MatchesOf(k, spec, l, right);
    forall r | r in matched ensures RightThenLeft(n)(l + r) == r + l {
      assert (l + r)[n..] == r && (l + r)[..n] == l;
    }
    MapMap(RightThenLeft(n), r => l + r, r => r + l, matched);
    MapOfSelect(r => r + l, r => Matches(k, spec, l, r), r => Pair(k, Exchanged(spec, n), r, l), right);
  }

  /** Exchanging the inputs of an inner join exchanges the halves of its rows, no more. */
  lemma InnerSwap(k: Kernels, spec: JoinSpec, left: seq<Row>, right: seq<Row>, n: nat)
    requires spec.joinType.Inner? && spec.residual.None? && AllWidth(left, n)
    ensures SameRows(JoinRows(k, Exchanged(spec, n), right, left),
                     Map(RightThenLeft(n), JoinRows(k, spec, left, right)))
  {
    var spec' := Exchanged(spec, n);
    var perLeft := (l: Row) => Map(RightThenLeft(n), JoinOne(k, spec, l, right));
    MapOfFlatMap(RightThenLeft(n), l => JoinOne(k, spec, l, right), perLeft, left);
    forall l | l in left ensures perLeft(l) == FlatMap(r => Pair(k, spec', r, l), right) {
      SwappedRow(k, spec, l, right, n);
    }
    forall r | r in right ensures JoinOne(k, spec', r, left) == FlatMap(l => Pair(k, spec', r, l), left) {
      InnerAsLoop(k, spec', r, left);
    }
    FlatMapSwap((l: Row) => (r: Row) => Pair(k, spec', r, l), (r: Row) => (l: Row) => Pair(k, spec', r, l),
                perLeft, (r: Row) => JoinOne(k, spec', r, left), left, right);
  }

  // ---------------------------------------------------------------------------
  // Layouts of joins
  // ---------------------------------------------------------------------------

  function Shift(layout: seq<nat>, n: nat): (shifted: seq<nat>)
    ensures |shifted| == |layout| && forall j :: 0 <= j < |layout| ==> shifted[j] == layout[j] + n
  {
    seq(|layout|, (j: nat) requires j < |layout| => layout[j] + n)
  }

  lemma GatherLeft(layout: seq<nat>, l: Row, r: Row)
    requires forall j :: 0 <= j < |layout| ==> layout[j] < |l|
    ensures Gather(layout, l + r) == Gather(layout, l)
  {
    GatherAt(layout, l + r);
    GatherAt(layout, l);
  }

  lemma GatherRight(layout: seq<nat>, l: Row, r: Row)
    ensures Gather(Shift(layout, |l|), l + r) == Gather(layout, r)
  {
    GatherAt(Shift(layout, |l|), l + r);
    GatherAt(layout, r);
  }

  lemma GatherAppend(a: seq<nat>, b: seq<nat>, row: Row)
    ensures Gather(a + b, row) == Gather(a, row) + Gather(b, row)
  {
    MapAppend((i: nat) => At(row, i), a, b);
  }

  lemma GatherNulls(layout: seq<nat>, n: nat)
    ensures Gather(layout, Nulls(n)) == Nulls(|layout|)
  {
    GatherAt(layout, Nulls(n));
  }

  lemma GatherPair(a: seq<nat>, b: seq<nat>, l: Row, r: Row)
    requires forall j :: 0 <= j < |a| ==> a[j] < |l|
    ensures Gather(a + Shift(b, |l|), l + r) == Gather(a, l) + Gather(b, r)
    ensures Gather(Shift(b, |l|) + a, l + r) == Gather(b, r) + Gather(a, l)
  {
    GatherAppend(a, Shift(b, |l|), l + r);
    GatherAppend(Shift(b, |l|), a, l + r);
    GatherLeft(a, l, r);
    GatherRight(b, l, r);
  }

  lemma ResidualCarries(k: Kernels, e: Expr, leftMap: ColumnMap, rightMap: ColumnMap,
                        a: seq<nat>, b: seq<nat>, l: Row, r: Row)
    requires Fits(leftMap, a, |l|) && Fits(rightMap, b, |r|)
    requires Rename(e, ResolveResidual(leftMap, rightMap, |a|)).Some?
    ensures Eval(k, Rename(e, ResolveResidual(leftMap, rightMap, |a|)).value, Gather(a, l) + Gather(b, r))
         == Eval(k, e, l + r)
  {
    GatherAt(a, l);
    GatherAt(b, r);
    var rename := ResolveResidual(leftMap, rightMap, |a|);
    var row, gathered := l + r, Gather(a, l) + Gather(b, r);
    forall i | i in Columns(e) && rename(i).Some?
      ensures i < |row| && rename(i).value < |gathered| && row[i] == gathered[rename(i).value]
    {
      if i >= |l| {
        var j := rightMap[i - |l|].value;
        assert gathered[|a| + j] == Gather(b, r)[j];
      }
    }
    RenamePreserves(k, e, Columns(e), rename, row, gathered);
  }

  /** One converted side of a join: its layout and its rows. */
  ghost predicate Delivers(k: Kernels, tables: Tables, p: Plan, q: PhysicalPlan, layout: seq<nat>)
  {
    && |OutputNames(q)| == |layout|
    && Fits(Boundary(q), layout, Width(p))
    && SameRows(EvalPhysical(k, tables, q), Map(row => Gather(layout, row), EvalPlan(k, tables, p)))
  }

  /** Key and residual conditions agree between logical and gathered rows. */
  lemma MatchesGathered(k: Kernels, p: Plan, left: PhysicalPlan, right: PhysicalPlan, a: seq<nat>, b: seq<nat>,
                        spec: JoinSpec, l: Row, r: Row)
    requires p.Join? && Fits(Boundary(left), a, |l|) && Fits(Boundary(right), b, |r|)
    requires |OutputNames(left)| == |a|
    requires Lookup(Boundary(left), p.leftKey) == Some(spec.leftKey)
    requires Lookup(Boundary(right), p.rightKey) == Some(spec.rightKey)
    requires if p.residual.None? then spec.residual.None?
             else spec.residual.Some? &&
                  Rename(p.residual.value, ResolveResidual(Boundary(left), Boundary(right), |a|)) == spec.residual
    ensures Matches(k, spec, Gather(a, l), Gather(b, r)) == Matches(k, SpecOf(p), l, r)
  {
    GatherAt(a, l);
    GatherAt(b, r);
    if p.residual.Some? {
      ResidualCarries(k, p.residual.value, Boundary(left), Boundary(right), a, b, l, r);
    }
  }

  lemma FitsSideBySide(leftMap: ColumnMap, rightMap: ColumnMap, a: seq<nat>, b: seq<nat>, n: nat, m: nat)
    requires Fits(leftMap, a, n) && Fits(rightMap, b, m)
    ensures Fits(Offset(leftMap, 0) + Offset(rightMap, |a|), a + Shift(b, n), n + m)
  {
    var columnMap, layout := Offset(leftMap, 0) + Offset(rightMap, |a|), a + Shift(b, n);
    forall i | 0 <= i < n + m && columnMap[i].Some?
      ensures columnMap[i].value < |layout| && layout[columnMap[i].value] == i
    {
      if i >= n { assert columnMap[i] == OffsetEntry(rightMap[i - n], |a|); }
    }
  }

  lemma FitsExchanged(leftMap: ColumnMap, rightMap: ColumnMap, a: seq<nat>, b: seq<nat>, n: nat, m: nat)
    requires Fits(leftMap, a, n) && Fits(rightMap, b, m)
    ensures Fits(Offset(leftMap, |b|) + Offset(rightMap, 0), Shift(b, n) + a, n + m)
  {
    var columnMap, layout := Offset(leftMap, |b|) + Offset(rightMap, 0), Shift(b, n) + a;
    forall i | 0 <= i < n + m && columnMap[i].Some?
      ensures columnMap[i].value < |layout| && layout[columnMap[i].value] == i
    {
      if i >= n { assert columnMap[i] == OffsetEntry(rightMap[i - n], 0); }
    }
  }

  lemma CombinedFits(joinType: JoinType, swap: bool, left: PhysicalPlan, right: PhysicalPlan,
                     a: seq<nat>, b: seq<nat>, n: nat, m: nat)
    requires Fits(Boundary(left), a, n) && Fits(Boundary(right), b, m)
    requires |OutputNames(left)| == |a| && |OutputNames(right)| == |b|
    requires swap ==> joinType.Inner?
    ensures var columnMap := CombinedMap(joinType, swap, left, right);
            if joinType.LeftSemi? || joinType.LeftAnti? then Fits(columnMap, a, n)
            else if swap then Fits(columnMap, Shift(b, n) + a, n + m)
            else Fits(columnMap, a + Shift(b, n), n + m)
  {
    FitsSideBySide(Boundary(left), Boundary(right), a, b, n, m);
    FitsExchanged(Boundary(left), Boundary(right), a, b, n, m);
    assert Offset(Boundary(left), 0) + [] == Offset(Boundary(left), 0);
  }

  lemma UnswappedJoin(k: Kernels, tables: Tables, p: Plan, left: PhysicalPlan, right: PhysicalPlan,
                      a: seq<nat>, b: seq<nat>, q: PhysicalPlan)
    requires p.Join? && Conforms(tables, p)
    requires Delivers(k, tables, p.left, left, a) && Delivers(k, tables, p.right, right, b)
    requires q.HashJoin? && q.left == left && q.right == right && q.joinType == p.joinType
    requires Lookup(Boundary(left), p.leftKey) == Some(q.leftKey)
    requires Lookup(Boundary(right), p.rightKey) == Some(q.rightKey)
    requires if p.residual.None? then q.residual.None?
             else q.residual.Some? &&
                  Rename(p.residual.value, ResolveResidual(Boundary(left), Boundary(right), |a|)) == q.residual
    ensures var layout := if p.joinType.LeftSemi? || p.joinType.LeftAnti? then a else a + Shift(b, Width(p.left));
            SameRows(EvalPhysical(k, tables, q), Map(row => Gather(layout, row), EvalPlan(k, tables, p)))
  {
    var n := Width(p.left);
    var semi := p.joinType.LeftSemi? || p.joinType.LeftAnti?;
    var layout := if semi then a else a + Shift(b, n);
    var L, R := EvalPlan(k, tables, p.left), EvalPlan(k, tables, p.right);
    EvalPlanWidth(k, tables, p.left);
    EvalPlanWidth(k, tables, p.right);
    var spec, spec' := SpecOf(p), PhysicalSpec(q);
    var gl, gr, g := (row: Row) => Gather(a, row), (row: Row) => Gather(b, row), (row: Row) => Gather(layout, row);
    JoinSameRows(k, spec', EvalPhysical(k, tables, left), Map(gl, L), EvalPhysical(k, tables, right), Map(gr, R));
    forall l | l in L ensures Commutes(k, spec, spec', gl, gr, g, l, R) {
      forall r | r in R
        ensures Matches(k, spec', gl(l), gr(r)) == Matches(k, spec, l, r)
        ensures !semi ==> g(l + r) == gl(l) + gr(r)
      {
        MatchesGathered(k, p, left, right, a, b, spec', l, r);
        GatherPair(a, b, l, r);
      }
      GatherPair(a, b, l, Nulls(spec.rightWidth));
      GatherNulls(b, spec.rightWidth);
    }
    JoinOfGathered(k, spec, spec', gl, gr, g, L, R);
  }

  /** The physical join with exchanged inputs is the gathered logical join with exchanged inputs. */
  lemma ExchangedJoin(k: Kernels, tables: Tables, p: Plan, left: PhysicalPlan, right: PhysicalPlan,
                      a: seq<nat>, b: seq<nat>, q: PhysicalPlan)
    requires p.Join? && p.joinType.Inner? && p.residual.None? && Conforms(tables, p)
    requires Delivers(k, tables, p.left, left, a) && Delivers(k, tables, p.right, right, b)
    requires q.HashJoin? && q.left == right && q.right == left && q.joinType == p.joinType && q.residual.None?
    requires Lookup(Boundary(left), p.leftKey) == Some(q.rightKey)
    requires Lookup(Boundary(right), p.rightKey) == Some(q.leftKey)
    ensures SameRows(EvalPhysical(k, tables, q),
                     Map(row => Gather(b + Shift(a, Width(p.right)), row),
                         JoinRows(k, Exchanged(SpecOf(p), Width(p.left)),
                                  EvalPlan(k, tables, p.right), EvalPlan(k, tables, p.left))))
  {
    var exchanged := Join(p.right, p.left, p.rightKey, p.leftKey, Inner, None);
    assert SpecOf(exchanged) == Exchanged(SpecOf(p), Width(p.left));
    UnswappedJoin(k, tables, exchanged, right, left, b, a, q);
  }

  lemma SwappedJoin(k: Kernels, tables: Tables, p: Plan, left: PhysicalPlan, right: PhysicalPlan,
                    a: seq<nat>, b: seq<nat>, q: PhysicalPlan)
    requires p.Join? && p.joinType.Inner? && p.residual.None? && Conforms(tables, p)
    requires Delivers(k, tables, p.left, left, a) && Delivers(k, tables, p.right, right, b)
    requires q.HashJoin? && q.left == right && q.right == left && q.joinType == p.joinType && q.residual.None?
    requires Lookup(Boundary(left), p.leftKey) == Some(q.rightKey)
    requires Lookup(Boundary(right), p.rightKey) == Some(q.leftKey)
    ensures SameRows(EvalPhysical(k, tables, q),
                     Map(row => Gather(Shift(b, Width(p.left)) + a, row), EvalPlan(k, tables, p)))
  {
    ExchangedJoin(k, tables, p, left, right, a, b, q);
    EvalPlanWidth(k, tables, p.left);
    EvalPlanWidth(k, tables, p.right);
    SwapBack(k, SpecOf(p), a, b, Width(p.left), Width(p.right), EvalPlan(k, tables, p.left),
             EvalPlan(k, tables, p.right));
  }

  lemma SwapBack(k: Kernels, spec: JoinSpec, a: seq<nat>, b: seq<nat>, n: nat, m: nat,
                 left: seq<Row>, right: seq<Row>)
    requires spec.joinType.Inner? && spec.residual.None? && AllWidth(left, n) && AllWidth(right, m)
    requires (forall j :: 0 <= j < |a| ==> a[j] < n) && (forall j :: 0 <= j < |b| ==> b[j] < m)
    ensures SameRows(Map(row => Gather(b + Shift(a, m), row), JoinRows(k, Exchanged(spec, n), right, left)),
                     Map(row => Gather(Shift(b, n) + a, row), JoinRows(k, spec, left, right)))
  {
    var joined := JoinRows(k, spec, left, right);
    var g := (row: Row) => Gather(b + Shift(a, m), row);
    InnerSwap(k, spec, left, right, n);
    MapSameRows(g, JoinRows(k, Exchanged(spec, n), right, left), Map(RightThenLeft(n), joined));
    forall o | o in joined ensures Gather(Shift(b, n) + a, o) == g(RightThenLeft(n)(o)) {
      SwappedGather(k, spec, a, b, n, m, left, right, o);
    }
    MapMap(g, RightThenLeft(n), row => Gather(Shift(b, n) + a, row), joined);
  }

  lemma SwappedGather(k: Kernels, spec: JoinSpec, a: seq<nat>, b: seq<nat>, n: nat, m: nat,
                      left: seq<Row>, right: seq<Row>, o: Row)
    requires spec.joinType.Inner? && AllWidth(left, n) && AllWidth(right, m)
    requires o in JoinRows(k, spec, left, right)
    requires (forall j :: 0 <= j < |a| ==> a[j] < n) && (forall j :: 0 <= j < |b| ==> b[j] < m)
    ensures Gather(Shift(b, n) + a, o) == Gather(b + Shift(a, m), RightThenLeft(n)(o))
  {
    FlatMapMember(l => JoinOne(k, spec, l, right), left, o);
    var l :| l in left && o in JoinOne(k, spec, l, right);
    MapMember(r => l + r, MatchesOf(k, spec, l, right), o);
    var r :| r in MatchesOf(k, spec, l, right) && o == l + r;
    SelectMember(r => Matches(k, spec, l, r), right, r);
    assert o[n..] == r && o[..n] == l;
    GatherPair(a, b, l, r);
    GatherPair(b, a, r, l);
  }
}
