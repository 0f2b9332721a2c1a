/** ORDER BY and LIMIT through planning and execution.

Planning promises the rows of a query as a multiset. When the query ends in ORDER BY, what is
delivered is also in the order of the original keys; and a LIMIT, wherever the optimizer has
moved it, delivers the first rows of such an answer. */
module OrderAndLimit {
  import opened Expressions
  import opened Relational
  import opened Aggregation
  import opened JoinSemantics
  import opened LogicalPlans
  import opened SortOrder
  import opened Simplifier
  import opened Rewriter
  import opened PhysicalPlanner
  import opened PlannerCorrectness
  import opened BlockShapes
  import opened DerivedColumns
  import opened SingleBlocks
  import opened RequiredColumns
  import opened QueryPlanning

  // ---------------------------------------------------------------------------
  // Permutations of mapped rows
  // ---------------------------------------------------------------------------

  lemma MapWithout(f: Row -> Row, rows: seq<Row>, i: nat)
    requires i < |rows|
    ensures |Map(f, rows)| == |rows| && Map(f, rows)[i] == f(rows[i])
    ensures Map(f, rows[..i] + rows[i + 1..]) == Map(f, rows)[..i] + Map(f, rows)[i + 1..]
  {
    MapIndex(f, rows);
    MapIndex(f, rows[..i] + rows[i + 1..]);
  }

  lemma PutInFront(row: Row, rest: seq<Row>, rows: seq<Row>, i: nat)
    requires i < |rows| && rows[i] == row && SameRows(rest, rows[..i] + rows[i + 1..])
    ensures SameRows([row] + rest, rows)
  {
    SameRowsSplit(rows, i);
  }

  /** A permutation of mapped rows comes from a permutation of the rows. */
  lemma {:induction false} LiftPermutation(f: Row -> Row, rows: seq<Row>, image: seq<Row>) returns (lifted: seq<Row>)
    requires SameRows(image, Map(f, rows))
    ensures SameRows(lifted, rows) && Map(f, lifted) == image
    decreases |image|
  {
    hide SameRows, Map;
    if image == [] {
      SameRowsLength(image, Map(f, rows));
      MapIndex(f, rows);
      MapIndex(f, []);
      lifted := rows;
    } else {
      MapIndex(f, rows);
      var i := RowsWithout(image, Map(f, rows));
      MapWithout(f, rows, i);
      var rest := LiftPermutation(f, rows[..i] + rows[i + 1..], image[1..]);
      lifted := [rows[i]] + rest;
      PutInFront(rows[i], rest, rows, i);
      MapIndex(f, rest);
      MapIndex(f, lifted);
      assert image == [image[0]] + image[1..];
    }
  }

  // ---------------------------------------------------------------------------
  // What a physical plan may deliver
  // ---------------------------------------------------------------------------

  /** Rows that executing `q` may deliver: any arrangement where nothing orders them. */
  ghost predicate Outcome(k: Kernels, tables: Tables, q: PhysicalPlan, out: seq<Row>)
  {
    match q
    case SortNode(c, keys) => exists rows :: Outcome(k, tables, c, rows) && out == SortRows(k, keys, rows)
    case ProjectionNode(c, items) => exists rows :: Outcome(k, tables, c, rows) && out == ProjectRows(k, items, rows)
    case LimitNode(c, n) => exists rows :: Outcome(k, tables, c, rows) && out == TakeRows(n, rows)
    case _ => SameRows(out, EvalPhysical(k, tables, q))
  }

  /** No LIMIT among the nodes that `Outcome` looks through. */
  predicate Unlimited(q: PhysicalPlan)
  {
    match q
    case SortNode(c, _) => Unlimited(c)
    case ProjectionNode(c, _) => Unlimited(c)
    case LimitNode(_, _) => false
    case _ => true
  }

  lemma {:induction false} OutcomeSameRows(k: Kernels, tables: Tables, q: PhysicalPlan, out: seq<Row>)
    requires Outcome(k, tables, q, out) && Unlimited(q)
    ensures SameRows(out, EvalPhysical(k, tables, q))
  {
    hide SortRows, ProjectRows;
    match q
    case SortNode(c, keys) =>
      var rows :| Outcome(k, tables, c, rows) && out == SortRows(k, keys, rows);
      OutcomeSameRows(k, tables, c, rows);
    case ProjectionNode(c, items) =>
      var rows :| Outcome(k, tables, c, rows) && out == ProjectRows(k, items, rows);
      OutcomeSameRows(k, tables, c, rows);
      ProjectSame(k, items, rows, EvalPhysical(k, tables, c));
    case _ =>
  }

  lemma ProjectSame(k: Kernels, items: seq<NamedExpr>, rows: seq<Row>, rows': seq<Row>)
    requires SameRows(rows, rows')
    ensures SameRows(ProjectRows(k, items, rows), ProjectRows(k, items, rows'))
  {
    MapSameRows(row => EvalItems(k, items, row), rows, rows');
  }

  lemma {:induction false} EvalIsOutcome(k: Kernels, tables: Tables, q: PhysicalPlan)
    ensures Outcome(k, tables, q, EvalPhysical(k, tables, q))
  {
    match q
    case SortNode(c, _) => EvalIsOutcome(k, tables, c);
    case ProjectionNode(c, _) => EvalIsOutcome(k, tables, c);
    case LimitNode(c, _) => EvalIsOutcome(k, tables, c);
    case _ =>
  }

  lemma {:induction false} ConvertUnlimited(p: Plan, estimates: Estimates)
    requires LimitFree(p) && Convert(p, estimates).Some?
    ensures Unlimited(Convert(p, estimates).value)
  {
    hide Remap, RemapItems, RemapCalls, RemapKeys, IsIdentityProjection, Boundary;
    if p.Filter? || p.Project? || p.Group? || p.Sort? {
      ConvertUnlimited(p.child, estimates);
    }
  }

  // ---------------------------------------------------------------------------
  // Answers
  // ---------------------------------------------------------------------------

  /** `out` is the select list of `sorted`, an ordered arrangement of the rows below it. */
  ghost predicate Presents(k: Kernels, tables: Tables, p: Plan, out: seq<Row>, sorted: seq<Row>)
    requires p.Project? && p.child.Sort?
  {
    && SameRows(sorted, EvalPlan(k, tables, p.child)) && OrderedBy(k, p.child.keys, sorted)
    && out == ProjectRows(k, p.items, sorted)
  }

  /** In the order of the ORDER BY of `p`, be it above the select list or below it. */
  ghost predicate Ordered(k: Kernels, tables: Tables, p: Plan, out: seq<Row>)
  {
    && (p.Sort? ==> OrderedBy(k, p.keys, out))
    && (p.Project? && p.child.Sort? ==> exists sorted :: Presents(k, tables, p, out, sorted))
  }

  /** The rows of `p`, ordered as it asks if the library sorts. */
  ghost predicate Answers(k: Kernels, tables: Tables, p: Plan, out: seq<Row>)
  {
    SameRows(out, EvalPlan(k, tables, p)) && (LibrarySorts(k) ==> Ordered(k, tables, p, out))
  }

  /** The keys of gathered rows are those of the rows themselves. */
  lemma OrderOfGathered(k: Kernels, keys: seq<SortKey>, columnMap: ColumnMap, layout: seq<nat>, n: nat,
                        rows: seq<Row>)
    requires Fits(columnMap, layout, n) && AllWidth(rows, n) && RemapKeys(keys, columnMap).Some?
    requires OrderedBy(k, RemapKeys(keys, columnMap).value, Map(row => Gather(layout, row), rows))
    ensures OrderedBy(k, keys, rows)
  {
    hide SortValues, RemapKeys, Fits, OrderedBy;
    var keys' := RemapKeys(keys, columnMap).value;
    var gathered := Map(row => Gather(layout, row), rows);
    MapIndex(row => Gather(layout, row), rows);
    DirectionsKept(keys, columnMap);
    forall i | 0 <= i < |rows| ensures SortValues(k, keys', gathered[i]) == SortValues(k, keys, rows[i]) {
      assert rows[i] in rows;
      KeysOfGathered(k, keys, columnMap, layout, rows[i]);
    }
    KeysKept(keys, columnMap);
    SameOrder(k, keys, keys', rows, gathered);
  }

  lemma {:induction false} KeysKept(keys: seq<SortKey>, columnMap: ColumnMap)
    requires RemapKeys(keys, columnMap).Some?
    ensures |RemapKeys(keys, columnMap).value| == |keys|
  {
    if keys != [] { KeysKept(keys[1..], columnMap); }
  }

  /** ORDER BY below the select list, over a join tree. */
  lemma SortedBlock(k: Kernels, tables: Tables, c: Plan, q: PhysicalPlan, layout: seq<nat>,
                    keys: seq<SortKey>, out: seq<Row>) returns (sorted: seq<Row>)
    requires LibrarySorts(k) && Conforms(tables, c) && Delivers(k, tables, c, q, layout) && Unlimited(q)
    requires RemapKeys(keys, Boundary(q)).Some?
    requires Outcome(k, tables, SortNode(q, RemapKeys(keys, Boundary(q)).value), out)
    ensures SameRows(sorted, EvalPlan(k, tables, c)) && AllWidth(sorted, Width(c)) && OrderedBy(k, keys, sorted)
    ensures out == Map(row => Gather(layout, row), sorted)
  {
    hide EvalPlan, EvalPhysical, SortRows, RemapKeys, LibrarySorts, OrderedBy, Fits, Boundary, OutputNames;
    var keys' := RemapKeys(keys, Boundary(q)).value;
    var rows :| Outcome(k, tables, q, rows) && out == SortRows(k, keys', rows);
    OutcomeSameRows(k, tables, q, rows);
    SortRowsOrdered(k, keys', rows);
    sorted := LiftPermutation(row => Gather(layout, row), EvalPlan(k, tables, c), out);
    EvalPlanWidth(k, tables, c);
    SameRowsMembers(sorted, EvalPlan(k, tables, c));
    OrderOfGathered(k, keys, Boundary(q), layout, Width(c), sorted);
  }

  /** A select list over such an ORDER BY. */
  lemma PresentsBlock(k: Kernels, tables: Tables, p: Plan, estimates: Estimates, layout: seq<nat>,
                      out: seq<Row>) returns (sorted: seq<Row>)
    requires p.Project? && p.child.Sort? && ReferencesScanSchema(p.child) && LimitFree(p) && Conforms(tables, p)
    requires PlanReadsTyped(k, tables, p) && LibrarySorts(k) && Convert(p, estimates).Some?
    requires Convert(p.child, estimates).Some? && Convert(p.child.child, estimates).Some?
    requires Delivers(k, tables, p.child.child, Convert(p.child.child, estimates).value, layout)
    requires Outcome(k, tables, Convert(p, estimates).value, out)
    ensures Presents(k, tables, p, out, sorted)
  {
    hide EvalPlan, EvalPhysical, SortRows, ProjectRows, RemapItems, RemapKeys, LibrarySorts, OrderedBy, Fits, OutputNames, Gather,
      IsIdentityProjection;
    var c := p.child.child;
    var q := Convert(c, estimates).value;
    var node := Convert(p.child, estimates).value;
    var items' := RemapItems(p.items, Boundary(q)).value;
    ConvertUnlimited(c, estimates);
    SortedPlanRows(k, tables, p.child);
    ChildReadsTyped(k, tables, p);
    if Convert(p, estimates).value == node {
      sorted := SortedBlock(k, tables, c, q, layout, p.child.keys, out);
      SameRowsMembers(sorted, EvalPlan(k, tables, p.child));
      DroppedIdentity(p, estimates);
      ElidedRows(k, p.items, Boundary(q), layout, OutputNames(q), Width(c), sorted);
    } else {
      var rows :| Outcome(k, tables, node, rows) && out == ProjectRows(k, items', rows);
      sorted := SortedBlock(k, tables, c, q, layout, p.child.keys, rows);
      ProjectOfGathered(k, p.items, Boundary(q), layout, Width(c), sorted);
    }
  }

  lemma SortedPlanRows(k: Kernels, tables: Tables, p: Plan)
    requires p.Sort?
    ensures SameRows(EvalPlan(k, tables, p), EvalPlan(k, tables, p.child))
  {
  }

  lemma ChildReadsTyped(k: Kernels, tables: Tables, p: Plan)
    requires p.Project? && PlanReadsTyped(k, tables, p)
    ensures PlanReadsTyped(k, tables, p.child) && ItemsReadTyped(p.items, EvalPlan(k, tables, p.child))
  {
  }

  lemma DroppedIdentity(p: Plan, estimates: Estimates)
    requires p.Project? && ReferencesScanSchema(p.child) && p.child.Sort? && Convert(p, estimates).Some?
    requires Convert(p, estimates) == Convert(p.child, estimates)
    ensures var q := Convert(p.child.child, estimates).value;
            RemapItems(p.items, Boundary(q)).Some? && IsIdentityProjection(RemapItems(p.items, Boundary(q)).value, OutputNames(q))
  {
    DroppedConverts(p.child, p.items, estimates);
  }

  /** ORDER BY above the select list or above an aggregation. */
  lemma SortOnTopOrdered(k: Kernels, tables: Tables, p: Plan, estimates: Estimates, out: seq<Row>)
    requires p.Sort? && !ScanBlock(p.child) && ChildResolves(p.child, NodeColumns(p), estimates) && LibrarySorts(k)
    requires Convert(p, estimates).Some? && Outcome(k, tables, Convert(p, estimates).value, out)
    ensures OrderedBy(k, p.keys, out)
  {
    hide SortRows, OrderedBy, LibrarySorts, Convert, ChildResolves;
    ReadsAsWritten(p, estimates);
    var rows :| Outcome(k, tables, Convert(p.child, estimates).value, rows) && out == SortRows(k, p.keys, rows);
    SortRowsOrdered(k, p.keys, rows);
  }

  /** A select list over the ORDER BY of a derived table. */
  lemma PresentsDerived(k: Kernels, tables: Tables, p: Plan, estimates: Estimates, out: seq<Row>)
    returns (sorted: seq<Row>)
    requires p.Project? && p.child.Sort? && !ScanBlock(p.child) && !ScanBlock(p.child.child) && LimitFree(p) && Conforms(tables, p)
    requires ChildResolves(p.child, NodeColumns(p), estimates)
    requires ChildResolves(p.child.child, NodeColumns(p.child), estimates)
    requires PlanReadsTyped(k, tables, p) && LibrarySorts(k) && Convert(p, estimates).Some?
    requires Convert(p.child, estimates).Some? && Realizes(k, tables, p.child, Convert(p.child, estimates).value)
    requires Outcome(k, tables, Convert(p, estimates).value, out)
    ensures Presents(k, tables, p, out, sorted)
  {
    hide EvalPlan, EvalPhysical, SortRows, ProjectRows, LibrarySorts, OrderedBy, OutputNames, Convert, IsIdentityProjection,
      Realizes, ChildResolves;
    ReadsAsWritten(p, estimates);
    var node := Convert(p.child, estimates).value;
    ChildReadsTyped(k, tables, p);
    ConvertUnlimited(p.child, estimates);
    if Convert(p, estimates).value == node {
      sorted := out;
      ElidedWhole(k, tables, p, node, sorted);
    } else {
      var rows :| Outcome(k, tables, node, rows) && out == ProjectRows(k, p.items, rows);
      sorted := rows;
    }
    SortOnTopOrdered(k, tables, p.child, estimates, sorted);
    RealizedRows(k, tables, p.child, node, sorted);
  }

  lemma RealizedRows(k: Kernels, tables: Tables, p: Plan, q: PhysicalPlan, out: seq<Row>)
    requires Realizes(k, tables, p, q) && Unlimited(q) && Outcome(k, tables, q, out)
    ensures SameRows(out, EvalPlan(k, tables, p))
  {
    hide EvalPlan, EvalPhysical, Outcome;
    OutcomeSameRows(k, tables, q, out);
  }

  lemma ElidedWhole(k: Kernels, tables: Tables, p: Plan, q: PhysicalPlan, rows: seq<Row>)
    requires p.Project? && Conforms(tables, p) && Realizes(k, tables, p.child, q) && Unlimited(q)
    requires ProjectionOrChild(q, p.items) == q && Outcome(k, tables, q, rows)
    requires ItemsReadTyped(p.items, EvalPlan(k, tables, p.child))
    ensures ProjectRows(k, p.items, rows) == rows
  {
    hide EvalPlan, EvalPhysical, Outcome;
    OutcomeSameRows(k, tables, q, rows);
    SameRowsMembers(rows, EvalPlan(k, tables, p.child));
    EvalPlanWidth(k, tables, p.child);
    NotItsOwnChild(q, p.items);
    forall row | row in rows ensures EvalItems(k, p.items, row) == row {
      ElidedOnTop(k, p.items, OutputNames(q), row);
    }
    MapId(row => EvalItems(k, p.items, row), rows);
  }

  lemma NotItsOwnChild(q: PhysicalPlan, items: seq<NamedExpr>)
    requires ProjectionOrChild(q, items) == q
    ensures IsIdentityProjection(items, OutputNames(q))
  {
  }

  lemma ChildConverts(p: Plan, estimates: Estimates)
    requires (p.Project? || p.Sort?) && Convert(p, estimates).Some?
    ensures Convert(p.child, estimates).Some?
  {
  }

  /** A converted query block delivers answers, whatever arrangement execution picks. */
  lemma ConvertAnswers(k: Kernels, tables: Tables, p: Plan, estimates: Estimates, out: seq<Row>)
    requires SingleBlock(p) && !ScanBlock(p) && LimitFree(p) && Conforms(tables, p) && PlanReadsTyped(k, tables, p)
    requires Convert(p, estimates).Some? && Resolves(p, estimates)
    requires Outcome(k, tables, Convert(p, estimates).value, out)
    ensures Answers(k, tables, p, out)
  {
    hide EvalPlan, EvalPhysical, Convert, Outcome, OrderedBy, Presents, LibrarySorts, ChildResolves, Realizes;
    ConvertPreserves(k, tables, p, estimates);
    ConvertUnlimited(p, estimates);
    RealizedRows(k, tables, p, Convert(p, estimates).value, out);
    if LibrarySorts(k) && p.Sort? {
      SortOnTopOrdered(k, tables, p, estimates, out);
    } else if LibrarySorts(k) && p.Project? && p.child.Sort? {
      var sorted;
      ChildConverts(p, estimates);
      if ScanBlock(p.child) {
        ScanBlockReferences(p.child);
        ChildConverts(p.child, estimates);
        var layout := BlockDelivers(k, tables, p.child.child, estimates);
        sorted := PresentsBlock(k, tables, p, estimates, layout, out);
      } else {
        ConvertPreserves(k, tables, p.child, estimates);
        sorted := PresentsDerived(k, tables, p, estimates, out);
      }
    }
  }

  // ---------------------------------------------------------------------------
  // Answers survive annotation and rewriting
  // ---------------------------------------------------------------------------

  lemma AnswersBare(k: Kernels, tables: Tables, a: Plan, p: Plan, out: seq<Row>)
    requires Plain(tables) && Bare(a) == Bare(p) && Answers(k, tables, a, out)
    ensures Answers(k, tables, p, out)
  {
    hide EvalPlan, OrderedBy, ProjectRows, LibrarySorts;
    BareMeaning(k, tables, a);
    BareMeaning(k, tables, p);
    if LibrarySorts(k) && p.Project? && p.child.Sort? {
      assert a.Project? && a.child.Sort? && Bare(a.child) == Bare(p.child);
      BareMeaning(k, tables, a.child);
      BareMeaning(k, tables, p.child);
      var sorted :| Presents(k, tables, a, out, sorted);
      assert Presents(k, tables, p, out, sorted);
    }
  }

  lemma OrderRewritten(k: Kernels, keys: seq<SortKey>, rows: seq<Row>)
    requires (forall key :: key in keys ==> WellTyped(key.expr)) && OrderedBy(k, SimplifyKeys(k, keys), rows)
    ensures OrderedBy(k, keys, rows)
  {
    hide SortValues, Directions, OrderedBy;
    forall row ensures SortValues(k, SimplifyKeys(k, keys), row) == SortValues(k, keys, row) {
      SimplifyKeysPreserves(k, keys, row);
    }
    SimplifyKeysPreserves(k, keys, []);
    MapIndex((key: SortKey) => SortKey(Simplify(k, key.expr), key.ascending), keys);
    SameOrder(k, keys, SimplifyKeys(k, keys), rows, rows);
  }

  lemma AnswersRewritten(k: Kernels, tables: Tables, p: Plan, out: seq<Row>)
    requires PlanTyped(p) && Conforms(tables, p) && Answers(k, tables, Rewrite(k, p), out)
    ensures Answers(k, tables, p, out)
  {
    hide EvalPlan, OrderedBy, ProjectRows, LibrarySorts;
    RewritePreserves(k, tables, p);
    if LibrarySorts(k) && p.Sort? {
      OrderRewritten(k, p.keys, out);
    } else if LibrarySorts(k) && p.Project? && p.child.Sort? {
      var sorted :| Presents(k, tables, Rewrite(k, p), out, sorted);
      RewritePreserves(k, tables, p.child);
      OrderRewritten(k, p.child.keys, sorted);
      ProjectPreserves(k, p.items, sorted);
      assert Presents(k, tables, p, out, sorted);
    }
  }

  /** Whatever the scans read, a query block whose demands are met delivers the rows that its
      optimized plan has over that, ordered as it asks. */
  lemma OptimizedAnswers(k: Kernels, tables: Tables, p: Plan, estimates: Estimates, out: seq<Row>)
    requires GoodQuery(p) && DemandsMet(Rewrite(k, p))
    requires Conforms(tables, Optimized(k, p)) && PlanReadsTyped(k, tables, Optimized(k, p))
    ensures PlanQuery(k, p, estimates).Some?
    ensures Outcome(k, tables, PlanQuery(k, p, estimates).value, out) ==> Answers(k, tables, Optimized(k, p), out)
  {
    hide EvalPlan, EvalPhysical, DemandsMet, Answers, LibrarySorts, Outcome, Convert;
    PlanQuerySucceeds(k, p, estimates);
    if Outcome(k, tables, PlanQuery(k, p, estimates).value, out) {
      var annotated := Annotated(k, p);
      PositionsResolve(annotated, estimates);
      ConvertAnswers(k, tables, annotated, estimates, out);
    }
  }

  /** Over whole tables, those are the rows of the query. */
  lemma QueryAnswers(k: Kernels, tables: Tables, p: Plan, estimates: Estimates, out: seq<Row>)
    requires GoodQuery(p) && PlanTyped(p) && Plain(tables) && Conforms(tables, p) && PlanReadsTyped(k, tables, p)
    requires DemandsMet(Rewrite(k, p))
    ensures PlanQuery(k, p, estimates).Some?
    ensures Outcome(k, tables, PlanQuery(k, p, estimates).value, out) ==> Answers(k, tables, p, out)
  {
    hide EvalPlan, EvalPhysical, DemandsMet, Answers, LibrarySorts, Outcome, Convert;
    PlanQuerySucceeds(k, p, estimates);
    RewritePreserves(k, tables, p);
    RewriteReadsTyped(k, tables, p);
    var annotated := Annotated(k, p);
    AnnotateMeaning(k, tables, Rewrite(k, p), {}, []);
    OptimizedAnswers(k, tables, p, estimates, out);
    if Outcome(k, tables, PlanQuery(k, p, estimates).value, out) {
      AnswersBare(k, tables, annotated, Rewrite(k, p), out);
      AnswersRewritten(k, tables, p, out);
    }
  }

  // ---------------------------------------------------------------------------
  // LIMIT
  // ---------------------------------------------------------------------------

  lemma {:induction false} LimitShape(p: Plan, n: int)
    requires SingleBlock(p) && InRange(p) && DerivedByPosition(p)
    ensures var r := InsertLimit(p, n);
            && SingleBlock(r) && InRange(r) && DerivedByPosition(r) && Width(r) == Width(p)
            && (ScanBlock(r) <==> ScanBlock(p)) && (ReferencesScanSchema(r) <==> ReferencesScanSchema(p))
            && KeepsWhat(r, p) && NamesOf(r) == NamesOf(p)
  {
    if p.Project? {
      LimitShape(p.child, n);
    }
  }

  /** The plan that `InsertLimit` inserted a LIMIT into. */
  function WithoutLimit(r: Plan): Plan
  {
    if r.Project? then Project(WithoutLimit(r.child), r.items) else if r.Limit? then r.child else r
  }

  lemma {:induction false} LimitTakenOut(r: Plan, p: Plan, n: int)
    requires Bare(r) == Bare(InsertLimit(p, n))
    ensures r == InsertLimit(WithoutLimit(r), n) && Bare(WithoutLimit(r)) == Bare(p)
    decreases p
  {
    if p.Project? {
      LimitTakenOut(r.child, p.child, n);
    }
  }

  /** The optimized plan of a query with a LIMIT is a good query with the LIMIT inserted. */
  lemma LimitedOptimized(k: Kernels, p: Plan, n: int)
    requires GoodQuery(p) && Annotate(Rewrite(k, Limit(p, n)), {}, []).Some?
    ensures var a := WithoutLimit(Optimized(k, Limit(p, n)));
            Optimized(k, Limit(p, n)) == InsertLimit(a, n) && Bare(a) == Bare(Rewrite(k, p)) && GoodQuery(a)
  {
    hide Annotate;
    RewriteGoodQuery(k, p);
    AnnotateBare(InsertLimit(Rewrite(k, p), n), {}, []);
    LimitTakenOut(Optimized(k, Limit(p, n)), Rewrite(k, p), n);
    SameShape(WithoutLimit(Optimized(k, Limit(p, n))), Rewrite(k, p));
  }

  /** Converting with a LIMIT inserted is converting without it, up to the LIMIT. */
  lemma {:induction false} LimitConverts(a: Plan, n: int, estimates: Estimates)
    ensures Convert(InsertLimit(a, n), estimates).Some? <==> Convert(a, estimates).Some?
    ensures Convert(a, estimates).Some? ==>
      var q, q' := Convert(a, estimates).value, Convert(InsertLimit(a, n), estimates).value;
      OutputNames(q') == OutputNames(q) && Boundary(q') == Boundary(q)
    ensures ReferencesScanSchema(InsertLimit(a, n)) == ReferencesScanSchema(a)
  {
    hide RemapItems, IsIdentityProjection, Remap, RemapCalls, RemapKeys;
    if a.Project? {
      LimitConverts(a.child, n, estimates);
    }
  }

  /** Whatever such a plan delivers are the first rows of something the plain one delivers. */
  lemma {:induction false} LimitOutcome(k: Kernels, tables: Tables, a: Plan, n: int, estimates: Estimates, out: seq<Row>)
    returns (full: seq<Row>)
    requires Convert(InsertLimit(a, n), estimates).Some?
    requires Outcome(k, tables, Convert(InsertLimit(a, n), estimates).value, out)
    ensures Convert(a, estimates).Some? && Outcome(k, tables, Convert(a, estimates).value, full) && out == TakeRows(n, full)
  {
    hide RemapItems, IsIdentityProjection, ProjectRows, EvalPhysical, OutputNames, Boundary;
    LimitConverts(a, n, estimates);
    if a.Project? {
      var c, c' := Convert(a.child, estimates).value, Convert(InsertLimit(a.child, n), estimates).value;
      LimitConverts(a.child, n, estimates);
      if Convert(InsertLimit(a, n), estimates).value == c' {
        full := LimitOutcome(k, tables, a.child, n, estimates, out);
      } else {
        var items := Convert(a, estimates).value.items;
        var rows :| Outcome(k, tables, c', rows) && out == ProjectRows(k, items, rows);
        var below := LimitOutcome(k, tables, a.child, n, estimates, rows);
        full := ProjectRows(k, items, below);
        TakeOfMap(k, items, n, below);
      }
    } else {
      full :| Outcome(k, tables, Convert(a, estimates).value, full) && out == TakeRows(n, full);
    }
  }

  /** A query with a LIMIT is planned exactly when the rewritten query's demands are met. The
      LIMIT then stands below the select list, which matters over an aggregation. */
  lemma LimitedQuerySucceeds(k: Kernels, p: Plan, n: int, estimates: Estimates)
    requires GoodQuery(p)
    ensures PlanQuery(k, Limit(p, n), estimates).Some? <==> DemandsMet(Rewrite(k, Limit(p, n)))
  {
    hide Annotate, Convert, Resolves;
    var limited := Rewrite(k, Limit(p, n));
    RewriteGoodQuery(k, p);
    LimitShape(Rewrite(k, p), n);
    QueryAnnotates(limited, {}, []);
    if DemandsMet(limited) {
      AnnotateShape(limited, {}, []);
      PositionsResolve(Annotate(limited, {}, []).value, estimates);
      SingleBlockConverts(limited, {}, [], estimates);
    }
  }

  /** Whatever the scans read, a query with a LIMIT delivers the first rows of an answer to its
      optimized plan without it. */
  lemma LimitedOptimizedAnswers(k: Kernels, tables: Tables, p: Plan, n: int, estimates: Estimates,
                                out: seq<Row>) returns (full: seq<Row>)
    requires GoodQuery(p) && PlanQuery(k, Limit(p, n), estimates).Some?
    requires Conforms(tables, WithoutLimit(Optimized(k, Limit(p, n))))
    requires PlanReadsTyped(k, tables, WithoutLimit(Optimized(k, Limit(p, n))))
    requires Outcome(k, tables, PlanQuery(k, Limit(p, n), estimates).value, out)
    ensures Answers(k, tables, WithoutLimit(Optimized(k, Limit(p, n))), full) && out == TakeRows(n, full)
  {
    hide EvalPlan, EvalPhysical, Answers, LibrarySorts, Outcome, Convert, Annotate, Rewrite;
    var a := WithoutLimit(Optimized(k, Limit(p, n)));
    LimitedOptimized(k, p, n);
    full := LimitOutcome(k, tables, a, n, estimates, out);
    PositionsResolve(a, estimates);
    ConvertAnswers(k, tables, a, estimates, full);
  }

  /** Over whole tables, that is an answer to the query without the LIMIT: a query with LIMIT n
      delivers its first n rows, first in its ORDER BY if it has one. */
  lemma LimitedQueryAnswers(k: Kernels, tables: Tables, p: Plan, n: int, estimates: Estimates,
                            out: seq<Row>) returns (full: seq<Row>)
    requires GoodQuery(p) && PlanTyped(p) && Plain(tables) && Conforms(tables, p) && PlanReadsTyped(k, tables, p)
    requires PlanQuery(k, Limit(p, n), estimates).Some?
    requires Outcome(k, tables, PlanQuery(k, Limit(p, n), estimates).value, out)
    ensures Answers(k, tables, p, full) && out == TakeRows(n, full)
  {
    hide EvalPlan, EvalPhysical, Answers, LibrarySorts, Outcome, Convert, Annotate;
    var rewritten, a := Rewrite(k, p), WithoutLimit(Optimized(k, Limit(p, n)));
    RewritePreserves(k, tables, p);
    RewriteReadsTyped(k, tables, p);
    LimitedOptimized(k, p, n);
    BareMeaning(k, tables, a);
    BareMeaning(k, tables, rewritten);
    full := LimitedOptimizedAnswers(k, tables, p, n, estimates, out);
    AnswersBare(k, tables, a, rewritten, full);
    AnswersRewritten(k, tables, p, full);
  }

  lemma TakeSame(n: int, rows: seq<Row>, rows': seq<Row>)
    requires SameRows(rows, rows')
    ensures |TakeRows(n, rows)| == |TakeRows(n, rows')|
    ensures multiset(TakeRows(n, rows)) <= multiset(rows')
  {
    SameRowsLength(rows, rows');
    if 0 < n < |rows| {
      assert rows == rows[..n] + rows[n..];
    }
  }

  lemma LimitRows(k: Kernels, tables: Tables, p: Plan, n: int)
    ensures EvalPlan(k, tables, Limit(p, n)) == TakeRows(n, EvalPlan(k, tables, p))
  {
  }

  /** In any case it delivers as many rows as the logical plan, all of them rows of the query
      without the LIMIT. */
  lemma LimitPicksRows(k: Kernels, tables: Tables, p: Plan, n: int, estimates: Estimates)
    requires GoodQuery(p) && PlanTyped(p) && Plain(tables) && Conforms(tables, p) && PlanReadsTyped(k, tables, p)
    requires DemandsMet(Rewrite(k, Limit(p, n)))
    ensures PlanQuery(k, Limit(p, n), estimates).Some?
    ensures var out := EvalPhysical(k, tables, PlanQuery(k, Limit(p, n), estimates).value);
            |out| == |EvalPlan(k, tables, Limit(p, n))| && multiset(out) <= multiset(EvalPlan(k, tables, p))
  {
    hide EvalPlan, EvalPhysical, LibrarySorts, Ordered, Outcome, Convert, Annotate, GoodQuery, DemandsMet, Rewrite, TakeRows,
      PlanTyped, PlanReadsTyped, Conforms;
    LimitRows(k, tables, p, n);
    LimitedQuerySucceeds(k, p, n, estimates);
    var q := PlanQuery(k, Limit(p, n), estimates).value;
    EvalIsOutcome(k, tables, q);
    var full := LimitedQueryAnswers(k, tables, p, n, estimates, EvalPhysical(k, tables, q));
    TakeSame(n, full, EvalPlan(k, tables, p));
  }
}
