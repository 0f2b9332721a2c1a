/** The plan rewriting pass of the optimizer (src/optimizer/optimizer.cpp): filter merging,
constant filters, pushing WHERE conjuncts through joins, and LIMIT push-down. It re-enters
itself on plans it has just built; it terminates, and it keeps the produced row sequence. */
module Rewriter {
  import opened Expressions
  import opened Relational
  import opened Distinctness
  import opened Aggregation
  import opened JoinSemantics
  import opened LogicalPlans
  import opened Simplifier

  // ---------------------------------------------------------------------------
  // Conjuncts
  // ---------------------------------------------------------------------------

  function Conjuncts(e: Expr): (es: seq<Expr>)
    ensures es != []
  {
    if e.Binary? && e.bop.And? then Conjuncts(e.left) + Conjuncts(e.right) else [e]
  }

  function Conjunction(es: seq<Expr>): Expr
    requires es != []
  {
    if |es| == 1 then es[0]
    else Binary(And, Conjunction(es[..|es| - 1]), es[|es| - 1], Boolean)
  }

  predicate ReadsOnlyLeft(e: Expr, leftWidth: nat)
  {
    Columns(e) != {} && forall i :: i in Columns(e) ==> i < leftWidth
  }

  predicate ReadsOnlyRight(e: Expr, leftWidth: nat)
  {
    Columns(e) != {} && forall i :: i in Columns(e) ==> leftWidth <= i
  }

  function ShiftBy(delta: nat): nat -> Option<nat>
  {
    i => if i < delta then None else Some(i - delta)
  }

  /** `e` re-indexed from a join's combined row to the right child's own row. */
  function ShiftColumns(e: Expr, delta: nat): Expr
  {
    match Rename(e, ShiftBy(delta))
    case Some(shifted) => shifted
    case None => e
  }

  /** The conjuncts that go below the join on the left, on the right, and those that stay. */
  datatype Split = Split(left: seq<Expr>, right: seq<Expr>, remaining: seq<Expr>)

  function SplitConjuncts(es: seq<Expr>, leftWidth: nat, rightPushable: bool): (split: Split)
    ensures !rightPushable ==> split.right == []
  {
    if es == [] then Split([], [], [])
    else
      var rest := SplitConjuncts(es[..|es| - 1], leftWidth, rightPushable);
      var e := es[|es| - 1];
      if ReadsOnlyLeft(e, leftWidth) then rest.(left := rest.left + [e])
      else if ReadsOnlyRight(e, leftWidth) && rightPushable then
        rest.(right := rest.right + [ShiftColumns(e, leftWidth)])
      else rest.(remaining := rest.remaining + [e])
  }

  /** The classification loop of `push_predicate_through_join`. */
  method ClassifyConjuncts(es: seq<Expr>, leftWidth: nat, rightPushable: bool) returns (split: Split)
    ensures split == SplitConjuncts(es, leftWidth, rightPushable)
    ensures |split.left| + |split.right| + |split.remaining| == |es|
  {
    var left, right, remaining := [], [], [];
    for i := 0 to |es|
      invariant Split(left, right, remaining) == SplitConjuncts(es[..i], leftWidth, rightPushable)
      invariant |left| + |right| + |remaining| == i
    {
      assert es[..i + 1][..i] == es[..i];
      var columns := Columns(es[i]);
      var allLeft := columns != {} && forall c :: c in columns ==> c < leftWidth;
      var allRight := columns != {} && forall c :: c in columns ==> leftWidth <= c;
      if allLeft {
        left := left + [es[i]];
      } else if allRight && rightPushable {
        right := right + [ShiftColumns(es[i], leftWidth)];
      } else {
        remaining := remaining + [es[i]];
      }
    }
    assert es[..|es|] == es;
    split := Split(left, right, remaining);
  }

  // ---------------------------------------------------------------------------
  // The rewrite and its termination
  // ---------------------------------------------------------------------------

  function NonFilters(p: Plan): nat
  {
    match p
    case Scan(_, _, _, _) => 1
    case Join(l, r, _, _, _, _) => 1 + NonFilters(l) + NonFilters(r)
    case Filter(c, _) => NonFilters(c)
    case Project(c, _) => 1 + NonFilters(c)
    case Group(c, _, _) => 1 + NonFilters(c)
    case Sort(c, _) => 1 + NonFilters(c)
    case Limit(c, _) => 1 + NonFilters(c)
  }

  function FilterChain(p: Plan): nat
  {
    if p.Filter? then 1 + FilterChain(p.child) else 0
  }

  /** One filter over `base` is a shorter chain than two stacked filters. */
  lemma ShorterChain(p: Plan, base: Plan, e: Expr)
    requires p.Filter? && p.child.Filter? && !base.Filter?
    ensures FilterChain(Filter(base, e)) < FilterChain(p)
  {
    assert FilterChain(base) == 0;
    assert FilterChain(p) == 1 + FilterChain(p.child) && FilterChain(p.child) >= 1;
  }

  lemma NonFiltersPositive(p: Plan)
    ensures NonFilters(p) >= 1
  {
  }

  /** A LIMIT moves below projections, which keep rows and their order. */
  function InsertLimit(p: Plan, n: int): (r: Plan)
    ensures NonFilters(r) == NonFilters(p) + 1 && !r.Filter?
  {
    if p.Project? then Project(InsertLimit(p.child, n), p.items) else Limit(p, n)
  }

  function SimplifyItems(k: Kernels, items: seq<NamedExpr>): seq<NamedExpr>
  {
    Map((item: NamedExpr) => NamedExpr(Simplify(k, item.expr), item.name), items)
  }

  function SimplifyCalls(k: Kernels, calls: seq<AggregateCall>): seq<AggregateCall>
  {
    Map((call: AggregateCall) => AggregateCall(call.func, Simplify(k, call.argument), call.name), calls)
  }

  function SimplifyKeys(k: Kernels, keys: seq<SortKey>): seq<SortKey>
  {
    Map((key: SortKey) => SortKey(Simplify(k, key.expr), key.ascending), keys)
  }

  function FilterUnlessEmpty(p: Plan, es: seq<Expr>): Plan
  {
    if es == [] then p else Filter(p, Conjunction(es))
  }

  /** `Filter(join, condition)` with every conjunct pushed as far as the join type allows:
      to the left always, to the right only through an inner join. */
  function PushThroughJoin(k: Kernels, join: Plan, condition: Expr): (r: Plan)
    requires join.Join?
    ensures NonFilters(r) == NonFilters(join)
    ensures r.Filter? ==> !r.child.Filter?
    decreases NonFilters(join), 0
  {
    NonFiltersPositive(join.left);
    NonFiltersPositive(join.right);
    var split := SplitConjuncts(Conjuncts(condition), Width(join.left), join.joinType.Inner?);
    if split.left == [] && split.right == [] then Filter(join, condition)
    else
      var left := if split.left == [] then join.left
                  else Rewrite(k, Filter(join.left, Conjunction(split.left)));
      var right := if split.right == [] then join.right
                   else Rewrite(k, Filter(join.right, Conjunction(split.right)));
      FilterUnlessEmpty(join.(left := left, right := right), split.remaining)
  }

  /** The contract is the termination argument: rewriting keeps the number of non-filter
      nodes, never turns another node into a filter, and never leaves two filters stacked,
      so every self-call is on a plan with fewer non-filters or a shorter filter chain. */
  function Rewrite(k: Kernels, p: Plan): (r: Plan)
    ensures NonFilters(r) == NonFilters(p)
    ensures !p.Filter? ==> !r.Filter?
    ensures r.Filter? ==> !r.child.Filter?
    decreases NonFilters(p), FilterChain(p)
  {
    match p
    case Scan(_, _, _, _) => p
    case Join(l, r, _, _, _, _) =>
      NonFiltersPositive(l);
      NonFiltersPositive(r);
      p.(left := Rewrite(k, l), right := Rewrite(k, r))
    case Filter(c, condition) =>
      var child := Rewrite(k, c);
      var simplified := Simplify(k, condition);
      if child.Filter? then
        var merged := Simplify(k, Binary(And, simplified, child.condition, Boolean));
        ShorterChain(p, child.child, merged);
        Rewrite(k, Filter(child.child, merged))
      else if simplified.Literal? && simplified.value.Bool? then
        if simplified.value.b then child else Filter(child, simplified)
      else if child.Join? then PushThroughJoin(k, child, simplified)
      else Filter(child, simplified)
    case Project(c, items) => Project(Rewrite(k, c), SimplifyItems(k, items))
    case Group(c, groupBy, calls) =>
      Group(Rewrite(k, c), SimplifyItems(k, groupBy), SimplifyCalls(k, calls))
    case Sort(c, keys) => Sort(Rewrite(k, c), SimplifyKeys(k, keys))
    case Limit(c, n) => InsertLimit(Rewrite(k, c), n)
  }

  // ---------------------------------------------------------------------------
  // Conjuncts and truth
  // ---------------------------------------------------------------------------

  predicate AllHold(k: Kernels, es: seq<Expr>, row: Row)
  {
    forall e :: e in es ==> Holds(k, e, row)
  }

  lemma {:induction false} ConjunctsHold(k: Kernels, e: Expr, row: Row)
    ensures Holds(k, e, row) <==> AllHold(k, Conjuncts(e), row)
  {
    AllHoldOne(k, e, row);
    if e.Binary? && e.bop.And? {
      ConjunctsHold(k, e.left, row);
      ConjunctsHold(k, e.right, row);
      AllHoldAppend(k, Conjuncts(e.left), Conjuncts(e.right), row);
    }
  }

  lemma AllHoldOne(k: Kernels, e: Expr, row: Row)
    ensures AllHold(k, [e], row) <==> Holds(k, e, row)
  {
    assert e in [e];
  }

  lemma AllHoldAppend(k: Kernels, a: seq<Expr>, b: seq<Expr>, row: Row)
    ensures AllHold(k, a + b, row) <==> AllHold(k, a, row) && AllHold(k, b, row)
  {
    assert forall e :: e in a ==> e in a + b;
    assert forall e :: e in b ==> e in a + b;
  }

  lemma {:induction false} ConjunctionHolds(k: Kernels, es: seq<Expr>, row: Row)
    requires es != []
    ensures Holds(k, Conjunction(es), row) <==> AllHold(k, es, row)
  {
    var init, last := es[..|es| - 1], es[|es| - 1];
    AllHoldOne(k, last, row);
    if |es| == 1 {
      assert es == [last];
    } else {
      ConjunctionHolds(k, init, row);
      assert es == init + [last];
      AllHoldAppend(k, init, [last], row);
      assert Eval(k, Conjunction(es), row)
          == KleeneAnd(Eval(k, Conjunction(init), row), Eval(k, last, row));
    }
  }

  predicate Condition(e: Expr) { WellTyped(e) && ResultType(e).Boolean? }

  lemma {:induction false} ConjunctsTyped(e: Expr)
    requires Condition(e)
    ensures forall c :: c in Conjuncts(e) ==> Condition(c)
  {
    if e.Binary? && e.bop.And? {
      ConjunctsTyped(e.left);
      ConjunctsTyped(e.right);
    }
  }

  lemma {:induction false} ConjunctionTyped(es: seq<Expr>)
    requires es != [] && forall c :: c in es ==> Condition(c)
    ensures Condition(Conjunction(es))
  {
    if |es| > 1 {
      assert es[|es| - 1] in es;
      ConjunctionTyped(es[..|es| - 1]);
    }
  }

  lemma SimplifyCondition(k: Kernels, e: Expr, row: Row)
    requires Condition(e)
    ensures Condition(Simplify(k, e))
    ensures Holds(k, Simplify(k, e), row) <==> Holds(k, e, row)
  {
    SimplifyTyped(k, e);
    SimplifyPreserves(k, e, row);
  }

  /** What a split says of the conjuncts it was made from. */
  ghost predicate SplitFaithful(es: seq<Expr>, leftWidth: nat, split: Split)
  {
    && (forall e :: e in split.left ==> e in es && ReadsOnlyLeft(e, leftWidth))
    && (forall e :: e in split.remaining ==> e in es)
    && (forall e :: e in split.right ==>
          exists o :: o in es && ReadsOnlyRight(o, leftWidth) && e == ShiftColumns(o, leftWidth))
    && (forall e :: e in es ==>
          || e in split.left
          || e in split.remaining
          || (ReadsOnlyRight(e, leftWidth) && ShiftColumns(e, leftWidth) in split.right))
  }

  lemma {:induction false} SplitIsFaithful(es: seq<Expr>, leftWidth: nat, rightPushable: bool)
    ensures SplitFaithful(es, leftWidth, SplitConjuncts(es, leftWidth, rightPushable))
  {
    if es != [] {
      var init, e := es[..|es| - 1], es[|es| - 1];
      SplitIsFaithful(init, leftWidth, rightPushable);
      assert es == init + [e];
    }
  }

  /** A shifted conjunct means on the right row what the original means on the joined row. */
  lemma ShiftHolds(k: Kernels, e: Expr, l: Row, r: Row)
    requires ReadsOnlyRight(e, |l|)
    ensures Holds(k, e, l + r) <==> Holds(k, ShiftColumns(e, |l|), r)
    ensures Condition(e) ==> Condition(ShiftColumns(e, |l|))
  {
    RenameDefined(e, ShiftBy(|l|));
    RenamePreserves(k, e, Columns(e), ShiftBy(|l|), l + r, r);
    RenameTyped(e, ShiftBy(|l|));
  }

  lemma LeftHolds(k: Kernels, e: Expr, l: Row, o: Row)
    requires ReadsOnlyLeft(e, |l|) && |l| <= |o| && o[..|l|] == l
    ensures Holds(k, e, o) <==> Holds(k, e, l)
  {
    assert AgreeOn(Columns(e), o, l) by {
      forall i | i in Columns(e)
        ensures i < |l| && i < |o| && o[i] == l[i]
      {
        assert o[..|l|][i] == o[i];
      }
    }
    EvalDependsOnColumns(k, e, Columns(e), o, l);
  }

  // ---------------------------------------------------------------------------
  // Pushing through a join keeps the rows
  // ---------------------------------------------------------------------------

  function KeepAll(k: Kernels, es: seq<Expr>, rows: seq<Row>): seq<Row>
  {
    Select(row => AllHold(k, es, row), rows)
  }

  lemma KeepAllConjunction(k: Kernels, es: seq<Expr>, rows: seq<Row>)
    ensures es == [] ==> KeepAll(k, es, rows) == rows
    ensures es != [] ==> KeepAll(k, es, rows) == FilterRows(k, Conjunction(es), rows)
  {
    if es == [] {
      SelectAll(row => AllHold(k, es, row), rows);
    } else {
      forall row | row in rows ensures AllHold(k, es, row) == Holds(k, Conjunction(es), row) {
        ConjunctionHolds(k, es, row);
      }
      SelectExt(row => AllHold(k, es, row), row => Holds(k, Conjunction(es), row), rows);
    }
  }

  lemma PushLeft(k: Kernels, spec: JoinSpec, es: seq<Expr>, n: nat, left: seq<Row>, right: seq<Row>)
    requires AllWidth(left, n) && forall e :: e in es ==> ReadsOnlyLeft(e, n)
    ensures KeepAll(k, es, JoinRows(k, spec, left, right)) == JoinRows(k, spec, KeepAll(k, es, left), right)
  {
    forall l, o | l in left && o in JoinOne(k, spec, l, right)
      ensures AllHold(k, es, o) == AllHold(k, es, l)
    {
      JoinOneShape(k, spec, l, right, o);
      forall e | e in es ensures Holds(k, e, o) == Holds(k, e, l) {
        LeftHolds(k, e, l, o);
      }
    }
    SelectBeforeJoinLeft(k, spec, row => AllHold(k, es, row), left, right);
  }

  ghost predicate Shifted(originals: seq<Expr>, shifted: seq<Expr>, n: nat)
  {
    && (forall e :: e in originals ==> ReadsOnlyRight(e, n) && ShiftColumns(e, n) in shifted)
    && (forall e :: e in shifted ==> exists o :: o in originals && e == ShiftColumns(o, n))
  }

  lemma ShiftedHold(k: Kernels, originals: seq<Expr>, shifted: seq<Expr>, l: Row, r: Row)
    requires Shifted(originals, shifted, |l|)
    ensures AllHold(k, originals, l + r) == AllHold(k, shifted, r)
  {
    forall e | e in originals ensures Holds(k, e, l + r) == Holds(k, ShiftColumns(e, |l|), r) {
      ShiftHolds(k, e, l, r);
    }
  }

  lemma PushRight(k: Kernels, spec: JoinSpec, originals: seq<Expr>, shifted: seq<Expr>, n: nat,
                  left: seq<Row>, right: seq<Row>)
    requires spec.joinType.Inner? && AllWidth(left, n) && Shifted(originals, shifted, n)
    ensures KeepAll(k, originals, JoinRows(k, spec, left, right)) == JoinRows(k, spec, left, KeepAll(k, shifted, right))
  {
    forall l, r | l in left && r in right
      ensures AllHold(k, originals, l + r) == AllHold(k, shifted, r)
    {
      ShiftedHold(k, originals, shifted, l, r);
    }
    SelectBeforeJoinRight(k, spec, row => AllHold(k, originals, row), row => AllHold(k, shifted, row), left, right);
  }

  /** The conjuncts sent right, before shifting. */
  ghost function RightOriginals(es: seq<Expr>, split: Split, n: nat): seq<Expr>
  {
    Select((e: Expr) => ReadsOnlyRight(e, n) && ShiftColumns(e, n) in split.right, es)
  }

  lemma OriginalsShifted(es: seq<Expr>, n: nat, split: Split)
    requires SplitFaithful(es, n, split)
    ensures Shifted(RightOriginals(es, split, n), split.right, n)
    ensures forall e :: e in RightOriginals(es, split, n) ==> e in es
    ensures forall e :: e in es ==> e in split.left || e in split.remaining || e in RightOriginals(es, split, n)
  {
    var p := (e: Expr) => ReadsOnlyRight(e, n) && ShiftColumns(e, n) in split.right;
    forall e: Expr ensures e in RightOriginals(es, split, n) <==> e in es && p(e) {
      SelectMember(p, es, e);
    }
  }

  /** Filtering by all conjuncts is filtering by the three parts in turn. */
  lemma KeepInTurn(k: Kernels, es: seq<Expr>, a: seq<Expr>, b: seq<Expr>, c: seq<Expr>, rows: seq<Row>)
    requires forall e :: e in es <==> e in a || e in b || e in c
    ensures KeepAll(k, es, rows) == KeepAll(k, c, KeepAll(k, b, KeepAll(k, a, rows)))
  {
    var pa, pb, pc := (row: Row) => AllHold(k, a, row), (row: Row) => AllHold(k, b, row), (row: Row) => AllHold(k, c, row);
    var pab := (row: Row) => pb(row) && pa(row);
    SelectSelect(pb, pa, pab, rows);
    SelectSelect(pc, pab, row => AllHold(k, es, row), rows);
  }

  /** Splitting a WHERE over a join: the left part on the left input, the right part on the
      right input (inner joins only), the rest on top. */
  lemma SplitPreserves(k: Kernels, spec: JoinSpec, condition: Expr, n: nat, left: seq<Row>, right: seq<Row>)
    requires AllWidth(left, n)
    ensures var split := SplitConjuncts(Conjuncts(condition), n, spec.joinType.Inner?);
            FilterRows(k, condition, JoinRows(k, spec, left, right)) ==
            KeepAll(k, split.remaining,
                    JoinRows(k, spec, KeepAll(k, split.left, left), KeepAll(k, split.right, right)))
  {
    var es := Conjuncts(condition);
    var split := SplitConjuncts(es, n, spec.joinType.Inner?);
    SplitIsFaithful(es, n, spec.joinType.Inner?);
    var originals := RightOriginals(es, split, n);
    OriginalsShifted(es, n, split);
    var joined := JoinRows(k, spec, left, right);
    forall row | row in joined ensures Holds(k, condition, row) == AllHold(k, es, row) {
      ConjunctsHold(k, condition, row);
    }
    SelectExt(row => Holds(k, condition, row), row => AllHold(k, es, row), joined);
    KeepInTurn(k, es, split.left, originals, split.remaining, joined);
    PushLeft(k, spec, split.left, n, left, right);
    var kept := KeepAll(k, split.left, left);
    forall row | row in kept ensures |row| == n {
      SelectMember(row => AllHold(k, split.left, row), left, row);
    }
    if spec.joinType.Inner? {
      PushRight(k, spec, originals, split.right, n, kept, right);
    } else {
      SelectNone((e: Expr) => ReadsOnlyRight(e, n) && ShiftColumns(e, n) in split.right, es);
      KeepAllConjunction(k, [], JoinRows(k, spec, kept, right));
      KeepAllConjunction(k, [], right);
    }
  }

  // ---------------------------------------------------------------------------
  // The theorem
  // ---------------------------------------------------------------------------

  ghost predicate PlanTyped(p: Plan)
  {
    match p
    case Scan(_, _, _, _) => true
    case Join(l, r, _, _, _, _) => PlanTyped(l) && PlanTyped(r)
    case Filter(c, condition) => PlanTyped(c) && Condition(condition)
    case Project(c, items) => PlanTyped(c) && forall item :: item in items ==> WellTyped(item.expr)
    case Group(c, groupBy, calls) =>
      && PlanTyped(c)
      && (forall item :: item in groupBy ==> WellTyped(item.expr))
      && (forall call :: call in calls ==> WellTyped(call.argument))
    case Sort(c, keys) => PlanTyped(c) && forall key :: key in keys ==> WellTyped(key.expr)
    case Limit(c, _) => PlanTyped(c)
  }

  /** What a rewritten plan keeps besides its rows. */
  ghost predicate Refits(tables: Tables, r: Plan, p: Plan)
  {
    Width(r) == Width(p) && Conforms(tables, r) && PlanTyped(r)
  }

  lemma SimplifyItemsPreserves(k: Kernels, items: seq<NamedExpr>, row: Row)
    requires forall item :: item in items ==> WellTyped(item.expr)
    ensures EvalItems(k, SimplifyItems(k, items), row) == EvalItems(k, items, row)
    ensures |SimplifyItems(k, items)| == |items|
  {
    var simple := (item: NamedExpr) => NamedExpr(Simplify(k, item.expr), item.name);
    MapIndex(simple, items);
    MapIndex((item: NamedExpr) => Eval(k, item.expr, row), items);
    MapIndex((item: NamedExpr) => Eval(k, item.expr, row), SimplifyItems(k, items));
    forall i | 0 <= i < |items|
      ensures EvalItems(k, SimplifyItems(k, items), row)[i] == EvalItems(k, items, row)[i]
    {
      SimplifyPreserves(k, items[i].expr, row);
    }
  }

  lemma SimplifyItemsTyped(k: Kernels, items: seq<NamedExpr>)
    requires forall item :: item in items ==> WellTyped(item.expr)
    ensures forall item :: item in SimplifyItems(k, items) ==> WellTyped(item.expr)
  {
    forall item | item in SimplifyItems(k, items) ensures WellTyped(item.expr) {
      var simple := (item: NamedExpr) => NamedExpr(Simplify(k, item.expr), item.name);
      MapMember(simple, items, item);
      var original :| original in items && item == simple(original);
      SimplifyTyped(k, original.expr);
    }
  }

  lemma SimplifyCallsTyped(k: Kernels, calls: seq<AggregateCall>)
    requires forall call :: call in calls ==> WellTyped(call.argument)
    ensures forall call :: call in SimplifyCalls(k, calls) ==> WellTyped(call.argument)
    ensures |SimplifyCalls(k, calls)| == |calls|
  {
    var simple := (call: AggregateCall) => AggregateCall(call.func, Simplify(k, call.argument), call.name);
    MapIndex(simple, calls);
    forall call | call in SimplifyCalls(k, calls) ensures WellTyped(call.argument) {
      MapMember(simple, calls, call);
      var original :| original in calls && call == simple(original);
      SimplifyTyped(k, original.argument);
    }
  }

  lemma SimplifyKeysTyped(k: Kernels, keys: seq<SortKey>)
    requires forall key :: key in keys ==> WellTyped(key.expr)
    ensures forall key :: key in SimplifyKeys(k, keys) ==> WellTyped(key.expr)
  {
    forall key | key in SimplifyKeys(k, keys) ensures WellTyped(key.expr) {
      var simple := (key: SortKey) => SortKey(Simplify(k, key.expr), key.ascending);
      MapMember(simple, keys, key);
      var original :| original in keys && key == simple(original);
      SimplifyTyped(k, original.expr);
    }
  }

  lemma ProjectPreserves(k: Kernels, items: seq<NamedExpr>, rows: seq<Row>)
    requires forall item :: item in items ==> WellTyped(item.expr)
    ensures ProjectRows(k, SimplifyItems(k, items), rows) == ProjectRows(k, items, rows)
  {
    forall row | row in rows ensures EvalItems(k, SimplifyItems(k, items), row) == EvalItems(k, items, row) {
      SimplifyItemsPreserves(k, items, row);
    }
    MapExt(row => EvalItems(k, SimplifyItems(k, items), row), row => EvalItems(k, items, row), rows);
  }

  lemma CallResultsPreserves(k: Kernels, calls: seq<AggregateCall>, rows: seq<Row>)
    requires forall call :: call in calls ==> WellTyped(call.argument)
    ensures CallResults(k, SimplifyCalls(k, calls), rows) == CallResults(k, calls, rows)
  {
    var simple := (call: AggregateCall) => AggregateCall(call.func, Simplify(k, call.argument), call.name);
    var result := (call: AggregateCall) => Aggregate(k, call.func, CallValues(k, call, rows));
    MapIndex(simple, calls);
    MapIndex(result, calls);
    MapIndex(result, SimplifyCalls(k, calls));
    forall i | 0 <= i < |calls|
      ensures CallResults(k, SimplifyCalls(k, calls), rows)[i] == CallResults(k, calls, rows)[i]
    {
      forall row | row in rows
        ensures Eval(k, Simplify(k, calls[i].argument), row) == Eval(k, calls[i].argument, row)
      {
        SimplifyPreserves(k, calls[i].argument, row);
      }
      MapExt(row => Eval(k, Simplify(k, calls[i].argument), row), row => Eval(k, calls[i].argument, row), rows);
    }
  }

  lemma GroupMembersPreserves(k: Kernels, groupBy: seq<NamedExpr>, rows: seq<Row>, key: Row)
    requires forall item :: item in groupBy ==> WellTyped(item.expr)
    ensures GroupMembers(k, SimplifyItems(k, groupBy), rows, key) == GroupMembers(k, groupBy, rows, key)
  {
    var simplified := SimplifyItems(k, groupBy);
    forall row | row in rows ensures EvalItems(k, simplified, row) == EvalItems(k, groupBy, row) {
      SimplifyItemsPreserves(k, groupBy, row);
    }
    SelectExt(row => EvalItems(k, simplified, row) == key, row => EvalItems(k, groupBy, row) == key, rows);
  }

  lemma GroupPreserves(k: Kernels, groupBy: seq<NamedExpr>, calls: seq<AggregateCall>, rows: seq<Row>)
    requires forall item :: item in groupBy ==> WellTyped(item.expr)
    requires forall call :: call in calls ==> WellTyped(call.argument)
    ensures GroupRows(k, SimplifyItems(k, groupBy), SimplifyCalls(k, calls), rows) == GroupRows(k, groupBy, calls, rows)
  {
    var gs, cs := SimplifyItems(k, groupBy), SimplifyCalls(k, calls);
    SimplifyItemsPreserves(k, groupBy, []);
    CallResultsPreserves(k, calls, rows);
    if groupBy != [] {
      ProjectPreserves(k, groupBy, rows);
      var keys := Select(k.groupKept, Distinct(ProjectRows(k, groupBy, rows)));
      forall key | key in keys
        ensures CallResults(k, cs, GroupMembers(k, gs, rows, key)) == CallResults(k, calls, GroupMembers(k, groupBy, rows, key))
      {
        GroupMembersPreserves(k, groupBy, rows, key);
        CallResultsPreserves(k, calls, GroupMembers(k, groupBy, rows, key));
      }
      MapExt(key => key + CallResults(k, cs, GroupMembers(k, gs, rows, key)),
             key => key + CallResults(k, calls, GroupMembers(k, groupBy, rows, key)), keys);
    }
  }

  lemma SimplifyKeysPreserves(k: Kernels, keys: seq<SortKey>, row: Row)
    requires forall key :: key in keys ==> WellTyped(key.expr)
    ensures SortValues(k, SimplifyKeys(k, keys), row) == SortValues(k, keys, row)
    ensures Directions(SimplifyKeys(k, keys)) == Directions(keys)
  {
    var ks := SimplifyKeys(k, keys);
    MapIndex((key: SortKey) => SortKey(Simplify(k, key.expr), key.ascending), keys);
    MapIndex((key: SortKey) => key.ascending, keys);
    MapIndex((key: SortKey) => key.ascending, ks);
    MapIndex((key: SortKey) => Eval(k, key.expr, row), keys);
    MapIndex((key: SortKey) => Eval(k, key.expr, row), ks);
    forall i | 0 <= i < |keys| ensures SortValues(k, ks, row)[i] == SortValues(k, keys, row)[i] {
      SimplifyPreserves(k, keys[i].expr, row);
    }
  }

  lemma SortPreserves(k: Kernels, keys: seq<SortKey>, rows: seq<Row>)
    requires forall key :: key in keys ==> WellTyped(key.expr)
    ensures SortRows(k, SimplifyKeys(k, keys), rows) == SortRows(k, keys, rows)
  {
    hide SortValues, Directions;
    var ks := SimplifyKeys(k, keys);
    SimplifyKeysPreserves(k, keys, []);
    forall row | row in rows ensures SortValues(k, ks, row) == SortValues(k, keys, row) {
      SimplifyKeysPreserves(k, keys, row);
    }
    MapExt(row => (SortValues(k, ks, row), row), row => (SortValues(k, keys, row), row), rows);
  }

  lemma {:induction false} TakeOfMap(k: Kernels, items: seq<NamedExpr>, n: int, rows: seq<Row>)
    ensures TakeRows(n, ProjectRows(k, items, rows)) == ProjectRows(k, items, TakeRows(n, rows))
  {
    var f := (row: Row) => EvalItems(k, items, row);
    MapIndex(f, rows);
    MapIndex(f, TakeRows(n, rows));
  }

  lemma {:induction false} InsertLimitPreserves(k: Kernels, tables: Tables, p: Plan, n: int)
    requires Conforms(tables, p) && PlanTyped(p)
    ensures EvalPlan(k, tables, InsertLimit(p, n)) == TakeRows(n, EvalPlan(k, tables, p))
    ensures Refits(tables, InsertLimit(p, n), p)
  {
    if p.Project? {
      InsertLimitPreserves(k, tables, p.child, n);
      TakeOfMap(k, p.items, n, EvalPlan(k, tables, p.child));
    }
  }

  lemma MergePreserves(k: Kernels, outer: Expr, inner: Expr, rows: seq<Row>)
    requires Condition(outer) && Condition(inner)
    ensures var combined := Simplify(k, Binary(And, Simplify(k, outer), inner, Boolean));
            Condition(combined) &&
            FilterRows(k, combined, rows) == FilterRows(k, outer, FilterRows(k, inner, rows))
  {
    var both := Binary(And, Simplify(k, outer), inner, Boolean);
    var combined := Simplify(k, both);
    SimplifyTyped(k, outer);
    SimplifyTyped(k, both);
    forall row: Row ensures Holds(k, combined, row) == (Holds(k, outer, row) && Holds(k, inner, row)) {
      SimplifyCondition(k, outer, row);
      SimplifyCondition(k, both, row);
    }
    SelectSelect(row => Holds(k, outer, row), row => Holds(k, inner, row), row => Holds(k, combined, row), rows);
  }

  lemma SimplifyFilter(k: Kernels, condition: Expr, rows: seq<Row>)
    requires Condition(condition)
    ensures Condition(Simplify(k, condition))
    ensures FilterRows(k, Simplify(k, condition), rows) == FilterRows(k, condition, rows)
  {
    SimplifyTyped(k, condition);
    forall row | row in rows ensures Holds(k, Simplify(k, condition), row) == Holds(k, condition, row) {
      SimplifyCondition(k, condition, row);
    }
    SelectExt(row => Holds(k, Simplify(k, condition), row), row => Holds(k, condition, row), rows);
  }

  /** One side of a pushed join: filtered by its conjuncts, or untouched when there are none. */
  lemma {:induction false} PushedSide(k: Kernels, tables: Tables, side: Plan, es: seq<Expr>) returns (r: Plan)
    requires Conforms(tables, side) && PlanTyped(side) && forall e :: e in es ==> Condition(e)
    ensures r == if es == [] then side else Rewrite(k, Filter(side, Conjunction(es)))
    ensures EvalPlan(k, tables, r) == KeepAll(k, es, EvalPlan(k, tables, side))
    ensures Refits(tables, r, side)
    decreases NonFilters(side), FilterChain(side) + 2
  {
    KeepAllConjunction(k, es, EvalPlan(k, tables, side));
    if es == [] {
      r := side;
    } else {
      ConjunctionTyped(es);
      r := Rewrite(k, Filter(side, Conjunction(es)));
      RewritePreserves(k, tables, Filter(side, Conjunction(es)));
    }
  }

  lemma SplitTyped(k: Kernels, condition: Expr, n: nat, pushable: bool)
    requires Condition(condition)
    ensures var split := SplitConjuncts(Conjuncts(condition), n, pushable);
            forall e :: e in split.left || e in split.right || e in split.remaining ==> Condition(e)
  {
    var es := Conjuncts(condition);
    var split := SplitConjuncts(es, n, pushable);
    SplitIsFaithful(es, n, pushable);
    ConjunctsTyped(condition);
    forall e | e in split.right ensures Condition(e) {
      var o :| o in es && ReadsOnlyRight(o, n) && e == ShiftColumns(o, n);
      ShiftHolds(k, o, Nulls(n), []);
    }
  }

  lemma PushedJoin(k: Kernels, tables: Tables, join: Plan, condition: Expr, split: Split, l: Plan, r: Plan)
    requires join.Join? && Conforms(tables, join)
    requires split == SplitConjuncts(Conjuncts(condition), Width(join.left), join.joinType.Inner?)
    requires Refits(tables, l, join.left) && Refits(tables, r, join.right)
    requires EvalPlan(k, tables, l) == KeepAll(k, split.left, EvalPlan(k, tables, join.left))
    requires EvalPlan(k, tables, r) == KeepAll(k, split.right, EvalPlan(k, tables, join.right))
    ensures EvalPlan(k, tables, FilterUnlessEmpty(join.(left := l, right := r), split.remaining))
         == FilterRows(k, condition, EvalPlan(k, tables, join))
  {
    var joined := join.(left := l, right := r);
    assert SpecOf(joined) == SpecOf(join);
    EvalPlanWidth(k, tables, join.left);
    SplitPreserves(k, SpecOf(join), condition, Width(join.left), EvalPlan(k, tables, join.left),
                   EvalPlan(k, tables, join.right));
    KeepAllConjunction(k, split.remaining, EvalPlan(k, tables, joined));
  }

  lemma FilterPlan(k: Kernels, tables: Tables, p: Plan, condition: Expr)
    requires Conforms(tables, p) && PlanTyped(p) && Condition(condition)
    ensures EvalPlan(k, tables, Filter(p, condition)) == FilterRows(k, condition, EvalPlan(k, tables, p))
    ensures Refits(tables, Filter(p, condition), p)
  {
  }

  lemma RejoinedRefits(tables: Tables, join: Plan, l: Plan, r: Plan, remaining: seq<Expr>)
    requires join.Join? && Refits(tables, l, join.left) && Refits(tables, r, join.right)
    requires forall e :: e in remaining ==> Condition(e)
    ensures Refits(tables, FilterUnlessEmpty(join.(left := l, right := r), remaining), join)
  {
    if remaining != [] {
      ConjunctionTyped(remaining);
    }
  }

  lemma {:induction false} PushPreserves(k: Kernels, tables: Tables, join: Plan, condition: Expr)
    requires join.Join? && Conforms(tables, join) && PlanTyped(join) && Condition(condition)
    ensures EvalPlan(k, tables, PushThroughJoin(k, join, condition))
         == FilterRows(k, condition, EvalPlan(k, tables, join))
    ensures Refits(tables, PushThroughJoin(k, join, condition), join)
    decreases NonFilters(join), 0
  {
    hide EvalPlan, FilterRows, KeepAll, Conjuncts, SplitConjuncts, Conjunction, Condition, Refits, FilterUnlessEmpty;
    NonFiltersPositive(join.left);
    NonFiltersPositive(join.right);
    var split := SplitConjuncts(Conjuncts(condition), Width(join.left), join.joinType.Inner?);
    SplitTyped(k, condition, Width(join.left), join.joinType.Inner?);
    if split.left == [] && split.right == [] {
      FilterPlan(k, tables, join, condition);
    } else {
      var l := PushedSide(k, tables, join.left, split.left);
      var r := PushedSide(k, tables, join.right, split.right);
      PushedJoin(k, tables, join, condition, split, l, r);
      RejoinedRefits(tables, join, l, r, split.remaining);
    }
  }

  lemma {:induction false} FilterPreserves(k: Kernels, tables: Tables, p: Plan)
    requires p.Filter? && Conforms(tables, p) && PlanTyped(p)
    ensures EvalPlan(k, tables, Rewrite(k, p)) == EvalPlan(k, tables, p)
    ensures Refits(tables, Rewrite(k, p), p)
    decreases NonFilters(p), FilterChain(p), 0
  {
    RewritePreserves(k, tables, p.child);
    var child := Rewrite(k, p.child);
    var simplified := Simplify(k, p.condition);
    var rows := EvalPlan(k, tables, child);
    SimplifyFilter(k, p.condition, rows);
    if child.Filter? {
      var merged := Simplify(k, Binary(And, simplified, child.condition, Boolean));
      ShorterChain(p, child.child, merged);
      MergePreserves(k, p.condition, child.condition, EvalPlan(k, tables, child.child));
      RewritePreserves(k, tables, Filter(child.child, merged));
    } else if simplified.Literal? && simplified.value.Bool? {
      if simplified.value.b {
        SelectAll(row => Holds(k, simplified, row), rows);
      }
    } else if child.Join? {
      PushPreserves(k, tables, child, simplified);
    }
  }

  /** Rewriting keeps the produced rows and their order, for every plan the binder can
      build, all table contents and all kernels. */
  lemma {:induction false} RewritePreserves(k: Kernels, tables: Tables, p: Plan)
    requires Conforms(tables, p) && PlanTyped(p)
    ensures EvalPlan(k, tables, Rewrite(k, p)) == EvalPlan(k, tables, p)
    ensures Refits(tables, Rewrite(k, p), p)
    decreases NonFilters(p), FilterChain(p), 1
  {
    match p
    case Scan(_, _, _, _) =>
    case Join(l, r, _, _, _, _) =>
      NonFiltersPositive(l);
      NonFiltersPositive(r);
      RewritePreserves(k, tables, l);
      RewritePreserves(k, tables, r);
      assert SpecOf(Rewrite(k, p)) == SpecOf(p);
    case Filter(_, _) => FilterPreserves(k, tables, p);
    case Project(c, items) =>
      RewritePreserves(k, tables, c);
      ProjectPreserves(k, items, EvalPlan(k, tables, c));
      SimplifyItemsTyped(k, items);
      SimplifyItemsPreserves(k, items, []);
    case Group(c, groupBy, calls) =>
      RewritePreserves(k, tables, c);
      GroupPreserves(k, groupBy, calls, EvalPlan(k, tables, c));
      SimplifyItemsTyped(k, groupBy);
      SimplifyItemsPreserves(k, groupBy, []);
      SimplifyCallsTyped(k, calls);
    case Sort(c, keys) =>
      RewritePreserves(k, tables, c);
      SortPreserves(k, keys, EvalPlan(k, tables, c));
      SimplifyKeysTyped(k, keys);
    case Limit(c, n) =>
      RewritePreserves(k, tables, c);
      InsertLimitPreserves(k, tables, Rewrite(k, c), n);
  }
}
