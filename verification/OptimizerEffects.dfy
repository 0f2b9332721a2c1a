/** What optimization and planning achieve, besides keeping the rows: constants are folded, WHERE
conjuncts stand as far down as the joins let them, LIMITs stand below select lists, scans deliver
only what is asked of them, and hash tables are built on the smaller side. */
module OptimizerEffects {
  import opened Expressions
  import opened Relational
  import opened JoinSemantics
  import opened LogicalPlans
  import opened Simplifier
  import opened Rewriter
  import opened PhysicalPlanner
  import opened RequiredColumns
  import opened BlockShapes

  // ---------------------------------------------------------------------------
  // Expressions
  // ---------------------------------------------------------------------------

  predicate IsTruth(e: Expr) { e.Literal? && e.value.Bool? }

  /** Two literals whose result is known when the query is planned. */
  predicate Known(k: Kernels, op: BinaryOp, a: Expr, b: Expr)
  {
    a.Literal? && b.Literal? && IsNumber(a.value) && IsNumber(b.value) &&
    (|| IsComparison(op)
     || (IsArithmetic(op) && if a.value.Int? && b.value.Int? then IntArith(op, a.value.i, b.value.i).Some?
                             else !(op.Divide? && AsDouble(k, b.value) == 0.0)))
  }

  /** No BETWEEN, no truth value under AND, OR or NOT, no double negation and no constant
      calculation or comparison is left, at any depth. */
  predicate Settled(k: Kernels, e: Expr)
  {
    match e
    case Column(_, _, _) => true
    case Literal(_, _) => true
    case Between(_, _, _) => false
    case Binary(op, l, r, _) =>
      && Settled(k, l) && Settled(k, r)
      && (if op.And? || op.Or? then !IsTruth(l) && !IsTruth(r) else !Known(k, op, l, r))
    case Unary(op, o, _) => Settled(k, o) && (op.Not? ==> !IsTruth(o) && !(o.Unary? && o.uop.Not?))
    case Cast(o, _) => Settled(k, o)
    case Like(s, _, _) => Settled(k, s)
    case Case(c, r, o, _) => Settled(k, c) && Settled(k, r) && Settled(k, o)
    case Extract(_, o, _) => Settled(k, o)
    case Substring(o, _, _, _) => Settled(k, o)
  }

  lemma LogicalSettles(k: Kernels, op: BinaryOp, l: Expr, r: Expr, t: TypeId)
    requires IsLogical(op) && Settled(k, l) && Settled(k, r)
    ensures Settled(k, FoldLogical(op, l, r, t))
  {
    hide Known, FoldLogical;
    LogicalShape(op, l, r, t);
  }

  lemma LogicalShape(op: BinaryOp, l: Expr, r: Expr, t: TypeId)
    requires IsLogical(op)
    ensures var folded := FoldLogical(op, l, r, t);
            || folded == l || folded == r || folded.Literal?
            || (folded == Binary(op, l, r, t) && !IsTruth(l) && !IsTruth(r))
  {
  }

  lemma LiteralsSettle(k: Kernels, op: BinaryOp, l: Expr, r: Expr, t: TypeId)
    requires !IsLogical(op) && l.Literal? && r.Literal?
    ensures Settled(k, FoldBinary(k, op, l, r, t))
  {
    if FoldBinary(k, op, l, r, t).Binary? {
      assert FoldBinary(k, op, l, r, t) == Binary(op, l, r, t);
      assert !Known(k, op, l, r);
    }
  }

  lemma FoldSettles(k: Kernels, op: BinaryOp, l: Expr, r: Expr, t: TypeId)
    requires Settled(k, l) && Settled(k, r)
    ensures Settled(k, FoldBinary(k, op, l, r, t))
  {
    hide FoldLogical, FoldIntegers, FoldDoubles;
    if IsLogical(op) {
      LogicalSettles(k, op, l, r, t);
    } else if l.Literal? && r.Literal? {
      LiteralsSettle(k, op, l, r, t);
    }
  }

  lemma {:induction false} SimplifySettles(k: Kernels, e: Expr)
    ensures Settled(k, Simplify(k, e))
    decreases BetweenCount(e), e
  {
    hide FoldBinary, Known;
    match e
    case Between(s, lo, hi) =>
      SimplifySettles(k, s);
      SimplifySettles(k, lo);
      SimplifySettles(k, hi);
      var s', lo', hi' := Simplify(k, s), Simplify(k, lo), Simplify(k, hi);
      ExpansionCount(s', lo', hi');
      SimplifySettles(k, Expansion(s', lo', hi'));
    case Unary(_, o, _) => SimplifySettles(k, o);
    case Binary(op, l, r, t) =>
      SimplifySettles(k, l);
      SimplifySettles(k, r);
      FoldSettles(k, op, Simplify(k, l), Simplify(k, r), t);
    case Cast(o, _) => SimplifySettles(k, o);
    case Like(s, _, _) => SimplifySettles(k, s);
    case Case(c, r, o, _) => SimplifySettles(k, c); SimplifySettles(k, r); SimplifySettles(k, o);
    case Extract(_, o, _) => SimplifySettles(k, o);
    case Substring(o, _, _, _) => SimplifySettles(k, o);
    case Column(_, _, _) =>
    case Literal(_, _) =>
  }

  // ---------------------------------------------------------------------------
  // Plans
  // ---------------------------------------------------------------------------

  /** A conjunct that could be tested on one input of the join. */
  predicate Movable(join: Plan, e: Expr)
    requires join.Join?
  {
    && Columns(e) != {}
    && (|| (forall i :: i in Columns(e) ==> i < Width(join.left))
        || (join.joinType.Inner? && forall i :: i in Columns(e) ==> Width(join.left) <= i))
  }

  predicate AlwaysTrue(e: Expr) { e.Literal? && e.value == Bool(true) }

  /** No filter stands on a filter or keeps everything, no conjunct stands over a join that could
      stand below it, and no LIMIT on a select list. */
  predicate InPlace(p: Plan)
  {
    match p
    case Scan(_, _, _, _) => true
    case Join(l, r, _, _, _, _) => InPlace(l) && InPlace(r)
    case Filter(c, condition) =>
      InPlace(c) && !c.Filter? && !AlwaysTrue(condition) && (c.Join? ==> forall e :: e in Conjuncts(condition) ==> !Movable(c, e))
    case Project(c, _) => InPlace(c)
    case Group(c, _, _) => InPlace(c)
    case Sort(c, _) => InPlace(c)
    case Limit(c, _) => InPlace(c) && !c.Project?
  }

  lemma {:induction false} LimitInPlace(p: Plan, n: int)
    requires InPlace(p)
    ensures InPlace(InsertLimit(p, n))
  {
    if p.Project? { LimitInPlace(p.child, n); }
  }

  predicate IsConjunct(e: Expr) { !(e.Binary? && e.bop.And?) }

  lemma {:induction false} ConjunctsAreConjuncts(e: Expr)
    ensures forall c :: c in Conjuncts(e) ==> IsConjunct(c)
  {
    if e.Binary? && e.bop.And? {
      ConjunctsAreConjuncts(e.left);
      ConjunctsAreConjuncts(e.right);
    }
  }

  lemma {:induction false} ConjunctsOfConjunction(es: seq<Expr>)
    requires es != [] && forall e :: e in es ==> IsConjunct(e)
    ensures forall c :: c in Conjuncts(Conjunction(es)) ==> c in es
  {
    if |es| > 1 {
      assert es[|es| - 1] in es;
      ConjunctsOfConjunction(es[..|es| - 1]);
    } else {
      assert es[0] in es;
    }
  }

  lemma {:induction false} RemainingUnmovable(join: Plan, es: seq<Expr>)
    requires join.Join?
    ensures forall e :: e in SplitConjuncts(es, Width(join.left), join.joinType.Inner?).remaining ==> e in es && !Movable(join, e)
  {
    if es != [] {
      RemainingUnmovable(join, es[..|es| - 1]);
      assert es == es[..|es| - 1] + [es[|es| - 1]];
    }
  }

  lemma {:induction false} AllRemaining(join: Plan, es: seq<Expr>)
    requires join.Join?
    requires var split := SplitConjuncts(es, Width(join.left), join.joinType.Inner?); split.left == [] && split.right == []
    ensures SplitConjuncts(es, Width(join.left), join.joinType.Inner?).remaining == es
  {
    if es != [] {
      AllRemaining(join, es[..|es| - 1]);
      assert es == es[..|es| - 1] + [es[|es| - 1]];
    }
  }

  lemma {:induction false} PushedInPlace(k: Kernels, side: Plan, es: seq<Expr>)
    requires InPlace(side)
    ensures InPlace(if es == [] then side else Rewrite(k, Filter(side, Conjunction(es))))
    ensures es != [] ==> Width(Rewrite(k, Filter(side, Conjunction(es)))) == Width(side)
    decreases NonFilters(side), FilterChain(side) + 2
  {
    if es != [] { RewriteInPlace(k, Filter(side, Conjunction(es))); }
  }

  lemma JoinedInPlace(join: Plan, l: Plan, r: Plan, remaining: seq<Expr>)
    requires join.Join? && InPlace(l) && InPlace(r) && Width(l) == Width(join.left) && Width(r) == Width(join.right)
    requires forall e :: e in remaining ==> IsConjunct(e) && !Movable(join, e)
    requires remaining != [] ==> !AlwaysTrue(Conjunction(remaining))
    ensures var p := FilterUnlessEmpty(join.(left := l, right := r), remaining);
            InPlace(p) && Width(p) == Width(join)
  {
    hide Movable;
    var joined := join.(left := l, right := r);
    forall e | e in remaining ensures !Movable(joined, e) {
      SameMovable(join, joined, e);
    }
    if remaining != [] {
      ConjunctsOfConjunction(remaining);
    }
  }

  lemma {:induction false} PushInPlace(k: Kernels, join: Plan, condition: Expr)
    requires join.Join? && InPlace(join) && Clause(k, condition)
    ensures InPlace(PushThroughJoin(k, join, condition)) && Width(PushThroughJoin(k, join, condition)) == Width(join)
    decreases NonFilters(join), 0
  {
    hide Movable, IsConjunct, InPlace, Rewrite, SplitConjuncts, Conjuncts, Conjunction, Settled;
    NonFiltersPositive(join.left);
    NonFiltersPositive(join.right);
    SidesInPlace(join);
    var es := Conjuncts(condition);
    var split := SplitConjuncts(es, Width(join.left), join.joinType.Inner?);
    ConjunctsAreConjuncts(condition);
    RemainingUnmovable(join, es);
    if split.left == [] && split.right == [] {
      AllRemaining(join, es);
      StaysInPlace(join, condition);
    } else {
      PushedInPlace(k, join.left, split.left);
      PushedInPlace(k, join.right, split.right);
      ClausesOf(k, condition);
      RemainingClauses(k, es, Width(join.left), join.joinType.Inner?);
      if split.remaining != [] {
        ClausesJoined(k, split.remaining);
      }
      JoinedInPlace(join, if split.left == [] then join.left else Rewrite(k, Filter(join.left, Conjunction(split.left))),
                    if split.right == [] then join.right else Rewrite(k, Filter(join.right, Conjunction(split.right))),
                    split.remaining);
    }
  }

  lemma SidesInPlace(join: Plan)
    requires join.Join? && InPlace(join)
    ensures InPlace(join.left) && InPlace(join.right)
  {
  }

  lemma StaysInPlace(join: Plan, condition: Expr)
    requires join.Join? && InPlace(join) && !AlwaysTrue(condition)
    requires forall e :: e in Conjuncts(condition) ==> !Movable(join, e)
    ensures InPlace(Filter(join, condition)) && Width(Filter(join, condition)) == Width(join)
  {
    hide Movable;
  }

  lemma SameMovable(join: Plan, joined: Plan, e: Expr)
    requires join.Join? && joined.Join? && joined.joinType == join.joinType && Width(joined.left) == Width(join.left)
    ensures Movable(joined, e) == Movable(join, e)
  {
  }

  lemma {:induction false} FilterInPlace(k: Kernels, p: Plan)
    requires p.Filter?
    ensures InPlace(Rewrite(k, p)) && Width(Rewrite(k, p)) == Width(p)
    decreases NonFilters(p), FilterChain(p), 0
  {
    hide Settled;
    RewriteInPlace(k, p.child);
    var child := Rewrite(k, p.child);
    var simplified := Simplify(k, p.condition);
    SimplifySettles(k, p.condition);
    if child.Filter? {
      var merged := Simplify(k, Binary(And, simplified, child.condition, Boolean));
      ShorterChain(p, child.child, merged);
      RewriteInPlace(k, Filter(child.child, merged));
    } else if simplified.Literal? && simplified.value.Bool? {
      assert Conjuncts(simplified) == [simplified] && Columns(simplified) == {};
    } else if child.Join? {
      PushInPlace(k, child, simplified);
    }
  }

  lemma LimitWidth(p: Plan, n: int)
    ensures Width(InsertLimit(p, n)) == Width(p)
  {
  }

  /** After rewriting, everything stands where it should. */
  lemma {:induction false} RewriteInPlace(k: Kernels, p: Plan)
    ensures InPlace(Rewrite(k, p)) && Width(Rewrite(k, p)) == Width(p)
    decreases NonFilters(p), FilterChain(p), 1
  {
    match p
    case Scan(_, _, _, _) =>
    case Join(l, r, _, _, _, _) =>
      NonFiltersPositive(l);
      NonFiltersPositive(r);
      RewriteInPlace(k, l);
      RewriteInPlace(k, r);
    case Filter(_, _) => FilterInPlace(k, p);
    case Project(c, items) =>
      RewriteInPlace(k, c);
      MapIndex((item: NamedExpr) => NamedExpr(Simplify(k, item.expr), item.name), items);
    case Group(c, groupBy, calls) =>
      RewriteInPlace(k, c);
      MapIndex((item: NamedExpr) => NamedExpr(Simplify(k, item.expr), item.name), groupBy);
      MapIndex((call: AggregateCall) => AggregateCall(call.func, Simplify(k, call.argument), call.name), calls);
    case Sort(c, _) => RewriteInPlace(k, c);
    case Limit(c, n) =>
      RewriteInPlace(k, c);
      LimitInPlace(Rewrite(k, c), n);
      LimitWidth(Rewrite(k, c), n);
  }

  /** The expressions of every node are settled. */
  ghost predicate AllSettled(k: Kernels, p: Plan)
  {
    match p
    case Scan(_, _, _, _) => true
    case Join(l, r, _, _, _, _) => AllSettled(k, l) && AllSettled(k, r)
    case Filter(c, condition) => AllSettled(k, c) && Settled(k, condition)
    case Project(c, items) => AllSettled(k, c) && forall item :: item in items ==> Settled(k, item.expr)
    case Group(c, groupBy, calls) =>
      && AllSettled(k, c) && (forall item :: item in groupBy ==> Settled(k, item.expr))
      && (forall call :: call in calls ==> Settled(k, call.argument))
    case Sort(c, keys) => AllSettled(k, c) && forall key :: key in keys ==> Settled(k, key.expr)
    case Limit(c, _) => AllSettled(k, c)
  }

  ghost predicate Clause(k: Kernels, e: Expr) { Settled(k, e) && !IsTruth(e) }

  lemma {:induction false} ClausesOf(k: Kernels, e: Expr)
    requires Clause(k, e)
    ensures forall c :: c in Conjuncts(e) ==> Clause(k, c)
  {
    hide Known;
    if e.Binary? && e.bop.And? {
      ClausesOf(k, e.left);
      ClausesOf(k, e.right);
    }
  }

  lemma {:induction false} ClausesJoined(k: Kernels, es: seq<Expr>)
    requires es != [] && forall e :: e in es ==> Clause(k, e)
    ensures Clause(k, Conjunction(es))
  {
    hide Known;
    if |es| > 1 {
      assert es[|es| - 1] in es;
      ClausesJoined(k, es[..|es| - 1]);
    } else {
      assert es[0] in es;
    }
  }

  lemma {:induction false} RemainingClauses(k: Kernels, es: seq<Expr>, n: nat, pushable: bool)
    ensures forall e :: e in SplitConjuncts(es, n, pushable).remaining ==> e in es
  {
    SplitIsFaithful(es, n, pushable);
  }

  lemma {:induction false} PushedSettled(k: Kernels, side: Plan, es: seq<Expr>)
    requires AllSettled(k, side)
    ensures AllSettled(k, if es == [] then side else Rewrite(k, Filter(side, Conjunction(es))))
    decreases NonFilters(side), FilterChain(side) + 2
  {
    if es != [] { RewriteSettled(k, Filter(side, Conjunction(es))); }
  }

  lemma {:induction false} PushSettled(k: Kernels, join: Plan, condition: Expr)
    requires join.Join? && AllSettled(k, join) && Clause(k, condition)
    ensures AllSettled(k, PushThroughJoin(k, join, condition))
    decreases NonFilters(join), 0
  {
    hide Settled, SplitConjuncts;
    NonFiltersPositive(join.left);
    NonFiltersPositive(join.right);
    var split := SplitConjuncts(Conjuncts(condition), Width(join.left), join.joinType.Inner?);
    if split.left != [] || split.right != [] {
      PushedSettled(k, join.left, split.left);
      PushedSettled(k, join.right, split.right);
      ClausesOf(k, condition);
      RemainingClauses(k, Conjuncts(condition), Width(join.left), join.joinType.Inner?);
      if split.remaining != [] {
        ClausesJoined(k, split.remaining);
      }
    }
  }

  lemma {:induction false} FilterSettled(k: Kernels, p: Plan)
    requires p.Filter?
    ensures AllSettled(k, Rewrite(k, p))
    decreases NonFilters(p), FilterChain(p), 0
  {
    hide Settled, Simplify;
    RewriteSettled(k, p.child);
    var child := Rewrite(k, p.child);
    var simplified := Simplify(k, p.condition);
    SimplifySettles(k, p.condition);
    if child.Filter? {
      var merged := Simplify(k, Binary(And, simplified, child.condition, Boolean));
      ShorterChain(p, child.child, merged);
      RewriteSettled(k, Filter(child.child, merged));
    } else if simplified.Literal? && simplified.value.Bool? {
    } else if child.Join? {
      PushSettled(k, child, simplified);
    }
  }

  lemma {:induction false} LimitSettled(k: Kernels, p: Plan, n: int)
    requires AllSettled(k, p)
    ensures AllSettled(k, InsertLimit(p, n))
  {
    if p.Project? { LimitSettled(k, p.child, n); }
  }

  lemma ListsSettled(k: Kernels, items: seq<NamedExpr>, calls: seq<AggregateCall>, keys: seq<SortKey>)
    ensures forall item :: item in SimplifyItems(k, items) ==> Settled(k, item.expr)
    ensures forall call :: call in SimplifyCalls(k, calls) ==> Settled(k, call.argument)
    ensures forall key :: key in SimplifyKeys(k, keys) ==> Settled(k, key.expr)
  {
    hide Settled, Simplify;
    forall item | item in SimplifyItems(k, items) ensures Settled(k, item.expr) {
      MapMember((item: NamedExpr) => NamedExpr(Simplify(k, item.expr), item.name), items, item);
      var o :| o in items && item == NamedExpr(Simplify(k, o.expr), o.name);
      SimplifySettles(k, o.expr);
    }
    forall call | call in SimplifyCalls(k, calls) ensures Settled(k, call.argument) {
      MapMember((call: AggregateCall) => AggregateCall(call.func, Simplify(k, call.argument), call.name), calls, call);
      var o :| o in calls && call == AggregateCall(o.func, Simplify(k, o.argument), o.name);
      SimplifySettles(k, o.argument);
    }
    forall key | key in SimplifyKeys(k, keys) ensures Settled(k, key.expr) {
      MapMember((key: SortKey) => SortKey(Simplify(k, key.expr), key.ascending), keys, key);
      var o :| o in keys && key == SortKey(Simplify(k, o.expr), o.ascending);
      SimplifySettles(k, o.expr);
    }
  }

  /** After rewriting, every expression is settled. */
  lemma {:induction false} RewriteSettled(k: Kernels, p: Plan)
    ensures AllSettled(k, Rewrite(k, p))
    decreases NonFilters(p), FilterChain(p), 1
  {
    hide Settled, Simplify, SimplifyItems, SimplifyCalls, SimplifyKeys;
    match p
    case Scan(_, _, _, _) =>
    case Join(l, r, _, _, _, _) =>
      NonFiltersPositive(l);
      NonFiltersPositive(r);
      RewriteSettled(k, l);
      RewriteSettled(k, r);
    case Filter(_, _) => FilterSettled(k, p);
    case Project(c, items) => RewriteSettled(k, c); ListsSettled(k, items, [], []);
    case Group(c, groupBy, calls) => RewriteSettled(k, c); ListsSettled(k, groupBy, calls, []);
    case Sort(c, keys) => RewriteSettled(k, c); ListsSettled(k, [], [], keys);
    case Limit(c, n) => RewriteSettled(k, c); LimitSettled(k, Rewrite(k, c), n);
  }

  // ---------------------------------------------------------------------------
  // Scans
  // ---------------------------------------------------------------------------

  lemma {:induction false} KeptMembers(fields: seq<Field>, required: set<string>, n: nat, i: nat)
    requires n <= |fields|
    ensures i in Kept(fields, required, n) <==> i < n && fields[i].name in required
  {
    if n > 0 { KeptMembers(fields, required, n - 1, i); }
  }

  /** A narrowed scan delivers the columns demanded of it and no others; if none is, its first, so
      that its rows can be counted. */
  lemma ScanDeliversDemand(scan: Plan, required: set<nat>, pushable: seq<PushablePredicate>, i: nat)
    requires scan.Scan? && Annotate(scan, required, pushable).Some?
    requires forall a, b :: 0 <= a < b < |scan.fields| ==> scan.fields[a].name != scan.fields[b].name
    ensures required != {} ==> (i in ConvertScan(Annotate(scan, required, pushable).value).kept <==> i in required)
    ensures required == {} && |scan.fields| > 0 ==> ConvertScan(Annotate(scan, required, pushable).value).kept == [0]
  {
    var fields, a := scan.fields, Annotate(scan, required, pushable).value;
    var names := set j | j in required && j < |fields| :: fields[j].name;
    assert a.required == names && a.fields == fields;
    forall j: nat ensures j in Kept(fields, names, |fields|) <==> j in required {
      KeptMembers(fields, names, |fields|, j);
      if j < |fields| && fields[j].name in names {
        var m :| m in required && m < |fields| && fields[m].name == fields[j].name;
        assert m == j;
      }
    }
    var kept := Kept(fields, names, |fields|);
    if required != {} {
      var j :| j in required;
      assert j in kept;
    } else {
      assert kept == [] by { assert forall j :: 0 <= j < |kept| ==> kept[j] in kept; }
    }
  }

  // ---------------------------------------------------------------------------
  // Joins and predicates
  // ---------------------------------------------------------------------------

  /** The right input of a converted join is the one a hash table is built on: for an inner join the
      smaller, where both sizes are known; for other joins always the right one. */
  lemma BuildsSmallerSide(p: Plan, estimates: Estimates, left: PhysicalPlan, right: PhysicalPlan)
    requires p.Join? && ConvertJoin(p, estimates, left, right).Some?
    ensures var q := ConvertJoin(p, estimates, left, right).value;
            && q.HashJoin? && q.joinType == p.joinType
            && ((q.left == left && q.right == right) || (p.joinType.Inner? && q.left == right && q.right == left))
            && (p.joinType.Inner? && estimates(left).Some? && estimates(right).Some? ==>
                  estimates(q.right).value <= estimates(q.left).value)
            && (estimates(left) == estimates(right) ==> q.left == left)
  {
  }

  /** `q` tests of the column what `e` tests of it. */
  ghost predicate Mirrors(k: Kernels, q: PushablePredicate, op: BinaryOp, literal: Value)
  {
    q.literal == literal && forall v :: EvalBinary(k, q.op, v, literal, Boolean) == EvalBinary(k, op, literal, v, Boolean)
  }

  /** Every conjunct that compares a column with a literal, in either order and through casts, is
      handed to storage. */
  lemma {:induction false} ComparisonsCollected(k: Kernels, condition: Expr, e: Expr)
    requires e in Conjuncts(condition) && e.Binary? && IsComparison(e.bop)
    ensures var l, r := UnwrapCast(e.left), UnwrapCast(e.right);
            && (l.Column? && r.Literal? ==> Pushable(l.name, e.bop, r.value, r.typ) in CollectPushable(condition))
            && (l.Literal? && r.Column? ==>
                  exists q :: q in CollectPushable(condition) && q.column == r.name && Mirrors(k, q, e.bop, l.value))
  {
    if condition.Binary? && condition.bop.And? {
      if e in Conjuncts(condition.left) {
        ComparisonsCollected(k, condition.left, e);
      } else {
        ComparisonsCollected(k, condition.right, e);
      }
    } else {
      assert e == condition;
      var l, r := UnwrapCast(e.left), UnwrapCast(e.right);
      if l.Literal? && r.Column? {
        var q := Pushable(r.name, Flip(e.bop), l.value, l.typ);
        assert CollectPushable(condition) == [q];
        forall v ensures EvalBinary(k, q.op, v, l.value, Boolean) == EvalBinary(k, e.bop, l.value, v, Boolean) {
          FlippedComparison(k, e.bop, l.value, v);
        }
      }
    }
  }

  lemma FlippedComparison(k: Kernels, op: BinaryOp, a: Value, b: Value)
    requires IsComparison(op)
    ensures EvalBinary(k, Flip(op), b, a, Boolean) == EvalBinary(k, op, a, b, Boolean)
  {
    if a.Str? && b.Str? { StringsApart(a.s, b.s); }
  }

  lemma {:induction false} StringsApart(a: string, b: string)
    ensures !(StringLess(a, b) && StringLess(b, a))
  {
    if a != [] && b != [] { StringsApart(a[1..], b[1..]); }
  }

  /** A cast does not hide a column. */
  lemma {:induction false} CastsUnwrapped(e: Expr)
    ensures !UnwrapCast(e).Cast? && Columns(UnwrapCast(e)) == Columns(e)
  {
    if e.Cast? { CastsUnwrapped(e.operand); }
  }
}
