/** Expression rules of the optimizer (src/optimizer/optimizer.cpp): constant folding,
Boolean simplification and BETWEEN expansion, proved to keep the value of every
well-typed expression on every row. */
module Simplifier {
  import opened Expressions

  function BoolLiteral(b: bool): Expr
  {
    Literal(Bool(b), Boolean)
  }

  function FoldLogical(op: BinaryOp, l: Expr, r: Expr, t: TypeId): Expr
    requires IsLogical(op)
  {
    if l.Literal? && l.value.Bool? then
      if op.And? then (if l.value.b then r else BoolLiteral(false))
      else (if l.value.b then BoolLiteral(true) else r)
    else if r.Literal? && r.value.Bool? then
      if op.And? then (if r.value.b then l else BoolLiteral(false))
      else (if r.value.b then BoolLiteral(true) else l)
    else Binary(op, l, r, t)
  }

  /** Two int64 literals: exact integer folding, left alone when it would overflow. */
  function FoldIntegers(k: Kernels, op: BinaryOp, x: int, y: int, t: TypeId): Option<Expr>
    requires !IsLogical(op)
  {
    if IsArithmetic(op) then
      match IntArith(op, x, y)
      case Some(z) =>
        Some(if IsFloating(t) then Literal(Double(k.toDouble(z)), Float64) else Literal(Int(z), Int64))
      case None => None
    else
      Some(BoolLiteral(Satisfies(op, if x < y then -1 else if x > y then 1 else 0)))
  }

  function FoldDoubles(k: Kernels, op: BinaryOp, x: real, y: real, t: TypeId): Option<Expr>
    requires !IsLogical(op)
  {
    if IsArithmetic(op) then
      if op.Divide? && y == 0.0 then None
      else
        var d := k.doubleArith(op, x, y);
        Some(if IsFloating(t) then Literal(Double(d), Float64) else Literal(Int(k.toInt64(d)), Int64))
    else
      Some(BoolLiteral(Satisfies(op, if x < y then -1 else if x > y then 1 else 0)))
  }

  /** One binary node over operands that are already simplified. */
  function FoldBinary(k: Kernels, op: BinaryOp, l: Expr, r: Expr, t: TypeId): Expr
  {
    if IsLogical(op) then FoldLogical(op, l, r, t)
    else if l.Literal? && r.Literal? then
      var folded :=
        if l.value.Int? && r.value.Int? then FoldIntegers(k, op, l.value.i, r.value.i, t)
        else if IsNumber(l.value) && IsNumber(r.value) then
          FoldDoubles(k, op, AsDouble(k, l.value), AsDouble(k, r.value), t)
        else None;
      if folded.Some? then folded.value else Binary(op, l, r, t)
    else Binary(op, l, r, t)
  }

  function FoldUnary(op: UnaryOp, o: Expr, t: TypeId): Expr
  {
    if op.Not? && o.Literal? && o.value.Bool? then BoolLiteral(!o.value.b)
    else if op.Not? && o.Unary? && o.uop.Not? then o.operand
    else Unary(op, o, t)
  }

  function BetweenCount(e: Expr): nat
  {
    match e
    case Column(_, _, _) => 0
    case Literal(_, _) => 0
    case Binary(_, l, r, _) => BetweenCount(l) + BetweenCount(r)
    case Unary(_, o, _) => BetweenCount(o)
    case Cast(o, _) => BetweenCount(o)
    case Between(s, lo, hi) => 1 + BetweenCount(s) + BetweenCount(lo) + BetweenCount(hi)
    case Like(s, _, _) => BetweenCount(s)
    case Case(c, r, o, _) => BetweenCount(c) + BetweenCount(r) + BetweenCount(o)
    case Extract(_, o, _) => BetweenCount(o)
    case Substring(o, _, _, _) => BetweenCount(o)
  }

  /** `s >= lo AND s <= hi`, what a BETWEEN is expanded to. */
  function Expansion(s: Expr, lo: Expr, hi: Expr): Expr
  {
    Binary(And, Binary(GreaterEqual, s, lo, Boolean), Binary(LessEqual, s, hi, Boolean), Boolean)
  }

  lemma ExpansionCount(s: Expr, lo: Expr, hi: Expr)
    ensures BetweenCount(Expansion(s, lo, hi)) == 2 * BetweenCount(s) + BetweenCount(lo) + BetweenCount(hi)
  {
    assert BetweenCount(Binary(GreaterEqual, s, lo, Boolean)) == BetweenCount(s) + BetweenCount(lo);
    assert BetweenCount(Binary(LessEqual, s, hi, Boolean)) == BetweenCount(s) + BetweenCount(hi);
  }

  /** Bottom-up simplification. A BETWEEN is expanded over its simplified operands and the
      expansion is simplified again, which terminates because a simplified expression has
      no BETWEEN left in it. */
  function Simplify(k: Kernels, e: Expr): (r: Expr)
    ensures BetweenCount(r) == 0
    decreases BetweenCount(e), e
  {
    match e
    case Between(s, lo, hi) =>
      var s', lo', hi' := Simplify(k, s), Simplify(k, lo), Simplify(k, hi);
      ExpansionCount(s', lo', hi');
      Simplify(k, Expansion(s', lo', hi'))
    case Unary(op, o, t) => FoldUnary(op, Simplify(k, o), t)
    case Binary(op, l, r, t) => FoldBinary(k, op, Simplify(k, l), Simplify(k, r), t)
    case Cast(o, t) => Cast(Simplify(k, o), t)
    case Like(s, p, n) => Like(Simplify(k, s), p, n)
    case Case(c, r, o, t) => Case(Simplify(k, c), Simplify(k, r), Simplify(k, o), t)
    case Extract(p, o, t) => Extract(p, Simplify(k, o), t)
    case Substring(o, st, len, t) => Substring(Simplify(k, o), st, len, t)
    case Column(_, _, _) => e
    case Literal(_, _) => e
  }

  // ---------------------------------------------------------------------------
  // Meaning
  // ---------------------------------------------------------------------------

  /** A well-typed replacement that the surrounding expression accepts as before. */
  predicate Replaces(a: Expr, b: Expr)
  {
    && WellTyped(a)
    && (ResultType(a).Boolean? <==> ResultType(b).Boolean?)
    && (IsFloating(ResultType(a)) <==> IsFloating(ResultType(b)))
  }

  lemma FoldBinaryTyped(k: Kernels, op: BinaryOp, l: Expr, r: Expr, t: TypeId)
    requires WellTyped(Binary(op, l, r, t))
    ensures Replaces(FoldBinary(k, op, l, r, t), Binary(op, l, r, t))
  {
  }

  lemma FoldBinaryPreserves(k: Kernels, op: BinaryOp, l: Expr, r: Expr, t: TypeId, row: Row)
    requires WellTyped(Binary(op, l, r, t))
    ensures Eval(k, FoldBinary(k, op, l, r, t), row) == Eval(k, Binary(op, l, r, t), row)
  {
    if IsLogical(op) {
      BooleanValued(k, l, row);
      BooleanValued(k, r, row);
    }
  }

  lemma FoldUnaryTyped(op: UnaryOp, o: Expr, t: TypeId)
    requires WellTyped(Unary(op, o, t))
    ensures Replaces(FoldUnary(op, o, t), Unary(op, o, t))
  {
  }

  lemma FoldUnaryPreserves(k: Kernels, op: UnaryOp, o: Expr, t: TypeId, row: Row)
    requires WellTyped(Unary(op, o, t))
    ensures Replaces(FoldUnary(op, o, t), Unary(op, o, t))
    ensures Eval(k, FoldUnary(op, o, t), row) == Eval(k, Unary(op, o, t), row)
  {
    if op.Not? && o.Unary? && o.uop.Not? {
      BooleanValued(k, o.operand, row);
    }
  }

  lemma ExpansionPreserves(k: Kernels, s: Expr, lo: Expr, hi: Expr, row: Row)
    ensures Eval(k, Expansion(s, lo, hi), row) == Eval(k, Between(s, lo, hi), row)
  {
    assert Eval(k, Binary(GreaterEqual, s, lo, Boolean), row)
        == EvalBinary(k, GreaterEqual, Eval(k, s, row), Eval(k, lo, row), Boolean);
    assert Eval(k, Binary(LessEqual, s, hi, Boolean), row)
        == EvalBinary(k, LessEqual, Eval(k, s, row), Eval(k, hi, row), Boolean);
  }

  lemma {:induction false} SimplifyTyped(k: Kernels, e: Expr)
    requires WellTyped(e)
    ensures Replaces(Simplify(k, e), e)
    decreases BetweenCount(e), e
  {
    hide FoldBinary, FoldUnary;
    match e
    case Between(s, lo, hi) =>
      SimplifyTyped(k, s);
      SimplifyTyped(k, lo);
      SimplifyTyped(k, hi);
      ExpansionCount(Simplify(k, s), Simplify(k, lo), Simplify(k, hi));
      ExpansionTyped(Simplify(k, s), Simplify(k, lo), Simplify(k, hi));
      SimplifyTyped(k, Expansion(Simplify(k, s), Simplify(k, lo), Simplify(k, hi)));
    case Unary(op, o, t) =>
      SimplifyTyped(k, o);
      FoldUnaryTyped(op, Simplify(k, o), t);
    case Binary(op, l, r, t) =>
      SimplifyTyped(k, l);
      SimplifyTyped(k, r);
      FoldBinaryTyped(k, op, Simplify(k, l), Simplify(k, r), t);
    case Cast(o, _) => SimplifyTyped(k, o);
    case Like(s, _, _) => SimplifyTyped(k, s);
    case Case(c, r, o, _) => SimplifyTyped(k, c); SimplifyTyped(k, r); SimplifyTyped(k, o);
    case Extract(_, o, _) => SimplifyTyped(k, o);
    case Substring(o, _, _, _) => SimplifyTyped(k, o);
    case Column(_, _, _) =>
    case Literal(_, _) =>
  }

  lemma ExpansionTyped(s: Expr, lo: Expr, hi: Expr)
    requires WellTyped(s) && WellTyped(lo) && WellTyped(hi)
    ensures WellTyped(Expansion(s, lo, hi))
  {
    assert WellTyped(Binary(GreaterEqual, s, lo, Boolean));
    assert WellTyped(Binary(LessEqual, s, hi, Boolean));
  }

  lemma SimplifyBetween(k: Kernels, s: Expr, lo: Expr, hi: Expr)
    requires WellTyped(Between(s, lo, hi))
    ensures var expansion := Expansion(Simplify(k, s), Simplify(k, lo), Simplify(k, hi));
            WellTyped(expansion) && BetweenCount(expansion) == 0
  {
    SimplifyTyped(k, s);
    SimplifyTyped(k, lo);
    SimplifyTyped(k, hi);
    var s', lo', hi' := Simplify(k, s), Simplify(k, lo), Simplify(k, hi);
    ExpansionTyped(s', lo', hi');
    ExpansionCount(s', lo', hi');
  }

  /** Simplification keeps the value of every well-typed expression on every row. */
  lemma {:induction false} SimplifyPreserves(k: Kernels, e: Expr, row: Row)
    requires WellTyped(e)
    ensures Eval(k, Simplify(k, e), row) == Eval(k, e, row)
    decreases BetweenCount(e), e
  {
    match e
    case Between(s, lo, hi) =>
      SimplifyPreserves(k, s, row);
      SimplifyPreserves(k, lo, row);
      SimplifyPreserves(k, hi, row);
      SimplifyBetween(k, s, lo, hi);
      ExpansionPreserves(k, Simplify(k, s), Simplify(k, lo), Simplify(k, hi), row);
      SimplifyPreserves(k, Expansion(Simplify(k, s), Simplify(k, lo), Simplify(k, hi)), row);
    case Unary(op, o, t) =>
      SimplifyPreserves(k, o, row);
      SimplifyTyped(k, o);
      FoldUnaryPreserves(k, op, Simplify(k, o), t, row);
    case Binary(op, l, r, t) =>
      SimplifyPreserves(k, l, row);
      SimplifyPreserves(k, r, row);
      SimplifyTyped(k, l);
      SimplifyTyped(k, r);
      FoldBinaryPreserves(k, op, Simplify(k, l), Simplify(k, r), t, row);
    case Cast(o, _) => SimplifyPreserves(k, o, row);
    case Like(s, _, _) => SimplifyPreserves(k, s, row);
    case Case(c, r, o, _) =>
      SimplifyPreserves(k, c, row);
      SimplifyPreserves(k, r, row);
      SimplifyPreserves(k, o, row);
    case Extract(_, o, _) => SimplifyPreserves(k, o, row);
    case Substring(o, _, _, _) => SimplifyPreserves(k, o, row);
    case Column(_, _, _) =>
    case Literal(_, _) =>
  }

  // ---------------------------------------------------------------------------
  // Why operands of floating arithmetic must already be floating
  // ---------------------------------------------------------------------------

  function ExactArith(op: BinaryOp, x: real, y: real): real
  {
    match op
    case Add => x + y
    case Subtract => x - y
    case Multiply => x * y
    case Divide => if y == 0.0 then 0.0 else x / y
    case _ => 0.0
  }

  /** Double arithmetic without rounding. */
  ghost predicate ExactDoubles(k: Kernels)
  {
    && (forall i :: k.toDouble(i) == i as real)
    && (forall op, x, y :: k.doubleArith(op, x, y) == ExactArith(op, x, y))
  }

  lemma DivisionExact(q: int, x: int, y: int)
    requires y != 0
    ensures q as real == x as real / y as real <==> q * y == x
  {
    var product := q as real * y as real;
    assert product == (q * y) as real;
    assert q as real == x as real / y as real <==> product == x as real by {
      var d := x as real / y as real;
      assert d * y as real == x as real;
      if product == x as real {
        assert (q as real - d) * y as real == 0.0;
      }
    }
  }

  lemma IntegerFoldExact(op: BinaryOp, x: int, y: int)
    requires IsArithmetic(op) && IntArith(op, x, y).Some?
    ensures IntArith(op, x, y).value as real == ExactArith(op, x as real, y as real) <==>
            (op.Divide? ==> TruncDiv(x, y) * y == x)
  {
    match op
    case Multiply => assert (x * y) as real == x as real * y as real;
    case Divide => DivisionExact(TruncDiv(x, y), x, y);
    case _ =>
  }

  /** Two integer literals under a node of floating type are folded as integers. Even with
      exact doubles this keeps the value exactly when a foldable division has no remainder. */
  lemma IntegerFoldUnderFloatType(k: Kernels, op: BinaryOp, x: int, y: int, row: Row)
    requires ExactDoubles(k) && IsArithmetic(op)
    ensures var e := Binary(op, Literal(Int(x), Int64), Literal(Int(y), Int64), Float64);
            Eval(k, Simplify(k, e), row) == Eval(k, e, row) <==>
            (op.Divide? && IntArith(op, x, y).Some? ==> TruncDiv(x, y) * y == x)
  {
    var e := Binary(op, Literal(Int(x), Int64), Literal(Int(y), Int64), Float64);
    assert Simplify(k, e.left) == e.left && Simplify(k, e.right) == e.right;
    assert Eval(k, e.left, row) == Int(x) && Eval(k, e.right, row) == Int(y);
    assert Eval(k, e, row) == Double(ExactArith(op, x as real, y as real));
    if IntArith(op, x, y).Some? {
      IntegerFoldExact(op, x, y);
    }
  }
}
