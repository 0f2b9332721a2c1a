/** Compiling bound expressions to the GPU library's expression trees
(src/execution_gpu/expression_compiler.cpp), over one table or over a left and a right table
at once. */
module ExpressionCompiler {
  import opened Expressions

  datatype Side = LeftTable | RightTable

  /** The library's tree: it has no LIKE, CASE, EXTRACT, SUBSTRING, BETWEEN or IS NOT NULL. */
  datatype Ast =
    | Reference(index: nat, side: Side, typ: TypeId)
    | Constant(value: Value)
    | Operation(bop: BinaryOp, left: Ast, right: Ast, typ: TypeId)
    | UnaryOperation(uop: UnaryOp, operand: Ast)
    | Widen(operand: Ast, typ: TypeId)

  function EvalAst(k: Kernels, a: Ast, l: Row, r: Row): Value
  {
    match a
    case Reference(i, side, t) =>
      var row := if side.LeftTable? then l else r;
      if i < |row| then ReadAs(t, row[i]) else Null
    case Constant(v) => v
    case Operation(op, x, y, t) => EvalBinary(k, op, EvalAst(k, x, l, r), EvalAst(k, y, l, r), t)
    case UnaryOperation(op, o) => EvalUnary(k, op, EvalAst(k, o, l, r))
    case Widen(o, t) =>
      var v := EvalAst(k, o, l, r);
      if v.Null? then Null else ReadAs(t, k.cast(t, v))
  }

  /** `compile_column`: in two-table mode the indices below `split` are the left table's. */
  function CompileColumn(i: nat, t: TypeId, split: Option<nat>): Ast
  {
    match split
    case None => Reference(i, LeftTable, t)
    case Some(n) => if i < n then Reference(i, LeftTable, t) else Reference(i - n, RightTable, t)
  }

  predicate WideningCast(t: TypeId) { t.Int64? || t.UInt64? || t.Float64? }

  /** None is the compiler's "not supported" error. */
  function Compile(e: Expr, split: Option<nat>): Option<Ast>
  {
    match e
    case Column(_, i, t) => Some(CompileColumn(i, t, split))
    case Literal(v, _) => Some(Constant(v))
    case Binary(op, x, y, t) =>
      (match (Compile(x, split), Compile(y, split))
       case (Some(a), Some(b)) => Some(Operation(op, a, b, t))
       case _ => None)
    case Unary(op, o, _) =>
      (match Compile(o, split)
       case Some(a) =>
         Some(if op.IsNotNull? then UnaryOperation(Not, UnaryOperation(IsNull, a)) else UnaryOperation(op, a))
       case None => None)
    case Between(s, lo, hi) =>
      (match (Compile(s, split), Compile(lo, split), Compile(hi, split))
       case (Some(v), Some(a), Some(b)) =>
         Some(Operation(And, Operation(GreaterEqual, v, a, Boolean), Operation(LessEqual, v, b, Boolean), Boolean))
       case _ => None)
    case Cast(o, t) =>
      (match Compile(o, split)
       case Some(a) => if WideningCast(t) then Some(Widen(a, t)) else None
       case None => None)
    case Like(_, _, _) => None
    case Case(_, _, _, _) => None
    case Extract(_, _, _) => None
    case Substring(_, _, _, _) => None
  }

  /** The compiled tree means on the pair of rows what the expression means on their
      concatenation, as long as the left row is as wide as the split. */
  lemma {:induction false} CompileTwoTable(k: Kernels, e: Expr, l: Row, r: Row)
    requires Compile(e, Some(|l|)).Some?
    ensures EvalAst(k, Compile(e, Some(|l|)).value, l, r) == Eval(k, e, l + r)
  {
    match e
    case Column(_, i, _) =>
    case Literal(_, _) =>
    case Binary(_, x, y, _) => CompileTwoTable(k, x, l, r); CompileTwoTable(k, y, l, r);
    case Unary(_, o, _) => CompileTwoTable(k, o, l, r);
    case Between(s, lo, hi) => CompileTwoTable(k, s, l, r); CompileTwoTable(k, lo, l, r); CompileTwoTable(k, hi, l, r);
    case Cast(o, _) => CompileTwoTable(k, o, l, r);
  }

  lemma {:induction false} CompileOneTable(k: Kernels, e: Expr, row: Row)
    requires Compile(e, None).Some?
    ensures EvalAst(k, Compile(e, None).value, row, []) == Eval(k, e, row)
  {
    match e
    case Column(_, i, _) =>
    case Literal(_, _) =>
    case Binary(_, x, y, _) => CompileOneTable(k, x, row); CompileOneTable(k, y, row);
    case Unary(_, o, _) => CompileOneTable(k, o, row);
    case Between(s, lo, hi) => CompileOneTable(k, s, row); CompileOneTable(k, lo, row); CompileOneTable(k, hi, row);
    case Cast(o, _) => CompileOneTable(k, o, row);
  }

  // ---------------------------------------------------------------------------
  // What compiles
  // ---------------------------------------------------------------------------

  function Subexpressions(e: Expr): set<Expr>
  {
    {e} +
    match e
    case Column(_, _, _) => {}
    case Literal(_, _) => {}
    case Binary(_, l, r, _) => Subexpressions(l) + Subexpressions(r)
    case Unary(_, o, _) => Subexpressions(o)
    case Cast(o, _) => Subexpressions(o)
    case Between(s, lo, hi) => Subexpressions(s) + Subexpressions(lo) + Subexpressions(hi)
    case Like(s, _, _) => Subexpressions(s)
    case Case(c, r, o, _) => Subexpressions(c) + Subexpressions(r) + Subexpressions(o)
    case Extract(_, o, _) => Subexpressions(o)
    case Substring(o, _, _, _) => Subexpressions(o)
  }

  /** Neither LIKE, CASE, EXTRACT nor SUBSTRING, nor a cast to anything but a 64-bit number. */
  predicate Simple(e: Expr)
  {
    && !e.Like? && !e.Case? && !e.Extract? && !e.Substring?
    && (e.Cast? ==> e.typ == Int64 || e.typ == UInt64 || e.typ == Float64)
  }

  ghost predicate AllSimple(es: set<Expr>)
  {
    forall s :: s in es ==> Simple(s)
  }

  lemma SimpleUnion(a: set<Expr>, b: set<Expr>)
    ensures AllSimple(a + b) <==> AllSimple(a) && AllSimple(b)
  {
    if AllSimple(a + b) {
      assert forall s :: s in a || s in b ==> s in a + b;
    }
  }

  lemma SimpleOne(e: Expr)
    ensures AllSimple({e}) <==> Simple(e)
  {
    assert e in {e};
  }

  /** An expression compiles exactly when all its subexpressions are simple. */
  lemma {:induction false} CompilesExactly(e: Expr, split: Option<nat>)
    ensures Compile(e, split).Some? <==> AllSimple(Subexpressions(e))
  {
    hide AllSimple;
    SimpleOne(e);
    match e
    case Column(_, _, _) =>
      assert Subexpressions(e) == {e};
    case Literal(_, _) =>
      assert Subexpressions(e) == {e};
    case Binary(_, l, r, _) =>
      CompilesExactly(l, split);
      CompilesExactly(r, split);
      SimpleUnion(Subexpressions(l), Subexpressions(r));
      SimpleUnion({e}, Subexpressions(l) + Subexpressions(r));
    case Unary(_, o, _) =>
      CompilesExactly(o, split);
      SimpleUnion({e}, Subexpressions(o));
    case Between(s, lo, hi) =>
      CompilesExactly(s, split);
      CompilesExactly(lo, split);
      CompilesExactly(hi, split);
      SimpleUnion(Subexpressions(s), Subexpressions(lo));
      SimpleUnion(Subexpressions(s) + Subexpressions(lo), Subexpressions(hi));
      SimpleUnion({e}, Subexpressions(s) + Subexpressions(lo) + Subexpressions(hi));
    case Cast(o, _) =>
      CompilesExactly(o, split);
      SimpleUnion({e}, Subexpressions(o));
    case Like(s, _, _) => SimpleUnion({e}, Subexpressions(s));
    case Case(c, r, o, _) => SimpleUnion({e}, Subexpressions(c) + Subexpressions(r) + Subexpressions(o));
    case Extract(_, o, _) => SimpleUnion({e}, Subexpressions(o));
    case Substring(o, _, _, _) => SimpleUnion({e}, Subexpressions(o));
  }
}
