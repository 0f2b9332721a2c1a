/** Bound expressions and their meaning on one row, under SQL's three-valued logic.

What the engine delegates to its execution library (IEEE double arithmetic, casts,
LIKE, EXTRACT, SUBSTRING, sorting, which group keys survive a group-by) is collected in
`Kernels` as arbitrary functions; every theorem holds for all of them. */
module Expressions {

  datatype Option<+T> = None | Some(value: T)

  datatype Value =
    | Null
    | Bool(b: bool)
    | Int(i: int)
    | Double(d: real)
    | Str(s: string)

  type Row = seq<Value>

  datatype TypeId =
    | Boolean | Int32 | Int64 | UInt32 | UInt64 | Float32 | Float64 | String | Date32 | Timestamp

  datatype BinaryOp =
    | Add | Subtract | Multiply | Divide
    | Equal | NotEqual | Less | LessEqual | Greater | GreaterEqual
    | And | Or

  datatype UnaryOp = Not | Negate | IsNull | IsNotNull

  datatype DatePart = Year | Month | Day

  /** A CASE with several WHENs is right-nested: `otherwise` is the remaining WHENs, then
      the ELSE (a NULL literal when the query has none). */
  datatype Expr =
    | Column(name: string, index: nat, typ: TypeId)
    | Literal(value: Value, typ: TypeId)
    | Binary(bop: BinaryOp, left: Expr, right: Expr, typ: TypeId)
    | Unary(uop: UnaryOp, operand: Expr, typ: TypeId)
    | Cast(operand: Expr, typ: TypeId)
    | Between(subject: Expr, lower: Expr, upper: Expr)
    | Like(subject: Expr, pattern: string, negated: bool)
    | Case(condition: Expr, result: Expr, otherwise: Expr, typ: TypeId)
    | Extract(part: DatePart, operand: Expr, typ: TypeId)
    | Substring(operand: Expr, start: int, length: int, typ: TypeId)

  datatype Kernels = Kernels(
    toDouble: int -> real,
    doubleArith: (BinaryOp, real, real) -> real,
    toInt64: real -> int,
    intFault: (BinaryOp, int, int) -> Value,
    negate: Value -> Value,
    cast: (TypeId, Value) -> Value,
    like: (string, string) -> bool,
    extract: (DatePart, int) -> int,
    substring: (string, int, int) -> string,
    sort: (seq<(Row, Row)>, seq<bool>) -> seq<Row>,
    groupKept: Row -> bool
  )

  predicate IsLogical(op: BinaryOp) { op.And? || op.Or? }

  predicate IsArithmetic(op: BinaryOp) { op.Add? || op.Subtract? || op.Multiply? || op.Divide? }

  predicate IsComparison(op: BinaryOp) { !IsLogical(op) && !IsArithmetic(op) }

  predicate IsFloating(t: TypeId) { t.Float32? || t.Float64? }

  function ResultType(e: Expr): TypeId
  {
    match e
    case Between(_, _, _) => Boolean
    case Like(_, _, _) => Boolean
    case _ => e.typ
  }

  // ---------------------------------------------------------------------------
  // Values
  // ---------------------------------------------------------------------------

  const INT64_MIN: int := -0x8000_0000_0000_0000
  const INT64_MAX: int := 0x7FFF_FFFF_FFFF_FFFF

  predicate InInt64(i: int) { INT64_MIN <= i <= INT64_MAX }

  /** Division truncating toward zero. */
  function TruncDiv(x: int, y: int): (q: int)
    requires y != 0
    ensures x >= 0 ==> 0 <= x - q * y && (x - q * y < y || x - q * y < -y)
    ensures x < 0 ==> x - q * y <= 0 && (-(x - q * y) < y || -(x - q * y) < -y)
  {
    if x >= 0 then
      if y > 0 then x / y else -(x / (-y))
    else
      if y > 0 then -((-x) / y) else (-x) / (-y)
  }

  /** The exact result of a 64-bit integer operation, if it exists and fits. */
  function IntArith(op: BinaryOp, x: int, y: int): (r: Option<int>)
    ensures r.Some? && InInt64(x) && InInt64(y) ==> InInt64(r.value)
  {
    match op
    case Add => if InInt64(x + y) then Some(x + y) else None
    case Subtract => if InInt64(x - y) then Some(x - y) else None
    case Multiply => if InInt64(x * y) then Some(x * y) else None
    case Divide => if y == 0 || (x == INT64_MIN && y == -1) || !InInt64(TruncDiv(x, y)) then None
                   else Some(TruncDiv(x, y))
    case _ => None
  }

  predicate IsNumber(v: Value) { v.Int? || v.Double? }

  function AsDouble(k: Kernels, v: Value): real
    requires IsNumber(v)
  {
    if v.Int? then k.toDouble(v.i) else v.d
  }

  function Arith(k: Kernels, op: BinaryOp, a: Value, b: Value, typ: TypeId): Value
  {
    if a.Int? && b.Int? && !IsFloating(typ) then
      match IntArith(op, a.i, b.i)
      case Some(z) => Int(z)
      case None => k.intFault(op, a.i, b.i)
    else if IsNumber(a) && IsNumber(b) then
      var d := k.doubleArith(op, AsDouble(k, a), AsDouble(k, b));
      if IsFloating(typ) then Double(d) else Int(k.toInt64(d))
    else Null
  }

  /** Lexicographic order. */
  predicate StringLess(a: string, b: string)
  {
    b != [] && (a == [] || a[0] < b[0] || (a[0] == b[0] && StringLess(a[1..], b[1..])))
  }

  /** -1, 0 or 1; none when the two values have no common order. */
  function Compare(k: Kernels, a: Value, b: Value): (c: Option<int>)
    ensures c.Some? ==> -1 <= c.value <= 1
  {
    if a.Int? && b.Int? then Some(if a.i < b.i then -1 else if a.i > b.i then 1 else 0)
    else if IsNumber(a) && IsNumber(b) then
      var x, y := AsDouble(k, a), AsDouble(k, b);
      Some(if x < y then -1 else if x > y then 1 else 0)
    else if a.Str? && b.Str? then
      Some(if StringLess(a.s, b.s) then -1 else if StringLess(b.s, a.s) then 1 else 0)
    else if a.Bool? && b.Bool? then Some(if a.b == b.b then 0 else if b.b then -1 else 1)
    else None
  }

  predicate Satisfies(op: BinaryOp, c: int)
  {
    match op
    case Equal => c == 0
    case NotEqual => c != 0
    case Less => c < 0
    case LessEqual => c <= 0
    case Greater => c > 0
    case GreaterEqual => c >= 0
    case _ => false
  }

  function KleeneAnd(a: Value, b: Value): Value
  {
    if a == Bool(false) || b == Bool(false) then Bool(false)
    else if a == Bool(true) && b == Bool(true) then Bool(true)
    else Null
  }

  function KleeneOr(a: Value, b: Value): Value
  {
    if a == Bool(true) || b == Bool(true) then Bool(true)
    else if a == Bool(false) && b == Bool(false) then Bool(false)
    else Null
  }

  function KleeneNot(a: Value): Value
  {
    if a.Bool? then Bool(!a.b) else Null
  }

  /** A Boolean reading never yields a non-Boolean value. */
  function ReadAs(t: TypeId, v: Value): Value
  {
    if t.Boolean? && !v.Bool? then Null else v
  }

  function EvalBinary(k: Kernels, op: BinaryOp, a: Value, b: Value, typ: TypeId): Value
  {
    if op.And? then KleeneAnd(a, b)
    else if op.Or? then KleeneOr(a, b)
    else if IsArithmetic(op) then Arith(k, op, a, b, typ)
    else match Compare(k, a, b)
         case Some(c) => Bool(Satisfies(op, c))
         case None => Null
  }

  function EvalUnary(k: Kernels, op: UnaryOp, a: Value): Value
  {
    match op
    case Not => KleeneNot(a)
    case Negate => if a.Null? then Null else k.negate(a)
    case IsNull => Bool(a.Null?)
    case IsNotNull => Bool(!a.Null?)
  }

  /** The value of `e` on `row`; a column beyond the row's width is NULL. */
  function Eval(k: Kernels, e: Expr, row: Row): Value
  {
    match e
    case Column(_, i, t) => if i < |row| then ReadAs(t, row[i]) else Null
    case Literal(v, _) => v
    case Binary(op, l, r, t) => EvalBinary(k, op, Eval(k, l, row), Eval(k, r, row), t)
    case Unary(op, o, _) => EvalUnary(k, op, Eval(k, o, row))
    case Cast(o, t) =>
      var v := Eval(k, o, row);
      if v.Null? then Null else ReadAs(t, k.cast(t, v))
    case Between(s, lo, hi) =>
      var v := Eval(k, s, row);
      KleeneAnd(EvalBinary(k, GreaterEqual, v, Eval(k, lo, row), Boolean),
                EvalBinary(k, LessEqual, v, Eval(k, hi, row), Boolean))
    case Like(s, pattern, negated) =>
      var v := Eval(k, s, row);
      if v.Str? then Bool(k.like(v.s, pattern) != negated) else Null
    case Case(c, r, o, t) =>
      ReadAs(t, if Eval(k, c, row) == Bool(true) then Eval(k, r, row) else Eval(k, o, row))
    case Extract(part, o, _) =>
      var v := Eval(k, o, row);
      if v.Int? then Int(k.extract(part, v.i)) else Null
    case Substring(o, start, length, _) =>
      var v := Eval(k, o, row);
      if v.Str? then Str(k.substring(v.s, start - 1, length)) else Null
  }

  /** A WHERE keeps a row exactly when its predicate is TRUE, not merely not FALSE. */
  predicate Holds(k: Kernels, e: Expr, row: Row)
  {
    Eval(k, e, row) == Bool(true)
  }

  // ---------------------------------------------------------------------------
  // The binder's typing guarantees
  // ---------------------------------------------------------------------------

  predicate LiteralTyped(v: Value, t: TypeId)
  {
    match v
    case Null => true
    case Bool(_) => t.Boolean?
    case Double(_) => IsFloating(t)
    case Str(_) => t.String?
    case Int(_) => !t.Boolean? && !IsFloating(t) && !t.String?
  }

  predicate BinaryTyped(op: BinaryOp, l: Expr, r: Expr, t: TypeId)
  {
    if IsLogical(op) then t.Boolean? && ResultType(l).Boolean? && ResultType(r).Boolean?
    else if IsComparison(op) then t.Boolean?
    else !t.Boolean? && (IsFloating(t) ==> IsFloating(ResultType(l)) && IsFloating(ResultType(r)))
  }

  /** What the binder establishes of every expression it hands to the optimizer: AND, OR
      and NOT have Boolean operands, and arithmetic of floating type has operands already
      cast to floating type. */
  predicate WellTyped(e: Expr)
  {
    match e
    case Column(_, _, _) => true
    case Literal(v, t) => LiteralTyped(v, t)
    case Binary(op, l, r, t) => WellTyped(l) && WellTyped(r) && BinaryTyped(op, l, r, t)
    case Unary(op, o, t) =>
      WellTyped(o) &&
      (match op
       case Not => t.Boolean? && ResultType(o).Boolean?
       case Negate => !t.Boolean?
       case _ => t.Boolean?)
    case Cast(o, _) => WellTyped(o)
    case Between(s, lo, hi) => WellTyped(s) && WellTyped(lo) && WellTyped(hi)
    case Like(s, _, _) => WellTyped(s)
    case Case(c, r, o, _) => WellTyped(c) && WellTyped(r) && WellTyped(o)
    case Extract(_, o, t) => WellTyped(o) && !t.Boolean?
    case Substring(o, _, _, t) => WellTyped(o) && !t.Boolean?
  }

  /** A well-typed Boolean expression is TRUE, FALSE or NULL on every row. */
  lemma BooleanValued(k: Kernels, e: Expr, row: Row)
    requires WellTyped(e) && ResultType(e).Boolean?
    ensures Eval(k, e, row).Bool? || Eval(k, e, row).Null?
  {
  }

  // ---------------------------------------------------------------------------
  // Columns an expression reads
  // ---------------------------------------------------------------------------

  function Columns(e: Expr): set<nat>
  {
    match e
    case Column(_, i, _) => {i}
    case Literal(_, _) => {}
    case Binary(_, l, r, _) => Columns(l) + Columns(r)
    case Unary(_, o, _) => Columns(o)
    case Cast(o, _) => Columns(o)
    case Between(s, lo, hi) => Columns(s) + Columns(lo) + Columns(hi)
    case Like(s, _, _) => Columns(s)
    case Case(c, r, o, _) => Columns(c) + Columns(r) + Columns(o)
    case Extract(_, o, _) => Columns(o)
    case Substring(o, _, _, _) => Columns(o)
  }

  /** `b` holds at each renamed position what `a` holds at the original one. */
  ghost predicate Carries(cols: set<nat>, rename: nat -> Option<nat>, a: Row, b: Row)
  {
    forall i :: i in cols && rename(i).Some? ==>
      (i < |a| <==> rename(i).value < |b|) && (i < |a| ==> a[i] == b[rename(i).value])
  }

  ghost predicate AgreeOn(cols: set<nat>, a: Row, b: Row)
  {
    forall i :: i in cols ==> (i < |a| <==> i < |b|) && (i < |a| ==> a[i] == b[i])
  }

  /** `Columns` is everything an expression can depend on. */
  lemma {:induction false} EvalDependsOnColumns(k: Kernels, e: Expr, cols: set<nat>, a: Row, b: Row)
    requires Columns(e) <= cols && AgreeOn(cols, a, b)
    ensures Eval(k, e, a) == Eval(k, e, b)
  {
    match e
    case Column(_, i, _) => assert i in cols;
    case Literal(_, _) =>
    case Binary(_, l, r, _) => EvalDependsOnColumns(k, l, cols, a, b); EvalDependsOnColumns(k, r, cols, a, b);
    case Unary(_, o, _) => EvalDependsOnColumns(k, o, cols, a, b);
    case Cast(o, _) => EvalDependsOnColumns(k, o, cols, a, b);
    case Between(s, lo, hi) =>
      EvalDependsOnColumns(k, s, cols, a, b);
      EvalDependsOnColumns(k, lo, cols, a, b);
      EvalDependsOnColumns(k, hi, cols, a, b);
    case Like(s, _, _) => EvalDependsOnColumns(k, s, cols, a, b);
    case Case(c, r, o, _) =>
      EvalDependsOnColumns(k, c, cols, a, b);
      EvalDependsOnColumns(k, r, cols, a, b);
      EvalDependsOnColumns(k, o, cols, a, b);
    case Extract(_, o, _) => EvalDependsOnColumns(k, o, cols, a, b);
    case Substring(o, _, _, _) => EvalDependsOnColumns(k, o, cols, a, b);
  }

  // ---------------------------------------------------------------------------
  // Renaming columns
  // ---------------------------------------------------------------------------

  /** `e` with every column index replaced through `rename`; nothing if some column has no
      image. The shared walk behind every index rewrite in the engine. */
  function Rename(e: Expr, rename: nat -> Option<nat>): Option<Expr>
  {
    match e
    case Column(n, i, t) =>
      (match rename(i)
       case Some(j) => Some(Column(n, j, t))
       case None => None)
    case Literal(_, _) => Some(e)
    case Binary(op, l, r, t) =>
      (match (Rename(l, rename), Rename(r, rename))
       case (Some(l'), Some(r')) => Some(Binary(op, l', r', t))
       case _ => None)
    case Unary(op, o, t) =>
      (match Rename(o, rename)
       case Some(o') => Some(Unary(op, o', t))
       case None => None)
    case Cast(o, t) =>
      (match Rename(o, rename)
       case Some(o') => Some(Cast(o', t))
       case None => None)
    case Between(s, lo, hi) =>
      (match (Rename(s, rename), Rename(lo, rename), Rename(hi, rename))
       case (Some(s'), Some(lo'), Some(hi')) => Some(Between(s', lo', hi'))
       case _ => None)
    case Like(s, p, n) =>
      (match Rename(s, rename)
       case Some(s') => Some(Like(s', p, n))
       case None => None)
    case Case(c, r, o, t) =>
      (match (Rename(c, rename), Rename(r, rename), Rename(o, rename))
       case (Some(c'), Some(r'), Some(o')) => Some(Case(c', r', o', t))
       case _ => None)
    case Extract(p, o, t) =>
      (match Rename(o, rename)
       case Some(o') => Some(Extract(p, o', t))
       case None => None)
    case Substring(o, st, len, t) =>
      (match Rename(o, rename)
       case Some(o') => Some(Substring(o', st, len, t))
       case None => None)
  }

  /** Renaming fails exactly when some column that is read has no image. */
  lemma RenameDefined(e: Expr, rename: nat -> Option<nat>)
    ensures Rename(e, rename).Some? <==> forall i :: i in Columns(e) ==> rename(i).Some?
  {
  }

  /** If `b` carries the columns of `a`, the renamed expression means on `b` what the original
      means on `a`. */
  lemma {:induction false} RenamePreserves(k: Kernels, e: Expr, cols: set<nat>, rename: nat -> Option<nat>,
                                           a: Row, b: Row)
    requires Rename(e, rename).Some?
    requires Columns(e) <= cols && Carries(cols, rename, a, b)
    ensures Eval(k, Rename(e, rename).value, b) == Eval(k, e, a)
  {
    match e
    case Column(_, i, _) => assert i in cols;
    case Literal(_, _) =>
    case Binary(_, l, r, _) => RenamePreserves(k, l, cols, rename, a, b); RenamePreserves(k, r, cols, rename, a, b);
    case Unary(_, o, _) => RenamePreserves(k, o, cols, rename, a, b);
    case Cast(o, _) => RenamePreserves(k, o, cols, rename, a, b);
    case Between(s, lo, hi) =>
      RenamePreserves(k, s, cols, rename, a, b);
      RenamePreserves(k, lo, cols, rename, a, b);
      RenamePreserves(k, hi, cols, rename, a, b);
    case Like(s, _, _) => RenamePreserves(k, s, cols, rename, a, b);
    case Case(c, r, o, _) =>
      RenamePreserves(k, c, cols, rename, a, b);
      RenamePreserves(k, r, cols, rename, a, b);
      RenamePreserves(k, o, cols, rename, a, b);
    case Extract(_, o, _) => RenamePreserves(k, o, cols, rename, a, b);
    case Substring(o, _, _, _) => RenamePreserves(k, o, cols, rename, a, b);
  }

  lemma {:induction false} RenameTyped(e: Expr, rename: nat -> Option<nat>)
    requires Rename(e, rename).Some?
    ensures ResultType(Rename(e, rename).value) == ResultType(e)
    ensures WellTyped(e) ==> WellTyped(Rename(e, rename).value)
  {
    match e
    case Column(_, _, _) =>
    case Literal(_, _) =>
    case Binary(_, l, r, _) => RenameTyped(l, rename); RenameTyped(r, rename);
    case Unary(_, o, _) => RenameTyped(o, rename);
    case Cast(o, _) => RenameTyped(o, rename);
    case Between(s, lo, hi) => RenameTyped(s, rename); RenameTyped(lo, rename); RenameTyped(hi, rename);
    case Like(s, _, _) => RenameTyped(s, rename);
    case Case(c, r, o, _) => RenameTyped(c, rename); RenameTyped(r, rename); RenameTyped(o, rename);
    case Extract(_, o, _) => RenameTyped(o, rename);
    case Substring(o, _, _, _) => RenameTyped(o, rename);
  }
}
