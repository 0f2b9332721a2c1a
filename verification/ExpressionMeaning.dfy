/** What SQL's operators are on numbers, strings, truth values and NULL, and what WHERE keeps. */
module ExpressionMeaning {
  import opened Expressions
  import opened Relational
  import opened Aggregation
  import opened LogicalPlans
  import opened Simplifier
  import opened Calendar

  // ---------------------------------------------------------------------------
  // Three-valued logic
  // ---------------------------------------------------------------------------

  predicate Logical(v: Value)
  {
    v.Bool? || v.Null?
  }

  /** FALSE, unknown and TRUE on a scale from 0 to 2. */
  function Truth(v: Value): int
    requires Logical(v)
  {
    if v.Null? then 1 else if v.b then 2 else 0
  }

  function Lower(x: int, y: int): int { if x < y then x else y }

  function Higher(x: int, y: int): int { if x < y then y else x }

  /** AND is the lower, OR the higher of two truth values; NOT turns the scale around. */
  lemma LogicOnScale(k: Kernels, a: Value, b: Value, t: TypeId)
    requires Logical(a) && Logical(b)
    ensures Logical(EvalBinary(k, And, a, b, t)) && Truth(EvalBinary(k, And, a, b, t)) == Lower(Truth(a), Truth(b))
    ensures Logical(EvalBinary(k, Or, a, b, t)) && Truth(EvalBinary(k, Or, a, b, t)) == Higher(Truth(a), Truth(b))
    ensures Logical(EvalUnary(k, Not, a)) && Truth(EvalUnary(k, Not, a)) == 2 - Truth(a)
  {
  }

  // ---------------------------------------------------------------------------
  // Comparisons
  // ---------------------------------------------------------------------------

  /** `op` holds between two things that compare as `less` and `equal` say. */
  predicate Relates(op: BinaryOp, less: bool, equal: bool)
  {
    match op
    case Equal => equal
    case NotEqual => !equal
    case Less => less
    case LessEqual => less || equal
    case Greater => !less && !equal
    case GreaterEqual => !less
    case _ => false
  }

  lemma IntegersCompare(k: Kernels, op: BinaryOp, x: int, y: int, t: TypeId)
    requires IsComparison(op)
    ensures EvalBinary(k, op, Int(x), Int(y), t) == Bool(Relates(op, x < y, x == y))
  {
  }

  lemma DoublesCompare(k: Kernels, op: BinaryOp, x: real, y: real, t: TypeId)
    requires IsComparison(op)
    ensures EvalBinary(k, op, Double(x), Double(y), t) == Bool(Relates(op, x < y, x == y))
  {
  }

  /** FALSE comes before TRUE. */
  lemma TruthsCompare(k: Kernels, op: BinaryOp, x: bool, y: bool, t: TypeId)
    requires IsComparison(op)
    ensures EvalBinary(k, op, Bool(x), Bool(y), t) == Bool(Relates(op, !x && y, x == y))
  {
  }

  /** A mixed comparison converts the integer. */
  lemma MixedCompare(k: Kernels, op: BinaryOp, x: int, y: real, t: TypeId)
    requires IsComparison(op)
    ensures EvalBinary(k, op, Int(x), Double(y), t) == Bool(Relates(op, k.toDouble(x) < y, k.toDouble(x) == y))
    ensures EvalBinary(k, op, Double(y), Int(x), t) == Bool(Relates(op, y < k.toDouble(x), y == k.toDouble(x)))
  {
  }

  /** `a` comes before `b` in a dictionary: they agree up to some place, where `a` ends or has the
      smaller character. */
  ghost predicate DictionaryBefore(a: string, b: string)
  {
    exists n :: 0 <= n <= |a| && n < |b| && a[..n] == b[..n] && (n == |a| || a[n] < b[n])
  }

  lemma {:induction false} StringLessIsDictionary(a: string, b: string)
    ensures StringLess(a, b) <==> DictionaryBefore(a, b)
  {
    if a == [] || b == [] {
      if b != [] { assert a[..0] == b[..0]; }
    } else if a[0] != b[0] {
      assert a[..0] == b[..0];
      forall n | 0 < n <= |a| && n < |b| ensures a[..n] != b[..n] {
        assert a[..n][0] != b[..n][0];
      }
    } else {
      StringLessIsDictionary(a[1..], b[1..]);
      forall n | 0 <= n < |a| && n < |b| - 1 ensures a[..n + 1] == b[..n + 1] <==> a[1..][..n] == b[1..][..n] {
        assert a[..n + 1] == [a[0]] + a[1..][..n] && b[..n + 1] == [b[0]] + b[1..][..n];
      }
      DictionaryStep(a, b);
    }
  }

  lemma DictionaryStep(a: string, b: string)
    requires a != [] && b != [] && a[0] == b[0]
    ensures DictionaryBefore(a, b) <==> DictionaryBefore(a[1..], b[1..])
  {
    if DictionaryBefore(a, b) {
      var n :| 0 <= n <= |a| && n < |b| && a[..n] == b[..n] && (n == |a| || a[n] < b[n]);
      assert n > 0;
      assert a[1..][..n - 1] == a[..n][1..] && b[1..][..n - 1] == b[..n][1..];
      assert n < |a| ==> a[1..][n - 1] == a[n] && b[1..][n - 1] == b[n];
    }
    if DictionaryBefore(a[1..], b[1..]) {
      var n :| 0 <= n <= |a[1..]| && n < |b[1..]| && a[1..][..n] == b[1..][..n] && (n == |a[1..]| || a[1..][n] < b[1..][n]);
      assert a[..n + 1] == [a[0]] + a[1..][..n] && b[..n + 1] == [b[0]] + b[1..][..n];
      assert 0 <= n + 1 <= |a| && n + 1 < |b|;
    }
  }

  lemma StringsCompare(k: Kernels, op: BinaryOp, a: string, b: string, t: TypeId)
    requires IsComparison(op)
    ensures EvalBinary(k, op, Str(a), Str(b), t) == Bool(Relates(op, DictionaryBefore(a, b), a == b))
  {
    StringLessIsDictionary(a, b);
    StringLessIsDictionary(b, a);
    StringLessTotal(a, b);
  }

  /** NULL compares with nothing. */
  lemma NullCompares(k: Kernels, op: BinaryOp, a: Value, b: Value, t: TypeId)
    requires !IsLogical(op) && (a.Null? || b.Null?)
    ensures EvalBinary(k, op, a, b, t) == Null
  {
  }

  // ---------------------------------------------------------------------------
  // Arithmetic
  // ---------------------------------------------------------------------------

  function Signed(x: int): int { if x < 0 then -1 else if x > 0 then 1 else 0 }

  function Magnitude(x: int): nat { if x < 0 then -x else x }

  lemma SixtyFourBits(x: int)
    ensures InInt64(x) <==> -9_223_372_036_854_775_808 <= x <= 9_223_372_036_854_775_807
  {
  }

  /** Integer arithmetic is exact where the result fits 64 bits; division leaves a remainder smaller
      than the divisor and of the dividend's sign. */
  lemma IntegersCalculate(k: Kernels, x: int, y: int, t: TypeId)
    requires !IsFloating(t)
    ensures InInt64(x + y) ==> EvalBinary(k, Add, Int(x), Int(y), t) == Int(x + y)
    ensures InInt64(x - y) ==> EvalBinary(k, Subtract, Int(x), Int(y), t) == Int(x - y)
    ensures InInt64(x * y) ==> EvalBinary(k, Multiply, Int(x), Int(y), t) == Int(x * y)
    ensures y != 0 && InInt64(x) && InInt64(y) && !(x == INT64_MIN && y == -1) ==>
      var q := EvalBinary(k, Divide, Int(x), Int(y), t);
      q.Int? && Magnitude(x - q.i * y) < Magnitude(y) && (x == q.i * y || Signed(x - q.i * y) == Signed(x))
  {
    if y != 0 && InInt64(x) && InInt64(y) && !(x == INT64_MIN && y == -1) {
      QuotientFits(x, y);
    }
  }

  lemma NaturalQuotient(n: nat, d: nat)
    requires d > 0
    ensures 0 <= n / d <= n && (d >= 2 ==> 2 * (n / d) <= n)
  {
    var q := n / d;
    assert n == d * q + n % d;
    assert d >= 2 ==> d * q >= 2 * q;
  }

  lemma QuotientFits(x: int, y: int)
    requires y != 0 && InInt64(x) && InInt64(y) && !(x == INT64_MIN && y == -1)
    ensures InInt64(TruncDiv(x, y))
  {
    NaturalQuotient(Magnitude(x), Magnitude(y));
    assert Magnitude(TruncDiv(x, y)) == Magnitude(x) / Magnitude(y);
  }

  lemma DoublesCalculate(k: Kernels, x: real, y: real)
    requires ExactDoubles(k)
    ensures EvalBinary(k, Add, Double(x), Double(y), Float64) == Double(x + y)
    ensures EvalBinary(k, Subtract, Double(x), Double(y), Float64) == Double(x - y)
    ensures EvalBinary(k, Multiply, Double(x), Double(y), Float64) == Double(x * y)
    ensures y != 0.0 ==> EvalBinary(k, Divide, Double(x), Double(y), Float64) == Double(x / y)
  {
  }

  // ---------------------------------------------------------------------------
  // Other expressions
  // ---------------------------------------------------------------------------

  lemma BetweenUnfolds(k: Kernels, s: Expr, lo: Expr, hi: Expr, row: Row)
    ensures var v := Eval(k, s, row);
            Eval(k, Between(s, lo, hi), row)
            == KleeneAnd(EvalBinary(k, GreaterEqual, v, Eval(k, lo, row), Boolean),
                         EvalBinary(k, LessEqual, v, Eval(k, hi, row), Boolean))
  {
    hide EvalBinary, KleeneAnd;
  }

  /** BETWEEN includes both ends. */
  lemma BetweenMeans(k: Kernels, s: Expr, lo: Expr, hi: Expr, row: Row)
    requires Eval(k, s, row).Int? && Eval(k, lo, row).Int? && Eval(k, hi, row).Int?
    ensures Eval(k, Between(s, lo, hi), row) == Bool(Eval(k, lo, row).i <= Eval(k, s, row).i <= Eval(k, hi, row).i)
  {
    hide Eval, EvalBinary;
    BetweenUnfolds(k, s, lo, hi, row);
    IntegersCompare(k, GreaterEqual, Eval(k, s, row).i, Eval(k, lo, row).i, Boolean);
    IntegersCompare(k, LessEqual, Eval(k, s, row).i, Eval(k, hi, row).i, Boolean);
  }

  /** NOT LIKE is the opposite of LIKE, and both are unknown on NULL. */
  lemma LikeMeans(k: Kernels, s: Expr, pattern: string, row: Row)
    ensures Eval(k, s, row).Str? ==> Eval(k, Like(s, pattern, false), row) == Bool(k.like(Eval(k, s, row).s, pattern))
    ensures Eval(k, Like(s, pattern, true), row) == Eval(k, Unary(Not, Like(s, pattern, false), Boolean), row)
    ensures Eval(k, s, row).Null? ==> Eval(k, Like(s, pattern, false), row) == Null
  {
  }

  /** The library's slice: `length` characters from `from`, as far as there are any. */
  ghost predicate Slices(k: Kernels)
  {
    forall s, from: nat, length: nat :: from + length <= |s| ==> k.substring(s, from, length) == s[from..from + length]
  }

  /** SUBSTRING counts characters from 1. */
  lemma SubstringMeans(k: Kernels, o: Expr, start: int, length: nat, t: TypeId, row: Row)
    requires Slices(k) && Eval(k, o, row).Str? && 1 <= start && start - 1 + length <= |Eval(k, o, row).s|
    ensures var s := Eval(k, o, row).s;
            && Eval(k, Substring(o, start, length, t), row).Str?
            && |Eval(k, Substring(o, start, length, t), row).s| == length
            && forall i :: 0 <= i < length ==> Eval(k, Substring(o, start, length, t), row).s[i] == s[start + i - 1]
  {
    var s := Eval(k, o, row).s;
    assert k.substring(s, start - 1, length) == s[start - 1..start - 1 + length];
  }

  /** The library's date parts are those of the calendar. */
  ghost predicate Dates(k: Kernels)
  {
    forall y, m, d :: ValidDate(y, m, d) ==>
      && k.extract(Year, DayNumber(y, m, d)) == y
      && k.extract(Month, DayNumber(y, m, d)) == m
      && k.extract(Day, DayNumber(y, m, d)) == d
  }

  lemma ExtractMeans(k: Kernels, o: Expr, t: TypeId, row: Row, y: int, m: int, d: int)
    requires Dates(k) && ValidDate(y, m, d) && Eval(k, o, row) == Int(DayNumber(y, m, d))
    ensures Eval(k, Extract(Year, o, t), row) == Int(y)
    ensures Eval(k, Extract(Month, o, t), row) == Int(m)
    ensures Eval(k, Extract(Day, o, t), row) == Int(d)
  {
  }

  /** NULL passes through casts and negation; other values are the library's to convert. */
  lemma NullPasses(k: Kernels, o: Expr, t: TypeId, row: Row)
    ensures Eval(k, o, row).Null? ==> Eval(k, Cast(o, t), row) == Null && Eval(k, Unary(Negate, o, t), row) == Null
    ensures !Eval(k, o, row).Null? ==> Eval(k, Unary(Negate, o, t), row) == k.negate(Eval(k, o, row))
    ensures !Eval(k, o, row).Null? && !t.Boolean? ==> Eval(k, Cast(o, t), row) == k.cast(t, Eval(k, o, row))
  {
  }

  // ---------------------------------------------------------------------------
  // WHERE
  // ---------------------------------------------------------------------------

  ghost predicate HasColumn(rows: seq<Row>, c: nat)
  {
    forall row :: row in rows ==> c < |row|
  }

  /** `row` occurs in `kept` as often as in `rows` if `passes`, and otherwise not at all. */
  ghost predicate KeepsWhen(kept: seq<Row>, rows: seq<Row>, row: Row, passes: bool)
  {
    multiset(kept)[row] == if passes then multiset(rows)[row] else 0
  }

  lemma {:induction false} WhereKeeps(k: Kernels, condition: Expr, rows: seq<Row>, row: Row)
    ensures KeepsWhen(FilterRows(k, condition, rows), rows, row, Eval(k, condition, row) == Bool(true))
  {
    if rows != [] {
      WhereKeeps(k, condition, rows[1..], row);
      SelectCons(r => Holds(k, condition, r), rows);
      assert rows == [rows[0]] + rows[1..];
    }
  }

  /** WHERE c IS NULL keeps the rows whose column c is NULL, and WHERE c IS NOT NULL the others. */
  lemma WhereNull(k: Kernels, name: string, c: nat, t: TypeId, rows: seq<Row>, row: Row)
    requires !t.Boolean? && row in rows && HasColumn(rows, c)
    ensures KeepsWhen(FilterRows(k, Unary(IsNull, Column(name, c, t), Boolean), rows), rows, row, row[c] == Null)
    ensures KeepsWhen(FilterRows(k, Unary(IsNotNull, Column(name, c, t), Boolean), rows), rows, row, row[c] != Null)
  {
    var column := Column(name, c, t);
    assert Eval(k, column, row) == row[c];
    WhereKeeps(k, Unary(IsNull, column, Boolean), rows, row);
    WhereKeeps(k, Unary(IsNotNull, column, Boolean), rows, row);
  }

  /** WHERE c op v on integers keeps the rows whose column c is related to v; NULL is related to
      nothing. */
  lemma WhereCompared(k: Kernels, op: BinaryOp, name: string, c: nat, v: int, rows: seq<Row>, row: Row)
    requires IsComparison(op) && row in rows && HasColumn(rows, c) && (row[c].Int? || row[c].Null?)
    ensures KeepsWhen(FilterRows(k, Binary(op, Column(name, c, Int64), Literal(Int(v), Int64), Boolean), rows), rows, row,
                      row[c].Int? && Relates(op, row[c].i < v, row[c].i == v))
  {
    var column, literal := Column(name, c, Int64), Literal(Int(v), Int64);
    assert Eval(k, column, row) == row[c] && Eval(k, literal, row) == Int(v);
    WhereKeeps(k, Binary(op, column, literal, Boolean), rows, row);
  }
}
