/** The one-shot meaning of SQL aggregates over a column of values, and the reductions
(SUM, MIN, MAX over nullable values) the execution operators build them from. */
module Aggregation {
  import opened Expressions
  import opened Relational

  datatype AggregateFunction = Sum | Count | CountStar | CountDistinct | Min | Max | Avg

  datatype Reduction = SumOf | MinOf | MaxOf

  // ---------------------------------------------------------------------------
  // A total order on values
  // ---------------------------------------------------------------------------

  lemma {:induction false} StringLessTotal(a: string, b: string)
    ensures StringLess(a, b) || a == b || StringLess(b, a)
    ensures !(StringLess(a, b) && StringLess(b, a))
    ensures !StringLess(a, a)
  {
    if a != [] {
      StringLessTotal(a[1..], if b == [] then [] else b[1..]);
      if b != [] && a[0] == b[0] && a[1..] == b[1..] {
        assert a == [a[0]] + a[1..] && b == [b[0]] + b[1..];
      }
    }
  }

  lemma {:induction false} StringLessTrans(a: string, b: string, c: string)
    requires StringLess(a, b) && StringLess(b, c)
    ensures StringLess(a, c)
  {
    if a != [] && a[0] == b[0] && b[0] == c[0] {
      StringLessTrans(a[1..], b[1..], c[1..]);
    }
  }

  function Rank(v: Value): nat
  {
    match v
    case Null => 0
    case Bool(_) => 1
    case Int(_) => 2
    case Double(_) => 3
    case Str(_) => 4
  }

  /** Within one column type this is the type's own order. */
  predicate ValueLess(a: Value, b: Value)
  {
    match (a, b)
    case (Bool(x), Bool(y)) => !x && y
    case (Int(x), Int(y)) => x < y
    case (Double(x), Double(y)) => x < y
    case (Str(x), Str(y)) => StringLess(x, y)
    case _ => Rank(a) < Rank(b)
  }

  lemma ValueLessTotal(a: Value, b: Value)
    ensures ValueLess(a, b) || a == b || ValueLess(b, a)
    ensures !(ValueLess(a, b) && ValueLess(b, a))
  {
    if a.Str? && b.Str? {
      StringLessTotal(a.s, b.s);
    }
  }

  lemma ValueLessTrans(a: Value, b: Value, c: Value)
    requires ValueLess(a, b) && ValueLess(b, c)
    ensures ValueLess(a, c)
  {
    if a.Str? && b.Str? && c.Str? {
      StringLessTrans(a.s, b.s, c.s);
    }
  }

  // ---------------------------------------------------------------------------
  // Reductions
  // ---------------------------------------------------------------------------

  /** What a reduction sees of a value: SUM reads only numbers. */
  function Input(r: Reduction, v: Value): Value
  {
    if r.SumOf? && !IsNumber(v) then Null else v
  }

  function AddNumbers(a: Value, b: Value): Value
    requires IsNumber(a) && IsNumber(b)
  {
    if a.Int? && b.Int? then Int(a.i + b.i)
    else Double((if a.Int? then a.i as real else a.d) + (if b.Int? then b.i as real else b.d))
  }

  /** NULL is absorbed: it contributes nothing to a reduction. */
  function Combine(r: Reduction, a: Value, b: Value): Value
  {
    var x, y := Input(r, a), Input(r, b);
    if x.Null? then y
    else if y.Null? then x
    else
      match r
      case SumOf => AddNumbers(x, y)
      case MinOf => if ValueLess(y, x) then y else x
      case MaxOf => if ValueLess(x, y) then y else x
  }

  lemma CombineComm(r: Reduction, a: Value, b: Value)
    ensures Combine(r, a, b) == Combine(r, b, a)
  {
    ValueLessTotal(a, b);
  }

  lemma CombineAssoc(r: Reduction, a: Value, b: Value, c: Value)
    ensures Combine(r, Combine(r, a, b), c) == Combine(r, a, Combine(r, b, c))
  {
    if !r.SumOf? && !a.Null? && !b.Null? && !c.Null? {
      OrderOfThree(a, b, c);
    }
  }

  lemma OrderOfThree(a: Value, b: Value, c: Value)
    ensures ValueLess(a, b) && ValueLess(b, c) ==> ValueLess(a, c)
    ensures ValueLess(c, b) && ValueLess(b, a) ==> ValueLess(c, a)
    ensures !ValueLess(a, b) && !ValueLess(b, c) ==> !ValueLess(a, c)
    ensures !ValueLess(c, b) && !ValueLess(b, a) ==> !ValueLess(c, a)
  {
    ValueLessTotal(a, b);
    ValueLessTotal(b, c);
    ValueLessTotal(a, c);
    if ValueLess(a, b) && ValueLess(b, c) { ValueLessTrans(a, b, c); }
    if ValueLess(c, b) && ValueLess(b, a) { ValueLessTrans(c, b, a); }
  }

  function Reduce(r: Reduction, values: seq<Value>): Value
  {
    if values == [] then Null else Combine(r, values[0], Reduce(r, values[1..]))
  }

  lemma {:induction false} ReduceIsInput(r: Reduction, values: seq<Value>)
    ensures Input(r, Reduce(r, values)) == Reduce(r, values)
  {
    if values != [] {
      ReduceIsInput(r, values[1..]);
    }
  }

  lemma ReduceOne(r: Reduction, v: Value)
    ensures Reduce(r, [v]) == Input(r, v)
  {
    assert Reduce(r, [v]) == Combine(r, v, Null);
  }

  /** Reducing pieces and combining the results is reducing the whole. */
  lemma {:induction false} ReduceAppend(r: Reduction, a: seq<Value>, b: seq<Value>)
    ensures Reduce(r, a + b) == Combine(r, Reduce(r, a), Reduce(r, b))
  {
    if a == [] {
      assert a + b == b;
      ReduceIsInput(r, b);
    } else {
      assert (a + b)[1..] == a[1..] + b;
      ReduceAppend(r, a[1..], b);
      CombineAssoc(r, a[0], Reduce(r, a[1..]), Reduce(r, b));
    }
  }

  lemma ReduceSplit(r: Reduction, t: seq<Value>, i: nat)
    requires i < |t|
    ensures Reduce(r, t) == Combine(r, t[i], Reduce(r, t[..i] + t[i + 1..]))
  {
    var before, after := t[..i], t[i + 1..];
    assert t == before + ([t[i]] + after);
    assert ([t[i]] + after)[1..] == after;
    ReduceAppend(r, before, [t[i]] + after);
    ReduceAppend(r, before, after);
    var x, y, z := Reduce(r, before), t[i], Reduce(r, after);
    CombineAssoc(r, x, y, z);
    CombineComm(r, x, y);
    CombineAssoc(r, y, x, z);
  }

  /** A reduction does not depend on the order of its input. */
  lemma {:induction false} ReduceSameRows(r: Reduction, s: seq<Value>, t: seq<Value>)
    requires SameRows(s, t)
    ensures Reduce(r, s) == Reduce(r, t)
    decreases |s|
  {
    if s == [] {
      SameRowsLength(s, t);
    } else {
      var i := RowsWithout(s, t);
      ReduceSameRows(r, s[1..], t[..i] + t[i + 1..]);
      ReduceSplit(r, t, i);
    }
  }

  /** A reduction is NULL exactly when it has no valid input. */
  lemma {:induction false} ReduceNull(r: Reduction, values: seq<Value>)
    ensures Reduce(r, values).Null? <==> forall v :: v in values ==> Input(r, v).Null?
  {
    if values != [] {
      ReduceNull(r, values[1..]);
      ReduceIsInput(r, values[1..]);
      assert forall v :: v in values <==> v == values[0] || v in values[1..];
    }
  }

  /** MIN and MAX return an extreme element of the valid input. */
  lemma {:induction false} ReduceExtreme(r: Reduction, values: seq<Value>, v: Value)
    requires !r.SumOf? && v in values && !v.Null?
    ensures Reduce(r, values) in values && !Reduce(r, values).Null?
    ensures r.MinOf? ==> !ValueLess(v, Reduce(r, values))
    ensures r.MaxOf? ==> !ValueLess(Reduce(r, values), v)
  {
    var rest := Reduce(r, values[1..]);
    ReduceNull(r, values[1..]);
    ValueLessTotal(values[0], rest);
    ValueLessTotal(v, v);
    if v in values[1..] {
      ReduceExtreme(r, values[1..], v);
      OrderOfThree(v, rest, values[0]);
      OrderOfThree(values[0], rest, v);
    } else if !rest.Null? {
      var w :| w in values[1..] && !w.Null?;
      ReduceExtreme(r, values[1..], w);
    }
  }

  // ---------------------------------------------------------------------------
  // Aggregates
  // ---------------------------------------------------------------------------

  function ValidValues(values: seq<Value>): seq<Value>
  {
    Select((v: Value) => !v.Null?, values)
  }

  function Quotient(k: Kernels, sum: Value, count: int): Value
  {
    if IsNumber(sum) then Double(k.doubleArith(Divide, AsDouble(k, sum), k.toDouble(count))) else Null
  }

  /** The meaning of `f` over all the values of its argument in one group. */
  function Aggregate(k: Kernels, f: AggregateFunction, values: seq<Value>): Value
  {
    match f
    case CountStar => Int(|values|)
    case Count => Int(|ValidValues(values)|)
    case CountDistinct => Int(|set v | v in values && !v.Null?|)
    case Sum => Reduce(SumOf, values)
    case Min => Reduce(MinOf, values)
    case Max => Reduce(MaxOf, values)
    case Avg => Quotient(k, Reduce(SumOf, values), |ValidValues(values)|)
  }

  lemma AggregateSameRows(k: Kernels, f: AggregateFunction, s: seq<Value>, t: seq<Value>)
    requires SameRows(s, t)
    ensures Aggregate(k, f, s) == Aggregate(k, f, t)
  {
    SameRowsMembers(s, t);
    SelectSameRows((v: Value) => !v.Null?, s, t);
    SameRowsMembers(ValidValues(s), ValidValues(t));
    ReduceSameRows(SumOf, s, t);
    ReduceSameRows(MinOf, s, t);
    ReduceSameRows(MaxOf, s, t);
    assert (set v | v in s && !v.Null?) == (set v | v in t && !v.Null?);
  }
}
