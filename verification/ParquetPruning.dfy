/** Skipping row groups by their min/max statistics (src/io/parquet_pruning.cpp). The check
compares 64-bit integers as doubles, so for a strict comparison it is only a proof where
the rounding keeps the literal apart from its neighbours; everywhere else, scanning the
selected row groups and filtering is scanning everything and filtering. */
module ParquetPruning {
  import opened Expressions
  import opened Relational
  import opened Aggregation
  import opened LogicalPlans
  import opened PhysicalPlanner
  import opened Rewriter
  import opened Rounding

  // ---------------------------------------------------------------------------
  // Comparing literals and statistics
  // ---------------------------------------------------------------------------

  function ToDouble(i: int): real
  {
    RoundToDouble(i) as real
  }

  /** Mixed integer and double comparisons in the engine convert the integer this way. */
  ghost predicate IeeeConversion(k: Kernels)
  {
    forall i :: k.toDouble(i) == ToDouble(i)
  }

  function DoubleOf(v: Value): Option<real>
  {
    match v
    case Int(i) => Some(ToDouble(i))
    case Double(d) => Some(d)
    case _ => None
  }

  function Sign(less: bool, greater: bool): int
  {
    if less then -1 else if greater then 1 else 0
  }

  /** -1, 0 or 1, or None when the two are not comparable. Integers are compared as doubles. */
  function CompareLiterals(a: Value, b: Value): Option<int>
  {
    if a.Str? && b.Str? then Some(Sign(StringLess(a.s, b.s), StringLess(b.s, a.s)))
    else if a.Bool? && b.Bool? then Some(if a.b == b.b then 0 else if b.b then -1 else 1)
    else match (DoubleOf(a), DoubleOf(b))
         case (Some(x), Some(y)) => Some(Sign(x < y, x > y))
         case _ => None
  }

  datatype ColumnStatistics = ColumnStatistics(hasMinMax: bool, minValue: Value, maxValue: Value)

  /** The range check of `predicate_proves_empty`, from the two comparisons. */
  predicate RangeExcludes(op: BinaryOp, cmpMin: int, cmpMax: int)
  {
    match op
    case Equal => cmpMin > 0 || cmpMax < 0
    case NotEqual => cmpMin == 0 && cmpMax == 0
    case Less => cmpMin >= 0
    case LessEqual => cmpMin > 0
    case Greater => cmpMax <= 0
    case GreaterEqual => cmpMax < 0
    case _ => false
  }

  predicate ProvesEmpty(p: PushablePredicate, stats: ColumnStatistics)
  {
    stats.hasMinMax && !p.literal.Null? &&
    match (CompareLiterals(stats.minValue, p.literal), CompareLiterals(stats.maxValue, p.literal))
    case (Some(cmpMin), Some(cmpMax)) => RangeExcludes(p.op, cmpMin, cmpMax)
    case _ => false
  }

  predicate SameKind(a: Value, b: Value)
  {
    (a.Bool? && b.Bool?) || (a.Int? && b.Int?) || (a.Double? && b.Double?) || (a.Str? && b.Str?)
  }

  /** What statistics promise of every non-NULL value of their column. */
  ghost predicate Bounds(stats: ColumnStatistics, v: Value)
  {
    stats.hasMinMax && !v.Null? ==>
      && SameKind(stats.minValue, v) && SameKind(v, stats.maxValue)
      && !ValueLess(v, stats.minValue) && !ValueLess(stats.maxValue, v)
  }

  /** Rounding keeps `literal` apart from the integers that a strict comparison admits. */
  predicate Distinguishes(op: BinaryOp, literal: int)
  {
    && (op.Less? || op.NotEqual? ==> literal <= INT64_MIN || RoundToDouble(literal - 1) < RoundToDouble(literal))
    && (op.Greater? || op.NotEqual? ==> literal >= INT64_MAX || RoundToDouble(literal) < RoundToDouble(literal + 1))
  }

  // ---------------------------------------------------------------------------
  // One predicate against one range
  // ---------------------------------------------------------------------------

  predicate IntSatisfies(op: BinaryOp, v: int, literal: int)
  {
    Satisfies(op, Sign(v < literal, v > literal))
  }

  /** The claim the check makes about one integer column: `v` lies in [lo, hi] and the check
      excludes the range, so `v op literal` is not satisfied. */
  predicate IntClaim(op: BinaryOp, literal: int, lo: int, hi: int, v: int)
  {
    InInt64(lo) && InInt64(hi) && InInt64(v) && lo <= v <= hi && ProvesEmpty(Pushable("", op, Int(literal), Int64), ColumnStatistics(true, Int(lo), Int(hi)))
    ==> !IntSatisfies(op, v, literal)
  }

  lemma RoundedOrder(a: int, b: int)
    ensures a <= b ==> ToDouble(a) <= ToDouble(b)
    ensures ToDouble(a) < ToDouble(b) ==> a < b
  {
    if a <= b {
      RoundMonotone(a, b);
    } else {
      RoundMonotone(b, a);
    }
  }

  lemma DistinguishedOrder(op: BinaryOp, literal: int, v: int)
    requires InInt64(v) && InInt64(literal) && Distinguishes(op, literal)
    ensures (op.Less? || op.NotEqual?) && v < literal ==> ToDouble(v) < ToDouble(literal)
    ensures (op.Greater? || op.NotEqual?) && v > literal ==> ToDouble(v) > ToDouble(literal)
  {
    if v < literal {
      RoundMonotone(v, literal - 1);
    } else if v > literal {
      RoundMonotone(literal + 1, v);
    }
  }

  lemma IntRangeSound(op: BinaryOp, literal: int, lo: int, hi: int, v: int)
    requires InInt64(literal) && Distinguishes(op, literal)
    ensures IntClaim(op, literal, lo, hi, v)
  {
    if InInt64(v) && lo <= v <= hi {
      RoundedOrder(lo, v);
      RoundedOrder(v, hi);
      RoundedOrder(v, literal);
      RoundedOrder(literal, v);
      DistinguishedOrder(op, literal, v);
    }
  }

  /** The check on an integer column is right about every row group exactly when the
      literal can be told from its neighbours: always for =, <= and >=. */
  lemma IntPruningExact(op: BinaryOp, literal: int)
    requires IsComparison(op) && InInt64(literal)
    ensures (forall lo, hi, v :: IntClaim(op, literal, lo, hi, v)) <==> Distinguishes(op, literal)
  {
    if Distinguishes(op, literal) {
      forall lo, hi, v ensures IntClaim(op, literal, lo, hi, v) {
        IntRangeSound(op, literal, lo, hi, v);
      }
    } else {
      Indistinguishable(op, literal);
    }
  }

  lemma Indistinguishable(op: BinaryOp, literal: int)
    requires IsComparison(op) && InInt64(literal) && !Distinguishes(op, literal)
    ensures exists lo, hi, v :: !IntClaim(op, literal, lo, hi, v)
  {
    RoundMonotone(literal - 1, literal);
    RoundMonotone(literal, literal + 1);
    if (op.Less? || op.NotEqual?) && literal > INT64_MIN && RoundToDouble(literal - 1) == RoundToDouble(literal) {
      assert !IntClaim(op, literal, literal - 1, literal, literal - 1);
    } else {
      assert !IntClaim(op, literal, literal, literal + 1, literal + 1);
    }
  }

  /** Within 2^53 in magnitude every literal is distinguished from both neighbours. */
  lemma SmallLiterals(op: BinaryOp, literal: int)
    requires -TWO53 < literal < TWO53
    ensures Distinguishes(op, literal)
  {
    RoundExact(literal - 1);
    RoundExact(literal);
    RoundExact(literal + 1);
  }

  /** At 2^53 the check already discards a matching row: a group holding 2^53 and 2^53 + 1 is
      skipped for `> 2^53`. */
  lemma FirstWronglySkipped()
    ensures !IntClaim(Greater, TWO53, TWO53, TWO53 + 1, TWO53 + 1)
    ensures !Distinguishes(Greater, TWO53) && Distinguishes(Less, TWO53)
  {
    RoundMerges();
    RoundExact(TWO53);
    RoundExact(TWO53 - 1);
  }

  /** Soundness of the check for any value type. Only integer columns against integer literals
      need the side condition: a mixed comparison is made in doubles by the engine too. */
  lemma ProvesEmptySound(k: Kernels, p: PushablePredicate, stats: ColumnStatistics, v: Value)
    requires IeeeConversion(k) && Bounds(stats, v) && ProvesEmpty(p, stats)
    requires v.Int? && p.literal.Int? ==> InInt64(v.i) && InInt64(p.literal.i) && Distinguishes(p.op, p.literal.i)
    ensures EvalBinary(k, p.op, v, p.literal, Boolean) != Bool(true)
  {
    match v
    case Null =>
    case Bool(_) =>
    case Int(i) =>
      RoundedOrder(stats.minValue.i, i);
      RoundedOrder(i, stats.maxValue.i);
      if p.literal.Int? {
        RoundedOrder(i, p.literal.i);
        RoundedOrder(p.literal.i, i);
        DistinguishedOrder(p.op, p.literal.i, i);
      }
    case Double(_) =>
    case Str(s) =>
      StringRange(stats.minValue.s, s, stats.maxValue.s, p.literal.s);
  }

  lemma StringRange(lo: string, v: string, hi: string, literal: string)
    requires !StringLess(v, lo) && !StringLess(hi, v)
    ensures !StringLess(lo, literal) ==> !StringLess(v, literal)
    ensures StringLess(literal, lo) ==> StringLess(literal, v)
    ensures !StringLess(literal, hi) ==> !StringLess(literal, v)
    ensures StringLess(hi, literal) ==> StringLess(v, literal)
  {
    OrderOfThree(Str(v), Str(lo), Str(literal));
    OrderOfThree(Str(v), Str(hi), Str(literal));
    OrderOfThree(Str(literal), Str(lo), Str(v));
    ValueLessTotal(Str(v), Str(lo));
    ValueLessTotal(Str(v), Str(hi));
    ValueLessTotal(Str(v), Str(literal));
    ValueLessTotal(Str(lo), Str(literal));
    ValueLessTotal(Str(hi), Str(literal));
  }

  // ---------------------------------------------------------------------------
  // Row groups
  // ---------------------------------------------------------------------------

  datatype RowGroup = RowGroup(index: int, statistics: map<string, ColumnStatistics>)

  predicate Skippable(g: RowGroup, predicates: seq<PushablePredicate>)
  {
    exists p :: p in predicates && p.column in g.statistics && ProvesEmpty(p, g.statistics[p.column])
  }

  function SelectedGroups(file: seq<RowGroup>, predicates: seq<PushablePredicate>): seq<RowGroup>
  {
    Select((g: RowGroup) => !Skippable(g, predicates), file)
  }

  function GroupIndices(groups: seq<RowGroup>): seq<int>
  {
    Map((g: RowGroup) => g.index, groups)
  }

  function SkippedGroups(file: seq<RowGroup>, predicates: seq<PushablePredicate>): seq<RowGroup>
  {
    Select((g: RowGroup) => Skippable(g, predicates), file)
  }

  /** `evaluate_pruning`: every row group is selected or skipped, in file order. */
  method EvaluatePruning(file: seq<RowGroup>, predicates: seq<PushablePredicate>)
    returns (selected: seq<int>, skipped: seq<int>)
    ensures selected == GroupIndices(SelectedGroups(file, predicates))
    ensures skipped == GroupIndices(SkippedGroups(file, predicates))
    ensures |selected| + |skipped| == |file|
  {
    hide GroupIndices, SelectedGroups, SkippedGroups, Skippable;
    selected, skipped := [], [];
    NoGroups(predicates);
    for i := 0 to |file|
      invariant selected == GroupIndices(SelectedGroups(file[..i], predicates))
      invariant skipped == GroupIndices(SkippedGroups(file[..i], predicates))
      invariant |selected| + |skipped| == i
    {
      var skip := ScanPredicates(file[i], predicates);
      assert file[..i + 1] == file[..i] + [file[i]];
      GroupsSnoc(file[..i], file[i], predicates);
      if skip {
        skipped := skipped + [file[i].index];
      } else {
        selected := selected + [file[i].index];
      }
    }
    assert file[..|file|] == file;
  }

  lemma NoGroups(predicates: seq<PushablePredicate>)
    ensures GroupIndices(SelectedGroups([], predicates)) == [] && GroupIndices(SkippedGroups([], predicates)) == []
  {
  }

  lemma GroupsSnoc(before: seq<RowGroup>, g: RowGroup, predicates: seq<PushablePredicate>)
    ensures GroupIndices(SelectedGroups(before + [g], predicates))
         == GroupIndices(SelectedGroups(before, predicates)) + if Skippable(g, predicates) then [] else [g.index]
    ensures GroupIndices(SkippedGroups(before + [g], predicates))
         == GroupIndices(SkippedGroups(before, predicates)) + if Skippable(g, predicates) then [g.index] else []
  {
    SelectAppend((h: RowGroup) => !Skippable(h, predicates), before, [g]);
    SelectAppend((h: RowGroup) => Skippable(h, predicates), before, [g]);
    MapAppend((h: RowGroup) => h.index, SelectedGroups(before, predicates), SelectedGroups([g], predicates));
    MapAppend((h: RowGroup) => h.index, SkippedGroups(before, predicates), SkippedGroups([g], predicates));
    OneGroup(g, predicates);
  }

  lemma OneGroup(g: RowGroup, predicates: seq<PushablePredicate>)
    ensures GroupIndices(SelectedGroups([g], predicates)) == if Skippable(g, predicates) then [] else [g.index]
    ensures GroupIndices(SkippedGroups([g], predicates)) == if Skippable(g, predicates) then [g.index] else []
  {
    MapAppend((h: RowGroup) => h.index, [g], []);
    if Skippable(g, predicates) {
      SelectNone((h: RowGroup) => !Skippable(h, predicates), [g]);
      SelectAll((h: RowGroup) => Skippable(h, predicates), [g]);
    } else {
      SelectAll((h: RowGroup) => !Skippable(h, predicates), [g]);
      SelectNone((h: RowGroup) => Skippable(h, predicates), [g]);
    }
  }

  /** Look for a predicate that excludes the group, stopping at the first. */
  method ScanPredicates(g: RowGroup, predicates: seq<PushablePredicate>) returns (skip: bool)
    ensures skip <==> Skippable(g, predicates)
  {
    for i := 0 to |predicates|
      invariant forall p :: p in predicates[..i] ==> !(p.column in g.statistics && ProvesEmpty(p, g.statistics[p.column]))
    {
      var p := predicates[i];
      assert p in predicates && predicates[..i + 1] == predicates[..i] + [p];
      if p.column in g.statistics && ProvesEmpty(p, g.statistics[p.column]) {
        return true;
      }
    }
    assert predicates[..|predicates|] == predicates;
    return false;
  }

  // ---------------------------------------------------------------------------
  // From a WHERE condition to its pushable predicates
  // ---------------------------------------------------------------------------

  /** Dropping the casts around a comparison's operands does not change the comparison. */
  ghost predicate CastsTransparent(k: Kernels, e: Expr, row: Row)
  {
    if !e.Binary? then true
    else if e.bop.And? then CastsTransparent(k, e.left, row) && CastsTransparent(k, e.right, row)
    else if !IsComparison(e.bop) then true
    else
      EvalBinary(k, e.bop, Eval(k, UnwrapCast(e.left), row), Eval(k, UnwrapCast(e.right), row), Boolean) == Eval(k, e, row)
  }

  /** Column references carry the name of the field they index. */
  ghost predicate NamesResolve(e: Expr, fields: seq<Field>)
  {
    match e
    case Column(n, i, _) => i < |fields| && fields[i].name == n
    case Binary(_, l, r, _) => NamesResolve(l, fields) && NamesResolve(r, fields)
    case Cast(o, _) => NamesResolve(o, fields)
    case _ => true
  }

  lemma UnwrapResolves(e: Expr, fields: seq<Field>)
    requires NamesResolve(e, fields)
    ensures NamesResolve(UnwrapCast(e), fields)
  {
  }

  lemma FlipAgrees(k: Kernels, op: BinaryOp, a: Value, b: Value)
    requires IsComparison(op)
    ensures EvalBinary(k, op, a, b, Boolean) == EvalBinary(k, Flip(op), b, a, Boolean)
  {
    if a.Str? && b.Str? {
      StringLessTotal(a.s, b.s);
    }
  }

  /** The value the predicate is about: some field of that name, or NULL. */
  ghost predicate Reads(fields: seq<Field>, row: Row, column: string, v: Value)
  {
    v.Null? || exists i :: 0 <= i < |fields| && i < |row| && fields[i].name == column && row[i] == v
  }

  /** A row on which the condition is TRUE satisfies every predicate collected from it. */
  lemma {:induction false} PushableImplied(k: Kernels, e: Expr, fields: seq<Field>, row: Row, p: PushablePredicate)
    returns (v: Value)
    requires Holds(k, e, row) && p in CollectPushable(e) && CastsTransparent(k, e, row) && NamesResolve(e, fields)
    ensures Reads(fields, row, p.column, v) && EvalBinary(k, p.op, v, p.literal, Boolean) == Bool(true)
  {
    if e.bop.And? {
      if p in CollectPushable(e.left) {
        v := PushableImplied(k, e.left, fields, row, p);
      } else {
        v := PushableImplied(k, e.right, fields, row, p);
      }
    } else {
      UnwrapResolves(e.left, fields);
      UnwrapResolves(e.right, fields);
      var l, r := UnwrapCast(e.left), UnwrapCast(e.right);
      if l.Column? && r.Literal? {
        v := Eval(k, l, row);
      } else {
        v := Eval(k, r, row);
        FlipAgrees(k, e.bop, l.value, v);
      }
    }
  }

  // ---------------------------------------------------------------------------
  // Scanning less
  // ---------------------------------------------------------------------------

  /** The statistics of `g` bound the columns of `row`. */
  ghost predicate Accurate(fields: seq<Field>, g: RowGroup, row: Row)
  {
    forall i :: 0 <= i < |fields| && i < |row| && fields[i].name in g.statistics ==>
      Bounds(g.statistics[fields[i].name], row[i])
  }

  /** Integer literals compared strictly must survive rounding; integers are 64 bits wide. */
  ghost predicate Precise(p: PushablePredicate)
  {
    p.literal.Int? ==> InInt64(p.literal.i) && Distinguishes(p.op, p.literal.i)
  }

  ghost predicate Int64Row(row: Row)
  {
    forall v :: v in row && v.Int? ==> InInt64(v.i)
  }

  /** What a file must be like for pruning by `conditions` to be right about it. */
  ghost predicate Prunable(k: Kernels, conditions: seq<Expr>, fields: seq<Field>, g: RowGroup, row: Row)
  {
    && Accurate(fields, g, row) && Int64Row(row)
    && forall e :: e in conditions ==> CastsTransparent(k, e, row)
  }

  function Pushables(conditions: seq<Expr>): seq<PushablePredicate>
  {
    if conditions == [] then [] else CollectPushable(conditions[0]) + Pushables(conditions[1..])
  }

  lemma {:induction false} PushableSource(conditions: seq<Expr>, p: PushablePredicate) returns (e: Expr)
    requires p in Pushables(conditions)
    ensures e in conditions && p in CollectPushable(e)
  {
    if p in CollectPushable(conditions[0]) {
      e := conditions[0];
    } else {
      e := PushableSource(conditions[1..], p);
    }
  }

  /** No row of a skipped group passes all the conditions. */
  lemma SkippedGroupEmpty(k: Kernels, conditions: seq<Expr>, fields: seq<Field>, g: RowGroup, row: Row)
    requires IeeeConversion(k) && Prunable(k, conditions, fields, g, row) && Skippable(g, Pushables(conditions))
    requires forall e :: e in conditions ==> NamesResolve(e, fields)
    requires forall p :: p in Pushables(conditions) ==> Precise(p)
    ensures !AllHold(k, conditions, row)
  {
    var p :| p in Pushables(conditions) && p.column in g.statistics && ProvesEmpty(p, g.statistics[p.column]);
    var e := PushableSource(conditions, p);
    if Holds(k, e, row) {
      var v := PushableImplied(k, e, fields, row, p);
      assert Precise(p);
      ProvesEmptySound(k, p, g.statistics[p.column], v);
    }
  }

  /** Scanning only the selected row groups and filtering is scanning all of them and filtering. */
  lemma PrunedScan(k: Kernels, conditions: seq<Expr>, fields: seq<Field>, file: seq<RowGroup>,
                   data: RowGroup -> seq<Row>)
    requires IeeeConversion(k)
    requires forall e :: e in conditions ==> NamesResolve(e, fields)
    requires forall p :: p in Pushables(conditions) ==> Precise(p)
    requires forall g, row :: g in file && row in data(g) ==> Prunable(k, conditions, fields, g, row)
    ensures Select(row => AllHold(k, conditions, row), FlatMap(data, SelectedGroups(file, Pushables(conditions))))
         == Select(row => AllHold(k, conditions, row), FlatMap(data, file))
  {
    hide AllHold, Skippable, Prunable, Precise, NamesResolve;
    var keep := (row: Row) => AllHold(k, conditions, row);
    var selected := (g: RowGroup) => Select(keep, data(g));
    forall g | g in file && Skippable(g, Pushables(conditions)) ensures selected(g) == [] {
      forall row | row in data(g) ensures !keep(row) {
        SkippedGroupEmpty(k, conditions, fields, g, row);
      }
      SelectNone(keep, data(g));
    }
    SelectOfFlatMap(keep, data, selected, file);
    SelectOfFlatMap(keep, data, selected, SelectedGroups(file, Pushables(conditions)));
    FlatMapOfSelect(selected, (g: RowGroup) => !Skippable(g, Pushables(conditions)), selected, file);
  }

  // ---------------------------------------------------------------------------
  // Nothing is read that the statistics rule out
  // ---------------------------------------------------------------------------

  /** A value that statistics with these bounds allow. */
  ghost predicate WithinBounds(lo: Value, v: Value, hi: Value)
  {
    SameKind(lo, v) && SameKind(v, hi) && !ValueLess(v, lo) && !ValueLess(hi, v) && (v.Int? ==> InInt64(v.i))
  }

  /** The value that decides whether a range has one that satisfies the comparison. */
  function Witness(op: BinaryOp, lo: Value, hi: Value, literal: Value): Value
  {
    match op
    case Equal => literal
    case NotEqual => if lo == literal then hi else lo
    case Less => lo
    case LessEqual => lo
    case _ => hi
  }

  lemma IntegersCompared(x: int, literal: int)
    requires -TWO53 < literal < TWO53
    ensures CompareLiterals(Int(x), Int(literal)) == Some(if x < literal then -1 else if x > literal then 1 else 0)
  {
    hide RoundToDouble;
    RoundExact(literal);
    if x < literal { RoundExact(literal - 1); RoundMonotone(x, literal - 1); }
    if x > literal { RoundExact(literal + 1); RoundMonotone(literal + 1, x); }
  }

  /** Literals of one type compare as their values do. */
  lemma LiteralsCompared(v: Value, literal: Value)
    requires SameKind(v, literal) && (literal.Int? ==> -TWO53 < literal.i < TWO53)
    ensures CompareLiterals(v, literal) == Some(if ValueLess(v, literal) then -1 else if ValueLess(literal, v) then 1 else 0)
  {
    hide ToDouble;
    if v.Int? { IntegersCompared(v.i, literal.i); }
    if v.Str? { StringLessTotal(v.s, literal.s); }
  }

  lemma LiteralsEvaluated(k: Kernels, op: BinaryOp, v: Value, literal: Value)
    requires SameKind(v, literal) && IsComparison(op)
    ensures EvalBinary(k, op, v, literal, Boolean)
         == Bool(Satisfies(op, if ValueLess(v, literal) then -1 else if ValueLess(literal, v) then 1 else 0))
  {
    if v.Str? { StringLessTotal(v.s, literal.s); }
  }

  /** A row group is skipped by a comparison exactly when no value within its statistics satisfies
      it, for every type of column; integer literals must be small enough to be exact doubles. */
  lemma RangeExact(k: Kernels, p: PushablePredicate, lo: Value, hi: Value)
    requires IsComparison(p.op) && SameKind(lo, p.literal) && SameKind(p.literal, hi) && !ValueLess(hi, lo)
    requires p.literal.Int? ==> -TWO53 < p.literal.i < TWO53 && InInt64(lo.i) && InInt64(hi.i)
    ensures ProvesEmpty(p, ColumnStatistics(true, lo, hi)) <==>
      forall v :: WithinBounds(lo, v, hi) ==> EvalBinary(k, p.op, v, p.literal, Boolean) != Bool(true)
  {
    hide EvalBinary, CompareLiterals;
    var literal := p.literal;
    LiteralsCompared(lo, literal);
    LiteralsCompared(hi, literal);
    OrderAround(lo, literal, hi);
    if ProvesEmpty(p, ColumnStatistics(true, lo, hi)) {
      forall v | WithinBounds(lo, v, hi) ensures EvalBinary(k, p.op, v, literal, Boolean) != Bool(true) {
        LiteralsEvaluated(k, p.op, v, literal);
        OrderAround(lo, v, hi);
        OrderOfThree(lo, v, literal);
        OrderOfThree(literal, v, hi);
        OrderOfThree(v, lo, literal);
        OrderOfThree(v, hi, literal);
        OrderAround(v, literal, v);
      }
    } else {
      var v := Witness(p.op, lo, hi, literal);
      LiteralsEvaluated(k, p.op, v, literal);
      OrderAround(literal, literal, literal);
      assert WithinBounds(lo, v, hi);
    }
  }

  lemma OrderAround(a: Value, b: Value, c: Value)
    ensures ValueLess(a, b) || a == b || ValueLess(b, a)
    ensures ValueLess(b, c) || b == c || ValueLess(c, b)
    ensures !(ValueLess(a, b) && ValueLess(b, a)) && !(ValueLess(b, c) && ValueLess(c, b))
    ensures !ValueLess(a, a) && !ValueLess(b, b) && !ValueLess(c, c)
  {
    ValueLessTotal(a, b);
    ValueLessTotal(b, c);
    ValueLessTotal(a, a);
    ValueLessTotal(b, b);
    ValueLessTotal(c, c);
  }

  /** A row group is reported skipped exactly when some predicate on a column with statistics rules
      it out, and selected otherwise. */
  lemma GroupVerdict(file: seq<RowGroup>, predicates: seq<PushablePredicate>, g: RowGroup)
    requires g in file && forall a, b :: a in file && b in file && a.index == b.index ==> a == b
    ensures g.index in GroupIndices(SkippedGroups(file, predicates)) <==>
      exists p :: p in predicates && p.column in g.statistics && ProvesEmpty(p, g.statistics[p.column])
    ensures g.index in GroupIndices(SelectedGroups(file, predicates)) <==> g.index !in GroupIndices(SkippedGroups(file, predicates))
  {
    hide ProvesEmpty;
    var selected, skipped := SelectedGroups(file, predicates), SkippedGroups(file, predicates);
    MapMember((h: RowGroup) => h.index, selected, g.index);
    MapMember((h: RowGroup) => h.index, skipped, g.index);
    forall h ensures (h in selected <==> h in file && !Skippable(h, predicates)) && (h in skipped <==> h in file && Skippable(h, predicates)) {
      SelectMember((h: RowGroup) => !Skippable(h, predicates), file, h);
      SelectMember((h: RowGroup) => Skippable(h, predicates), file, h);
    }
  }
}
