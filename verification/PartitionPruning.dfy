/** Skipping Iceberg data files by their partition values (src/iceberg/partition_pruning.cpp):
the literal of a predicate is put through the partition transform and compared with the
file's value. The year, month, day and hour transforms are monotone, so a matching row
never lies in a file that is skipped. */
module PartitionPruning {
  import opened Expressions
  import opened Aggregation
  import opened LogicalPlans
  import opened Rounding
  import opened Calendar
  import opened ParquetPruning

  const MICROS_PER_DAY: int := 86_400_000_000
  const MICROS_PER_HOUR: int := 3_600_000_000

  /** `floor_div`, from a division that truncates toward zero. */
  function FloorDiv(a: int, b: int): (q: int)
    requires b > 0
    ensures q * b <= a < q * b + b
  {
    var q := TruncDiv(a, b);
    var r := a - q * b;
    if r != 0 && ((r < 0) != (b < 0)) then q - 1 else q
  }

  lemma FloorDivMonotone(a: int, a': int, b: int)
    requires b > 0 && a <= a'
    ensures FloorDiv(a, b) <= FloorDiv(a', b)
  {
    hide FloorDiv;
    var q, q' := FloorDiv(a, b), FloorDiv(a', b);
    if q > q' {
      Scale(q' + 1, q, b);
    }
  }

  // ---------------------------------------------------------------------------
  // Transforms
  // ---------------------------------------------------------------------------

  /** The day number of a date or of a timestamp in microseconds. */
  function DaysOf(raw: int, typ: TypeId): Option<int>
  {
    if typ.Date32? then Some(raw)
    else if typ.Timestamp? then Some(FloorDiv(raw, MICROS_PER_DAY))
    else None
  }

  predicate IsTimeTransform(transform: string)
  {
    transform == "year" || transform == "month" || transform == "day" || transform == "hour"
  }

  /** What the Iceberg table specification assigns to a date or timestamp. */
  ghost function TimeValue(transform: string, raw: int, typ: TypeId): Option<int>
  {
    if transform == "hour" then
      if typ.Timestamp? then Some(FloorDiv(raw, MICROS_PER_HOUR)) else None
    else
      match DaysOf(raw, typ)
      case None => None
      case Some(days) =>
        if transform == "day" then Some(days)
        else if transform == "month" then Some(MonthOrdinal(days))
        else if transform == "year" then Some(YearOrdinal(days))
        else None
  }

  lemma QuotientIs(q: int, rest: int, b: int)
    requires b > 0 && 0 <= rest < b
    ensures FloorDiv(q * b + rest, b) == q
  {
    hide FloorDiv;
    var f := FloorDiv(q * b + rest, b);
    if f < q { Scale(f + 1, q, b); }
    if f > q { Scale(q + 1, f, b); }
  }

  /** The partition values of a date, and of any microsecond of any hour of it. */
  lemma DateParts(year: int, month: int, day: int, hour: int, rest: int)
    requires ValidDate(year, month, day) && 0 <= hour < 24 && 0 <= rest < 60 * 60 * 1_000_000
    ensures var d := DayNumber(year, month, day);
            var micros := (d * 24 + hour) * 60 * 60 * 1_000_000 + rest;
            && TimeValue("hour", micros, Timestamp) == Some(d * 24 + hour) && TimeValue("hour", d, Date32) == None
            && TimeValue("day", micros, Timestamp) == TimeValue("day", d, Date32) == Some(d)
            && TimeValue("month", micros, Timestamp) == TimeValue("month", d, Date32) == Some(12 * (year - 1970) + month - 1)
            && TimeValue("year", micros, Timestamp) == TimeValue("year", d, Date32) == Some(year - 1970)
  {
    hide FloorDiv;
    var d := DayNumber(year, month, day);
    var micros := (d * 24 + hour) * 60 * 60 * 1_000_000 + rest;
    QuotientIs(d * 24 + hour, rest, MICROS_PER_HOUR);
    QuotientIs(d, hour * 60 * 60 * 1_000_000 + rest, MICROS_PER_DAY);
    assert FloorDiv(micros, MICROS_PER_DAY) == d;
    CivilInverse(year, month, day);
  }

  method ApplyTimeTransform(transform: string, literal: Value, typ: TypeId) returns (result: Option<int>)
    ensures result == if literal.Int? then TimeValue(transform, literal.i, typ) else None
  {
    if !literal.Int? {
      return None;
    }
    if transform == "hour" {
      return if typ.Timestamp? then Some(FloorDiv(literal.i, MICROS_PER_HOUR)) else None;
    }
    var days := DaysOf(literal.i, typ);
    if days.None? {
      return None;
    }
    if transform == "day" {
      return days;
    }
    var civil := CivilFromDays(days.value);
    InMonthUnique(days.value, civil.year, civil.month, CivilOf(days.value).year, CivilOf(days.value).month);
    if transform == "month" {
      return Some((civil.year - 1970) * 12 + (civil.month - 1));
    }
    if transform == "year" {
      return Some(civil.year - 1970);
    }
    return None;
  }

  /** The partition value of `v` under a transform; None for bucket, truncate, void and
      anything unknown. */
  ghost function TransformValue(transform: string, v: Value, typ: TypeId): Option<Value>
  {
    if transform == "identity" then Some(v)
    else if IsTimeTransform(transform) && v.Int? then
      match TimeValue(transform, v.i, typ)
      case Some(t) => Some(Int(t))
      case None => None
    else None
  }

  method ApplyTransform(transform: string, literal: Value, typ: TypeId) returns (result: Option<Value>)
    ensures result == TransformValue(transform, literal, typ)
  {
    if transform == "identity" {
      return Some(literal);
    }
    if transform == "year" || transform == "month" || transform == "day" || transform == "hour" {
      var value := ApplyTimeTransform(transform, literal, typ);
      return if value.Some? then Some(Int(value.value)) else None;
    }
    return None;
  }

  /** Every time transform is monotone, over all integers. */
  lemma TimeMonotone(transform: string, a: int, b: int, typ: TypeId)
    requires a <= b && TimeValue(transform, a, typ).Some?
    ensures TimeValue(transform, b, typ).Some?
    ensures TimeValue(transform, a, typ).value <= TimeValue(transform, b, typ).value
  {
    FloorDivMonotone(a, b, MICROS_PER_HOUR);
    FloorDivMonotone(a, b, MICROS_PER_DAY);
    if transform != "hour" {
      OrdinalsMonotone(DaysOf(a, typ).value, DaysOf(b, typ).value);
    }
  }

  /** Hours and days of a 64-bit timestamp are exact as doubles. */
  lemma TimestampValuesExact(raw: int)
    requires InInt64(raw)
    ensures -TWO53 < FloorDiv(raw, MICROS_PER_HOUR) < TWO53 && -TWO53 < FloorDiv(raw, MICROS_PER_DAY) < TWO53
    ensures RoundToDouble(FloorDiv(raw, MICROS_PER_HOUR)) == FloorDiv(raw, MICROS_PER_HOUR)
    ensures RoundToDouble(FloorDiv(raw, MICROS_PER_DAY)) == FloorDiv(raw, MICROS_PER_DAY)
  {
    RoundExact(FloorDiv(raw, MICROS_PER_HOUR));
    RoundExact(FloorDiv(raw, MICROS_PER_DAY));
  }

  // ---------------------------------------------------------------------------
  // One field and one predicate
  // ---------------------------------------------------------------------------

  /** Unlike the row-group check, this comparison knows no Booleans. */
  function ComparePartition(a: Value, b: Value): Option<int>
  {
    if a.Bool? || b.Bool? then None else CompareLiterals(a, b)
  }

  /** `cmp` compares the file's value with the transformed literal. Under a coarsening
      transform, equal values say nothing about a strict comparison. */
  predicate CmpProvesEmpty(op: BinaryOp, cmp: int, isIdentity: bool)
  {
    match op
    case Equal => cmp != 0
    case NotEqual => isIdentity && cmp == 0
    case Less => if isIdentity then cmp >= 0 else cmp > 0
    case LessEqual => cmp > 0
    case Greater => if isIdentity then cmp <= 0 else cmp < 0
    case GreaterEqual => cmp < 0
    case _ => false
  }

  ghost predicate FieldProves(transform: string, partitionValue: Value, p: PushablePredicate)
  {
    (partitionValue.Int? || partitionValue.Str?) && !p.literal.Null? &&
    match TransformValue(transform, p.literal, p.literalType)
    case None => false
    case Some(t) =>
      match ComparePartition(partitionValue, t)
      case Some(cmp) => CmpProvesEmpty(p.op, cmp, transform == "identity")
      case None => false
  }

  /** A strict comparison of an identity-partitioned integer column needs a literal that
      rounding keeps apart from its neighbours. */
  ghost predicate PreciseFor(transform: string, v: Value, p: PushablePredicate)
  {
    transform == "identity" && v.Int? && p.literal.Int? ==>
      InInt64(v.i) && InInt64(p.literal.i) && Distinguishes(p.op, p.literal.i)
  }

  /** A row that satisfies the predicate is not in a file that the field excludes. */
  lemma FieldSound(k: Kernels, transform: string, v: Value, partitionValue: Value, p: PushablePredicate)
    requires IeeeConversion(k) && PreciseFor(transform, v, p)
    requires TransformValue(transform, v, p.literalType) == Some(partitionValue)
    requires EvalBinary(k, p.op, v, p.literal, Boolean) == Bool(true) && IsComparison(p.op)
    ensures !FieldProves(transform, partitionValue, p)
  {
    if transform == "identity" {
      if FieldProves(transform, v, p) {
        IdentitySound(k, v, p);
      }
    } else if FieldProves(transform, partitionValue, p) {
      var a, b := v.i, p.literal.i;
      var ta, tb := TimeValue(transform, a, p.literalType).value, TimeValue(transform, b, p.literalType).value;
      if a <= b {
        TimeMonotone(transform, a, b, p.literalType);
        RoundedOrder(ta, tb);
      }
      if b <= a {
        TimeMonotone(transform, b, a, p.literalType);
        RoundedOrder(tb, ta);
      }
    }
  }

  lemma IdentitySound(k: Kernels, v: Value, p: PushablePredicate)
    requires IeeeConversion(k) && PreciseFor("identity", v, p) && IsComparison(p.op)
    requires EvalBinary(k, p.op, v, p.literal, Boolean) == Bool(true)
    ensures !FieldProves("identity", v, p)
  {
    if v.Int? && p.literal.Int? {
      RoundedOrder(v.i, p.literal.i);
      RoundedOrder(p.literal.i, v.i);
      DistinguishedOrder(p.op, p.literal.i, v.i);
    } else if v.Str? && p.literal.Str? {
      StringLessTotal(v.s, p.literal.s);
    }
  }

  /** Identity on integers needs the side condition: at 2^53 the file holding exactly
      2^53 + 1 is skipped for `> 2^53`. */
  lemma IdentityWronglySkipped(k: Kernels)
    ensures var p := Pushable("v", Greater, Int(TWO53), Int64);
            EvalBinary(k, p.op, Int(TWO53 + 1), p.literal, Boolean) == Bool(true) && FieldProves("identity", Int(TWO53 + 1), p)
  {
    RoundMerges();
    RoundExact(TWO53);
  }

  /** What the identity check claims about a file whose rows all hold `v`. */
  ghost predicate IdentityClaim(op: BinaryOp, literal: int, v: int)
  {
    InInt64(v) && IntSatisfies(op, v, literal) ==> !FieldProves("identity", Int(v), Pushable("", op, Int(literal), Int64))
  }

  /** The identity check on integers is right about every file exactly when rounding keeps the
      literal apart from its neighbours. */
  lemma IdentityExact(op: BinaryOp, literal: int)
    requires IsComparison(op) && InInt64(literal)
    ensures (forall v :: IdentityClaim(op, literal, v)) <==> Distinguishes(op, literal)
  {
    if Distinguishes(op, literal) {
      forall v ensures IdentityClaim(op, literal, v) {
        IdentityHolds(op, literal, v);
      }
    } else {
      IdentityFails(op, literal);
    }
  }

  lemma IdentityHolds(op: BinaryOp, literal: int, v: int)
    requires InInt64(literal) && Distinguishes(op, literal)
    ensures IdentityClaim(op, literal, v)
  {
    hide RoundToDouble;
    RoundedOrder(v, literal);
    RoundedOrder(literal, v);
    if InInt64(v) {
      DistinguishedOrder(op, literal, v);
    }
  }

  lemma IdentityFails(op: BinaryOp, literal: int)
    requires IsComparison(op) && InInt64(literal) && !Distinguishes(op, literal)
    ensures exists v :: !IdentityClaim(op, literal, v)
  {
    hide RoundToDouble;
    RoundMonotone(literal - 1, literal);
    RoundMonotone(literal, literal + 1);
    if (op.Less? || op.NotEqual?) && literal > INT64_MIN && RoundToDouble(literal - 1) == RoundToDouble(literal) {
      assert !IdentityClaim(op, literal, literal - 1);
    } else {
      assert !IdentityClaim(op, literal, literal + 1);
    }
  }

  // ---------------------------------------------------------------------------
  // Whole files
  // ---------------------------------------------------------------------------

  datatype PartitionField = PartitionField(sourceId: int, transform: string)

  datatype SchemaField = SchemaField(id: int, name: string)

  /** The name of the first schema field with that id, or the empty string. */
  function SourceColumnName(schema: seq<SchemaField>, id: int): string
  {
    if schema == [] then "" else if schema[0].id == id then schema[0].name else SourceColumnName(schema[1..], id)
  }

  ghost predicate PairProves(schema: seq<SchemaField>, field: PartitionField, partitionValue: Value,
                             p: PushablePredicate)
  {
    var column := SourceColumnName(schema, field.sourceId);
    column != "" && p.column == column && FieldProves(field.transform, partitionValue, p)
  }

  method FieldProvesAny(schema: seq<SchemaField>, field: PartitionField, partitionValue: Value,
                        predicates: seq<PushablePredicate>)
    returns (empty: bool)
    ensures empty <==> exists p :: p in predicates && PairProves(schema, field, partitionValue, p)
  {
    var column := SourceColumnName(schema, field.sourceId);
    if column == "" || !(partitionValue.Int? || partitionValue.Str?) {
      return false;
    }
    for j := 0 to |predicates|
      invariant forall p :: p in predicates[..j] ==> !PairProves(schema, field, partitionValue, p)
    {
      var p := predicates[j];
      assert p in predicates && predicates[..j + 1] == predicates[..j] + [p];
      if p.column == column && !p.literal.Null? {
        var t := ApplyTransform(field.transform, p.literal, p.literalType);
        if t.Some? {
          var cmp := ComparePartition(partitionValue, t.value);
          if cmp.Some? && CmpProvesEmpty(p.op, cmp.value, field.transform == "identity") {
            return true;
          }
        }
      }
    }
    assert predicates[..|predicates|] == predicates;
    return false;
  }

  /** `partition_values_prove_empty`. Extra fields or values beyond the shorter list are ignored. */
  method PartitionValuesProveEmpty(schema: seq<SchemaField>, fields: seq<PartitionField>, values: seq<Value>,
                                   predicates: seq<PushablePredicate>) returns (empty: bool)
    ensures empty <==> exists i, p :: 0 <= i < |fields| && i < |values| && p in predicates
                                    && PairProves(schema, fields[i], values[i], p)
  {
    var count := if |fields| < |values| then |fields| else |values|;
    for i := 0 to count
      invariant forall j, p :: 0 <= j < i && p in predicates ==> !PairProves(schema, fields[j], values[j], p)
    {
      var found := FieldProvesAny(schema, fields[i], values[i], predicates);
      if found {
        return true;
      }
    }
    return false;
  }

  /** A column value and the partition value a file holding it was given. Only integers have
      time transforms; NULL and unknown transforms are not constrained. */
  ghost predicate Placed(transform: string, v: Value, typ: TypeId, partitionValue: Value)
  {
    v.Null? || ((IsTimeTransform(transform) ==> v.Int?) && TransformValue(transform, v, typ) in {None, Some(partitionValue)})
  }

  /** The file's partition values are those of the row. */
  ghost predicate InPartition(schema: seq<SchemaField>, fields: seq<PartitionField>, values: seq<Value>,
                              row: string -> Value, types: string -> TypeId)
  {
    forall i :: 0 <= i < |fields| && i < |values| ==>
      var column := SourceColumnName(schema, fields[i].sourceId);
      Placed(fields[i].transform, row(column), types(column), values[i])
  }

  /** A placed row that satisfies the predicate is not in a file that the field excludes. */
  lemma PlacedSound(k: Kernels, transform: string, v: Value, partitionValue: Value, p: PushablePredicate)
    requires IeeeConversion(k) && PreciseFor(transform, v, p) && Placed(transform, v, p.literalType, partitionValue)
    requires EvalBinary(k, p.op, v, p.literal, Boolean) == Bool(true) && IsComparison(p.op)
    ensures !FieldProves(transform, partitionValue, p)
  {
    if TransformValue(transform, v, p.literalType).Some? {
      FieldSound(k, transform, v, partitionValue, p);
    } else {
      assert TransformValue(transform, p.literal, p.literalType).None?;
    }
  }

  /** Only the time transforms look at the type. */
  lemma PlacedAnyType(transform: string, v: Value, typ: TypeId, typ': TypeId, partitionValue: Value)
    requires Placed(transform, v, typ, partitionValue) && (IsTimeTransform(transform) ==> typ == typ')
    ensures Placed(transform, v, typ', partitionValue)
  {
  }

  /** The predicates on a time-partitioned column have the column's type. On other columns a
      predicate may have any literal type. */
  ghost predicate TimeTyped(schema: seq<SchemaField>, fields: seq<PartitionField>, predicates: seq<PushablePredicate>,
                            types: string -> TypeId)
  {
    forall i, p | 0 <= i < |fields| && p in predicates && SourceColumnName(schema, fields[i].sourceId) == p.column ::
      IsTimeTransform(fields[i].transform) ==> p.literalType == types(p.column)
  }

  /** If some row of the file satisfies all the predicates, the file is not skipped. */
  lemma PartitionPruningSound(k: Kernels, schema: seq<SchemaField>, fields: seq<PartitionField>, values: seq<Value>,
                              predicates: seq<PushablePredicate>, row: string -> Value, types: string -> TypeId)
    requires IeeeConversion(k) && InPartition(schema, fields, values, row, types)
    requires TimeTyped(schema, fields, predicates, types)
    requires forall p :: p in predicates ==>
      && IsComparison(p.op)
      && EvalBinary(k, p.op, row(p.column), p.literal, Boolean) == Bool(true)
    requires forall i, p :: 0 <= i < |fields| && p in predicates ==> PreciseFor(fields[i].transform, row(p.column), p)
    ensures !exists i, p :: 0 <= i < |fields| && i < |values| && p in predicates && PairProves(schema, fields[i], values[i], p)
  {
    hide FieldProves, PreciseFor, Placed, EvalBinary, IeeeConversion;
    forall i, p | 0 <= i < |fields| && i < |values| && p in predicates
      ensures !PairProves(schema, fields[i], values[i], p)
    {
      var column := SourceColumnName(schema, fields[i].sourceId);
      if p.column == column {
        assert Placed(fields[i].transform, row(column), types(column), values[i]);
        PlacedAnyType(fields[i].transform, row(column), types(column), p.literalType, values[i]);
        PlacedSound(k, fields[i].transform, row(column), values[i], p);
      }
    }
  }

  // ---------------------------------------------------------------------------
  // Nothing is read that the partition values rule out
  // ---------------------------------------------------------------------------

  /** An identity-partitioned file is skipped exactly when its value does not satisfy the comparison. */
  lemma IdentityComplete(k: Kernels, v: Value, p: PushablePredicate)
    requires IsComparison(p.op) && (v.Int? || v.Str?) && SameKind(v, p.literal)
    requires v.Int? ==> -TWO53 < p.literal.i < TWO53
    ensures FieldProves("identity", v, p) <==> EvalBinary(k, p.op, v, p.literal, Boolean) != Bool(true)
  {
    hide CompareLiterals, EvalBinary;
    LiteralsCompared(v, p.literal);
    LiteralsEvaluated(k, p.op, v, p.literal);
    OrderAround(v, p.literal, v);
  }

  /** A microsecond whose successor has the same partition value. */
  lemma TwoOfKind(transform: string, raw: int) returns (first: int)
    requires IsTimeTransform(transform)
    ensures TimeValue(transform, first, Timestamp) == TimeValue(transform, raw, Timestamp)
    ensures TimeValue(transform, first + 1, Timestamp) == TimeValue(transform, raw, Timestamp)
  {
    hide FloorDiv;
    var unit := if transform == "hour" then MICROS_PER_HOUR else MICROS_PER_DAY;
    var q := FloorDiv(raw, unit);
    first := q * unit;
    QuotientIs(q, 0, unit);
    QuotientIs(q, 1, unit);
  }

  /** Some microseconds with these partition values satisfy the comparison. */
  ghost predicate CanSatisfy(transform: string, op: BinaryOp, file: int, literal: int)
  {
    exists a, b :: TimeValue(transform, a, Timestamp) == Some(file) && TimeValue(transform, b, Timestamp) == Some(literal)
                && IntSatisfies(op, a, b)
  }

  lemma SmallerFirst(transform: string, a: int, b: int)
    requires IsTimeTransform(transform)
    ensures TimeValue(transform, a, Timestamp).Some? && TimeValue(transform, b, Timestamp).Some?
    ensures TimeValue(transform, a, Timestamp).value < TimeValue(transform, b, Timestamp).value ==> a < b
  {
    if b <= a { TimeMonotone(transform, b, a, Timestamp); }
  }

  lemma SmallCompared(x: int, y: int)
    requires -TWO53 < y < TWO53
    ensures ComparePartition(Int(x), Int(y)) == Some(if x < y then -1 else if x > y then 1 else 0)
  {
    IntegersCompared(x, y);
  }

  lemma {:induction false} SatisfyingPair(transform: string, op: BinaryOp, x: int, literal: int)
    requires IsTimeTransform(transform) && IsComparison(op)
    requires TimeValue(transform, x, Timestamp).Some? && TimeValue(transform, literal, Timestamp).Some?
    ensures var file, t := TimeValue(transform, x, Timestamp).value, TimeValue(transform, literal, Timestamp).value;
            CanSatisfy(transform, op, file, t) <==>
            !CmpProvesEmpty(op, if file < t then -1 else if file > t then 1 else 0, false)
  {
    hide TimeValue, FloorDiv;
    var file, t := TimeValue(transform, x, Timestamp).value, TimeValue(transform, literal, Timestamp).value;
    SmallerFirst(transform, x, literal);
    SmallerFirst(transform, literal, x);
    var first := TwoOfKind(transform, literal);
    if CanSatisfy(transform, op, file, t) {
      var a, b :| TimeValue(transform, a, Timestamp) == Some(file) && TimeValue(transform, b, Timestamp) == Some(t)
        && IntSatisfies(op, a, b);
      SmallerFirst(transform, a, b);
      SmallerFirst(transform, b, a);
    }
    if file == t {
      assert IntSatisfies(op, first, first) || IntSatisfies(op, first, first + 1) || IntSatisfies(op, first + 1, first);
    } else if IntSatisfies(op, x, literal) {
      assert CanSatisfy(transform, op, file, t);
    }
  }

  /** A file partitioned by a time transform of a timestamp is skipped exactly when no row with its
      partition value could satisfy the comparison with a literal of that partition value. */
  lemma TimeComplete(transform: string, x: int, p: PushablePredicate)
    requires IsTimeTransform(transform) && IsComparison(p.op) && p.literal.Int? && p.literalType.Timestamp?
    requires TimeValue(transform, x, Timestamp).Some? && TimeValue(transform, p.literal.i, Timestamp).Some?
    requires -TWO53 < TimeValue(transform, p.literal.i, Timestamp).value < TWO53
    ensures var file, t := TimeValue(transform, x, Timestamp).value, TimeValue(transform, p.literal.i, Timestamp).value;
            FieldProves(transform, Int(file), p) <==> !CanSatisfy(transform, p.op, file, t)
  {
    hide CanSatisfy, TimeValue, CompareLiterals;
    SatisfyingPair(transform, p.op, x, p.literal.i);
    SmallCompared(TimeValue(transform, x, Timestamp).value, TimeValue(transform, p.literal.i, Timestamp).value);
    assert transform != "identity";
  }

  /** Buckets, truncation and any unknown transform rule nothing out, nor does a file without a
      comparable partition value. */
  lemma OthersProveNothing(transform: string, v: Value, p: PushablePredicate)
    requires transform !in {"identity", "year", "month", "day", "hour"} || v.Null? || p.literal.Null?
    ensures !FieldProves(transform, v, p)
  {
  }

  /** The source column of a field is the first schema field with its id. */
  lemma {:induction false} SourceColumnFound(schema: seq<SchemaField>, id: int, i: nat)
    requires i < |schema| && schema[i].id == id && forall j :: 0 <= j < i ==> schema[j].id != id
    ensures SourceColumnName(schema, id) == schema[i].name
  {
    if i > 0 { SourceColumnFound(schema[1..], id, i - 1); }
  }
}
