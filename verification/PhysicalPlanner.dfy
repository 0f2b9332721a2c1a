/** Projection push-down (`annotate_scan`, src/optimizer/optimizer.cpp) and physical
planning (`convert`, src/io/physical_planner.cpp): scans are narrowed to the columns the
query reads, every column index above them is rewritten, and the two sides of an inner join
may be exchanged so that the smaller one is built. */
module PhysicalPlanner {
  import opened Expressions
  import opened Relational
  import opened Aggregation
  import opened JoinSemantics
  import opened LogicalPlans

  // ---------------------------------------------------------------------------
  // Required columns and pushable predicates
  // ---------------------------------------------------------------------------

  function UnwrapCast(e: Expr): Expr
  {
    if e.Cast? then UnwrapCast(e.operand) else e
  }

  function Flip(op: BinaryOp): BinaryOp
  {
    match op
    case Less => Greater
    case LessEqual => GreaterEqual
    case Greater => Less
    case GreaterEqual => LessEqual
    case _ => op
  }

  /** The conjuncts of shape `column op literal`, looking through casts. */
  function CollectPushable(e: Expr): seq<PushablePredicate>
  {
    if !e.Binary? then []
    else if e.bop.And? then CollectPushable(e.left) + CollectPushable(e.right)
    else if !IsComparison(e.bop) then []
    else
      var l, r := UnwrapCast(e.left), UnwrapCast(e.right);
      if l.Column? && r.Literal? then [Pushable(l.name, e.bop, r.value, r.typ)]
      else if r.Column? && l.Literal? then [Pushable(r.name, Flip(e.bop), l.value, l.typ)]
      else []
  }

  function ItemColumns(items: seq<NamedExpr>): set<nat>
  {
    if items == [] then {} else Columns(items[0].expr) + ItemColumns(items[1..])
  }

  function CallColumns(calls: seq<AggregateCall>): set<nat>
  {
    if calls == [] then {} else Columns(calls[0].argument) + CallColumns(calls[1..])
  }

  function KeyColumns(keys: seq<SortKey>): set<nat>
  {
    if keys == [] then {} else Columns(keys[0].expr) + KeyColumns(keys[1..])
  }

  function ResidualColumns(residual: Option<Expr>): set<nat>
  {
    if residual.Some? then Columns(residual.value) else {}
  }

  function LeftPart(columns: set<nat>, leftWidth: nat): set<nat>
  {
    set i | i in columns && i < leftWidth
  }

  function RightPart(columns: set<nat>, leftWidth: nat): set<nat>
  {
    set i | i in columns && leftWidth <= i :: i - leftWidth
  }

  /** The plan with every scan told which columns it must deliver. `required` are the columns
      demanded above `p`. None where the original fails: a demanded index that the scan's
      schema does not have. */
  function Annotate(p: Plan, required: set<nat>, pushable: seq<PushablePredicate>): Option<Plan>
  {
    match p
    case Scan(_, fields, _, _) =>
      if exists i :: i in required && |fields| <= i then None
      else Some(p.(required := (set i | i in required && i < |fields| :: fields[i].name), pushable := pushable))
    case Filter(c, condition) =>
      var overGroup := c.Group?;
      (match Annotate(c, if overGroup then required else required + Columns(condition),
                      if overGroup then pushable else pushable + CollectPushable(condition))
       case Some(c') => Some(Filter(c', condition))
       case None => None)
    case Sort(c, keys) =>
      (match Annotate(c, required + KeyColumns(keys), pushable)
       case Some(c') => Some(Sort(c', keys))
       case None => None)
    case Group(c, groupBy, calls) =>
      (match Annotate(c, required + ItemColumns(groupBy) + CallColumns(calls), pushable)
       case Some(c') => Some(Group(c', groupBy, calls))
       case None => None)
    case Project(c, items) =>
      (match Annotate(c, if c.Group? then required else required + ItemColumns(items), pushable)
       case Some(c') => Some(Project(c', items))
       case None => None)
    case Limit(c, n) =>
      (match Annotate(c, required, pushable)
       case Some(c') => Some(Limit(c', n))
       case None => None)
    case Join(l, r, leftKey, rightKey, _, residual) =>
      var all := required + ResidualColumns(residual);
      (match (Annotate(l, LeftPart(all, Width(l)) + {leftKey}, []),
              Annotate(r, RightPart(all, Width(l)) + {rightKey}, []))
       case (Some(l'), Some(r')) => Some(p.(left := l', right := r'))
       case _ => None)
  }

  // ---------------------------------------------------------------------------
  // Physical plans
  // ---------------------------------------------------------------------------

  type ColumnMap = seq<Option<nat>>

  /** `kept` lists the table columns a scan delivers; `columnMap` says where each original
      column of the node's logical row ended up, if anywhere. An aggregate node without keys
      is the scalar aggregate. */
  datatype PhysicalPlan =
    | ParquetScan(table: string, pushable: seq<PushablePredicate>, kept: seq<nat>, names: seq<string>, columnMap: ColumnMap)
    | HashJoin(left: PhysicalPlan, right: PhysicalPlan, leftKey: nat, rightKey: nat, joinType: JoinType,
               residual: Option<Expr>, columnMap: ColumnMap)
    | FilterNode(child: PhysicalPlan, condition: Expr)
    | ProjectionNode(child: PhysicalPlan, items: seq<NamedExpr>)
    | AggregateNode(child: PhysicalPlan, groupBy: seq<NamedExpr>, calls: seq<AggregateCall>)
    | SortNode(child: PhysicalPlan, keys: seq<SortKey>)
    | LimitNode(child: PhysicalPlan, count: int)

  function ItemNames(items: seq<NamedExpr>): seq<string>
  {
    Map((item: NamedExpr) => item.name, items)
  }

  function CallNames(calls: seq<AggregateCall>): seq<string>
  {
    Map((call: AggregateCall) => call.name, calls)
  }

  /** The field names of a node's output, in order. */
  function OutputNames(q: PhysicalPlan): seq<string>
  {
    match q
    case ParquetScan(_, _, _, names, _) => names
    case HashJoin(l, r, _, _, jt, _, _) =>
      if jt.LeftSemi? || jt.LeftAnti? then OutputNames(l) else OutputNames(l) + OutputNames(r)
    case FilterNode(c, _) => OutputNames(c)
    case ProjectionNode(_, items) => ItemNames(items)
    case AggregateNode(_, groupBy, calls) => ItemNames(groupBy) + CallNames(calls)
    case SortNode(c, _) => OutputNames(c)
    case LimitNode(c, _) => OutputNames(c)
  }

  function Gather(layout: seq<nat>, row: Row): Row
  {
    Map((i: nat) => At(row, i), layout)
  }

  function PhysicalSpec(q: PhysicalPlan): JoinSpec
    requires q.HashJoin?
  {
    JoinSpec(q.joinType, q.leftKey, q.rightKey, |OutputNames(q.right)|, q.residual)
  }

  function EvalPhysical(k: Kernels, tables: Tables, q: PhysicalPlan): seq<Row>
  {
    match q
    case ParquetScan(table, pushable, kept, _, _) => Map(row => Gather(kept, row), tables(table, pushable))
    case HashJoin(l, r, _, _, _, _, _) =>
      JoinRows(k, PhysicalSpec(q), EvalPhysical(k, tables, l), EvalPhysical(k, tables, r))
    case FilterNode(c, condition) => FilterRows(k, condition, EvalPhysical(k, tables, c))
    case ProjectionNode(c, items) => ProjectRows(k, items, EvalPhysical(k, tables, c))
    case AggregateNode(c, groupBy, calls) => GroupRows(k, groupBy, calls, EvalPhysical(k, tables, c))
    case SortNode(c, keys) => SortRows(k, keys, EvalPhysical(k, tables, c))
    case LimitNode(c, n) => TakeRows(n, EvalPhysical(k, tables, c))
  }

  // ---------------------------------------------------------------------------
  // Narrowing a scan
  // ---------------------------------------------------------------------------

  /** The positions below `n` whose field is required. */
  function Kept(fields: seq<Field>, required: set<string>, n: nat): seq<nat>
    requires n <= |fields|
  {
    if n == 0 then []
    else Kept(fields, required, n - 1) + if fields[n - 1].name in required then [n - 1] else []
  }

  function NarrowMap(fields: seq<Field>, required: set<string>, n: nat): ColumnMap
    requires n <= |fields|
  {
    if n == 0 then []
    else
      NarrowMap(fields, required, n - 1) +
      [if fields[n - 1].name in required then Some(|Kept(fields, required, n - 1)|) else None]
  }

  function FieldNames(fields: seq<Field>, kept: seq<nat>): seq<string>
  {
    Map((i: nat) => if i < |fields| then fields[i].name else "", kept)
  }

  /** A scan that needs no column still delivers its first, so that rows can be counted. */
  function ConvertScan(p: Plan): PhysicalPlan
    requires p.Scan?
  {
    var n := |p.fields|;
    var kept := Kept(p.fields, p.required, n);
    var columnMap := NarrowMap(p.fields, p.required, n);
    NarrowMapLength(p.fields, p.required, n);
    if kept == [] && n > 0 then
      ParquetScan(p.table, p.pushable, [0], FieldNames(p.fields, [0]), columnMap[0 := Some(0)])
    else
      ParquetScan(p.table, p.pushable, kept, FieldNames(p.fields, kept), columnMap)
  }

  lemma NarrowMapLength(fields: seq<Field>, required: set<string>, n: nat)
    requires n <= |fields|
    ensures |NarrowMap(fields, required, n)| == n
  {
  }

  /** The narrowing loop of `convert_scan`. */
  method NarrowColumns(fields: seq<Field>, required: set<string>)
    returns (kept: seq<nat>, columnMap: ColumnMap)
    ensures kept == Kept(fields, required, |fields|)
    ensures columnMap == NarrowMap(fields, required, |fields|)
  {
    kept := [];
    columnMap := [];
    for i := 0 to |fields|
      invariant kept == Kept(fields, required, i)
      invariant columnMap == NarrowMap(fields, required, i)
    {
      if fields[i].name in required {
        columnMap := columnMap + [Some(|kept|)];
        kept := kept + [i];
      } else {
        columnMap := columnMap + [None];
      }
    }
  }

  // ---------------------------------------------------------------------------
  // Index rewriting
  // ---------------------------------------------------------------------------

  function Lookup(columnMap: ColumnMap, i: nat): Option<nat>
  {
    if i < |columnMap| then columnMap[i] else None
  }

  function Remap(e: Expr, columnMap: ColumnMap): Option<Expr>
  {
    Rename(e, (i: nat) => Lookup(columnMap, i))
  }

  /** A residual condition spans both sides: below `leftCount` it reads the left map, above it
      the right one, and the right side starts at the left's narrowed width. */
  function ResidualIndex(left: ColumnMap, right: ColumnMap, leftNarrowed: nat, i: nat): Option<nat>
  {
    if i < |left| then left[i]
    else
      var found := Lookup(right, i - |left|);
      if found.Some? then Some(leftNarrowed + found.value) else None
  }

  function ResolveResidual(left: ColumnMap, right: ColumnMap, leftNarrowed: nat): nat -> Option<nat>
  {
    (i: nat) => ResidualIndex(left, right, leftNarrowed, i)
  }

  function RemapItems(items: seq<NamedExpr>, columnMap: ColumnMap): Option<seq<NamedExpr>>
  {
    if items == [] then Some([])
    else
      match (Remap(items[0].expr, columnMap), RemapItems(items[1..], columnMap))
      case (Some(e), Some(rest)) => Some([NamedExpr(e, items[0].name)] + rest)
      case _ => None
  }

  function RemapCalls(calls: seq<AggregateCall>, columnMap: ColumnMap): Option<seq<AggregateCall>>
  {
    if calls == [] then Some([])
    else
      match (Remap(calls[0].argument, columnMap), RemapCalls(calls[1..], columnMap))
      case (Some(e), Some(rest)) => Some([AggregateCall(calls[0].func, e, calls[0].name)] + rest)
      case _ => None
  }

  function RemapKeys(keys: seq<SortKey>, columnMap: ColumnMap): Option<seq<SortKey>>
  {
    if keys == [] then Some([])
    else
      match (Remap(keys[0].expr, columnMap), RemapKeys(keys[1..], columnMap))
      case (Some(e), Some(rest)) => Some([SortKey(e, keys[0].ascending)] + rest)
      case _ => None
  }

  function IdentityMap(n: nat): ColumnMap
  {
    seq(n, i => Some(i))
  }

  /** The column map expressions directly above `q` must be rewritten through. */
  function Boundary(q: PhysicalPlan): ColumnMap
  {
    match q
    case ParquetScan(_, _, _, _, columnMap) => columnMap
    case HashJoin(_, _, _, _, _, _, columnMap) => columnMap
    case ProjectionNode(_, _) => IdentityMap(|OutputNames(q)|)
    case AggregateNode(_, _, _) => IdentityMap(|OutputNames(q)|)
    case FilterNode(c, _) => Boundary(c)
    case SortNode(c, _) => Boundary(c)
    case LimitNode(c, _) => Boundary(c)
  }

  /** Whether expressions over `p` are indexed by the pre-narrowing scan row. */
  predicate ReferencesScanSchema(p: Plan)
  {
    match p
    case Sort(c, _) => ReferencesScanSchema(c)
    case Limit(c, _) => ReferencesScanSchema(c)
    case Filter(c, _) => !c.Group?
    case Scan(_, _, _, _) => true
    case Join(_, _, _, _, _, _) => true
    case _ => false
  }

  predicate IsIdentityProjection(items: seq<NamedExpr>, names: seq<string>)
  {
    && |items| == |names|
    && forall i :: 0 <= i < |items| ==>
         items[i].expr.Column? && items[i].expr.index == i && items[i].name == names[i]
  }

  function OffsetEntry(entry: Option<nat>, offset: nat): Option<nat>
  {
    if entry.Some? then Some(offset + entry.value) else None
  }

  function Offset(columnMap: ColumnMap, offset: nat): ColumnMap
  {
    seq(|columnMap|, (i: nat) requires i < |columnMap| => OffsetEntry(columnMap[i], offset))
  }

  type Estimates = PhysicalPlan -> Option<int>

  /** Only an inner join is ever built on its left input. */
  predicate SwapsSides(joinType: JoinType, estimates: Estimates, left: PhysicalPlan, right: PhysicalPlan)
  {
    var l, r := estimates(left), estimates(right);
    joinType.Inner? && l.Some? && r.Some? && l.value < r.value
  }

  function CombinedMap(joinType: JoinType, swap: bool, left: PhysicalPlan, right: PhysicalPlan): ColumnMap
  {
    var leftOffset := if swap then |OutputNames(right)| else 0;
    var rightOffset := if swap then 0 else |OutputNames(left)|;
    Offset(Boundary(left), leftOffset) +
    if joinType.LeftSemi? || joinType.LeftAnti? then [] else Offset(Boundary(right), rightOffset)
  }

  /** The join node over two converted children; none where the original reports an internal
      error because a key or residual column was pruned. */
  function ConvertJoin(p: Plan, estimates: Estimates, left: PhysicalPlan, right: PhysicalPlan): Option<PhysicalPlan>
    requires p.Join?
  {
    var leftMap, rightMap := Boundary(left), Boundary(right);
    match (Lookup(leftMap, p.leftKey), Lookup(rightMap, p.rightKey))
    case (Some(lk), Some(rk)) =>
      var swap := SwapsSides(p.joinType, estimates, left, right);
      var columnMap := CombinedMap(p.joinType, swap, left, right);
      var residual :=
        if p.residual.None? then Some(None)
        else match Rename(p.residual.value, ResolveResidual(leftMap, rightMap, |OutputNames(left)|))
             case Some(e) => Some(Some(e))
             case None => None;
      if residual.None? then None
      else if swap then Some(HashJoin(right, left, rk, lk, p.joinType, residual.value, columnMap))
      else Some(HashJoin(left, right, lk, rk, p.joinType, residual.value, columnMap))
    case _ => None
  }

  function Convert(p: Plan, estimates: Estimates): Option<PhysicalPlan>
  {
    match p
    case Scan(_, _, _, _) => Some(ConvertScan(p))
    case Join(l, r, _, _, _, _) =>
      (match (Convert(l, estimates), Convert(r, estimates))
       case (Some(l'), Some(r')) => ConvertJoin(p, estimates, l', r')
       case _ => None)
    case Filter(c, condition) =>
      (match Convert(c, estimates)
       case None => None
       case Some(q) =>
         match if ReferencesScanSchema(c) then Remap(condition, Boundary(q)) else Some(condition)
         case Some(e) => Some(FilterNode(q, e))
         case None => None)
    case Project(c, items) =>
      (match Convert(c, estimates)
       case None => None
       case Some(q) =>
         match if ReferencesScanSchema(c) then RemapItems(items, Boundary(q)) else Some(items)
         case None => None
         case Some(remapped) =>
           if IsIdentityProjection(remapped, OutputNames(q)) then Some(q) else Some(ProjectionNode(q, remapped)))
    case Group(c, groupBy, calls) =>
      (match Convert(c, estimates)
       case None => None
       case Some(q) =>
         var remap := ReferencesScanSchema(c);
         match (if remap then RemapItems(groupBy, Boundary(q)) else Some(groupBy),
                if remap then RemapCalls(calls, Boundary(q)) else Some(calls))
         case (Some(g), Some(a)) => Some(AggregateNode(q, g, a))
         case _ => None)
    case Sort(c, keys) =>
      (match Convert(c, estimates)
       case None => None
       case Some(q) =>
         match if ReferencesScanSchema(c) then RemapKeys(keys, Boundary(q)) else Some(keys)
         case Some(remapped) => Some(SortNode(q, remapped))
         case None => None)
    case Limit(c, n) =>
      (match Convert(c, estimates)
       case Some(q) => Some(LimitNode(q, n))
       case None => None)
  }
}
