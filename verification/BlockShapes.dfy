/** The shapes of query plans: scan blocks, query blocks above them, and what the planner's
re-indexing depends on. All of it is read off the logical plan alone. */
module BlockShapes {
  import opened Expressions
  import opened Relational
  import opened JoinSemantics
  import opened LogicalPlans
  import opened PhysicalPlanner

  /** Every expression in `p` is indexed by the combined row of the scans below it. */
  predicate ScanBlock(p: Plan)
  {
    match p
    case Scan(_, _, _, _) => true
    case Join(l, r, _, _, jt, residual) =>
      ScanBlock(l) && ScanBlock(r) && (residual.Some? ==> jt.LeftSemi? || jt.LeftAnti?)
    case Filter(c, _) => ScanBlock(c)
    case Sort(c, _) => ScanBlock(c)
    case Limit(c, _) => ScanBlock(c)
    case _ => false
  }

  /** A scan block with any projections, aggregations, filters and sorts above it. */
  predicate SingleBlock(p: Plan)
  {
    match p
    case Scan(_, _, _, _) => true
    case Join(_, _, _, _, _, _) => ScanBlock(p)
    case Filter(c, _) => SingleBlock(c)
    case Project(c, _) => SingleBlock(c)
    case Group(c, _, _) => SingleBlock(c)
    case Sort(c, _) => SingleBlock(c)
    case Limit(c, _) => SingleBlock(c)
  }

  predicate LimitFree(p: Plan)
  {
    match p
    case Scan(_, _, _, _) => true
    case Join(l, r, _, _, _, _) => LimitFree(l) && LimitFree(r)
    case Filter(c, _) => LimitFree(c)
    case Project(c, _) => LimitFree(c)
    case Group(c, _, _) => LimitFree(c)
    case Sort(c, _) => LimitFree(c)
    case Limit(_, _) => false
  }

  /** The scan block at the bottom of a query block. */
  function Block(p: Plan): (b: Plan)
    requires SingleBlock(p)
    ensures ScanBlock(b)
  {
    if ScanBlock(p) then p else Block(p.child)
  }

  lemma ScanBlockReferences(p: Plan)
    requires ScanBlock(p)
    ensures SingleBlock(p) && ReferencesScanSchema(p)
  {
  }

  // ---------------------------------------------------------------------------
  // Column indices
  // ---------------------------------------------------------------------------

  ghost predicate Within(columns: set<nat>, n: nat)
  {
    forall i :: i in columns ==> i < n
  }

  /** Every column index is valid for the row it reads; the binder resolves them all. */
  ghost predicate InRange(p: Plan)
  {
    match p
    case Scan(_, _, _, _) => true
    case Join(l, r, lk, rk, _, residual) =>
      && InRange(l) && InRange(r) && lk < Width(l) && rk < Width(r)
      && Within(ResidualColumns(residual), Width(l) + Width(r))
    case Filter(c, condition) => InRange(c) && Within(Columns(condition), Width(c))
    case Project(c, items) => InRange(c) && Within(ItemColumns(items), Width(c))
    case Group(c, groupBy, calls) =>
      InRange(c) && Within(ItemColumns(groupBy), Width(c)) && Within(CallColumns(calls), Width(c))
    case Sort(c, keys) => InRange(c) && Within(KeyColumns(keys), Width(c))
    case Limit(c, _) => InRange(c)
  }

  // ---------------------------------------------------------------------------
  // Derived tables read by position
  // ---------------------------------------------------------------------------

  /** The field names the converted plan can have. */
  function NamesOf(p: Plan): set<string>
  {
    match p
    case Scan(_, fields, _, _) => set f | f in fields :: f.name
    case Join(l, r, _, _, jt, _) => if jt.LeftSemi? || jt.LeftAnti? then NamesOf(l) else NamesOf(l) + NamesOf(r)
    case Filter(c, _) => NamesOf(c)
    case Project(_, items) => set item | item in items :: item.name
    case Group(_, groupBy, calls) => (set item | item in groupBy :: item.name) + (set call | call in calls :: call.name)
    case Sort(c, _) => NamesOf(c)
    case Limit(c, _) => NamesOf(c)
  }

  /** The columns the expressions of one node read. */
  function NodeColumns(p: Plan): set<nat>
  {
    match p
    case Filter(_, condition) => Columns(condition)
    case Project(_, items) => ItemColumns(items)
    case Group(_, groupBy, calls) => ItemColumns(groupBy) + CallColumns(calls)
    case Sort(_, keys) => KeyColumns(keys)
    case _ => {}
  }

  /** Item `i` is column `i`. */
  predicate Aligned(items: seq<NamedExpr>)
  {
    forall i :: 0 <= i < |items| ==> items[i].expr.Column? && items[i].expr.index == i
  }

  predicate AlignedAt(items: seq<NamedExpr>, columns: set<nat>)
  {
    forall i :: i in columns ==> i < |items| && items[i].expr.Column? && items[i].expr.index == i
  }

  /** Some item has a name that is new, so the projection cannot be dropped as an identity. */
  predicate Renames(items: seq<NamedExpr>, names: set<string>)
  {
    exists item :: item in items && item.name !in names
  }

  /** These columns of `p` keep their positions even if the planner re-indexes them through the
      column map it finds below `p`. */
  predicate KeepsColumns(p: Plan, columns: set<nat>)
  {
    match p
    case Group(_, _, _) => true
    case Project(c, items) =>
      Renames(items, NamesOf(c)) || if ScanBlock(c) then AlignedAt(items, columns) else KeepsColumns(c, columns)
    case Filter(c, _) => KeepsColumns(c, columns)
    case Sort(c, _) => KeepsColumns(c, columns)
    case Limit(c, _) => KeepsColumns(c, columns)
    case _ => false
  }

  lemma {:induction false} KeepsFewer(p: Plan, more: set<nat>, fewer: set<nat>)
    requires KeepsColumns(p, more) && fewer <= more
    ensures KeepsColumns(p, fewer)
  {
    if p.Filter? || p.Sort? || p.Limit? || (p.Project? && !Renames(p.items, NamesOf(p.child)) && !ScanBlock(p.child)) {
      KeepsFewer(p.child, more, fewer);
    }
  }

  lemma {:induction false} KeepsBoth(p: Plan, a: set<nat>, b: set<nat>)
    requires KeepsColumns(p, a) && KeepsColumns(p, b)
    ensures KeepsColumns(p, a + b)
  {
    if p.Filter? || p.Sort? || p.Limit? || (p.Project? && !Renames(p.items, NamesOf(p.child)) && !ScanBlock(p.child)) {
      KeepsBoth(p.child, a, b);
    }
  }

  /** The planner re-indexes what stands over a derived table only where that changes nothing. */
  predicate DerivedByPosition(p: Plan)
  {
    match p
    case Scan(_, _, _, _) => true
    case Join(_, _, _, _, _, _) => true
    case Filter(c, _) => ReadByPosition(c, NodeColumns(p)) && DerivedByPosition(c)
    case Project(c, _) => ReadByPosition(c, NodeColumns(p)) && DerivedByPosition(c)
    case Group(c, _, _) => ReadByPosition(c, NodeColumns(p)) && DerivedByPosition(c)
    case Sort(c, _) => ReadByPosition(c, NodeColumns(p)) && DerivedByPosition(c)
    case Limit(c, _) => DerivedByPosition(c)
  }

  predicate ReadByPosition(c: Plan, columns: set<nat>)
  {
    ScanBlock(c) || !ReferencesScanSchema(c) || KeepsColumns(c, columns)
  }

  lemma {:induction false} BlocksReadNoDerived(p: Plan)
    requires ScanBlock(p)
    ensures DerivedByPosition(p)
  {
    match p
    case Scan(_, _, _, _) =>
    case Join(_, _, _, _, _, _) =>
    case Filter(c, _) => BlocksReadNoDerived(c);
    case Sort(c, _) => BlocksReadNoDerived(c);
    case Limit(c, _) => BlocksReadNoDerived(c);
  }

  // ---------------------------------------------------------------------------
  // Annotations change none of this
  // ---------------------------------------------------------------------------

  /** `p` without what projection push-down attaches to its scans. */
  function Bare(p: Plan): Plan
  {
    match p
    case Scan(_, _, _, _) => p.(required := {}, pushable := [])
    case Join(l, r, _, _, _, _) => p.(left := Bare(l), right := Bare(r))
    case Filter(c, condition) => Filter(Bare(c), condition)
    case Project(c, items) => Project(Bare(c), items)
    case Group(c, groupBy, calls) => Group(Bare(c), groupBy, calls)
    case Sort(c, keys) => Sort(Bare(c), keys)
    case Limit(c, n) => Limit(Bare(c), n)
  }

  lemma {:induction false} BareBlocks(p: Plan)
    ensures Width(Bare(p)) == Width(p)
    ensures ScanBlock(Bare(p)) == ScanBlock(p) && SingleBlock(Bare(p)) == SingleBlock(p)
    ensures LimitFree(Bare(p)) == LimitFree(p) && InRange(Bare(p)) == InRange(p)
    ensures ReferencesScanSchema(Bare(p)) == ReferencesScanSchema(p)
  {
    match p
    case Scan(_, _, _, _) =>
    case Join(l, r, _, _, _, _) => BareBlocks(l); BareBlocks(r);
    case Filter(c, _) => BareBlocks(c);
    case Project(c, _) => BareBlocks(c);
    case Group(c, _, _) => BareBlocks(c);
    case Sort(c, _) => BareBlocks(c);
    case Limit(c, _) => BareBlocks(c);
  }

  lemma {:induction false} BareKeeps(p: Plan, columns: set<nat>)
    ensures NamesOf(Bare(p)) == NamesOf(p) && KeepsColumns(Bare(p), columns) == KeepsColumns(p, columns)
  {
    match p
    case Scan(_, _, _, _) =>
    case Join(l, r, _, _, _, _) => BareKeeps(l, columns); BareKeeps(r, columns);
    case _ => BareKeeps(p.child, columns); BareBlocks(p.child);
  }

  lemma {:induction false} BarePositions(p: Plan)
    ensures DerivedByPosition(Bare(p)) == DerivedByPosition(p)
  {
    hide KeepsColumns;
    if !p.Scan? && !p.Join? {
      assert NodeColumns(Bare(p)) == NodeColumns(p);
      BarePositions(p.child);
      BareBlocks(p.child);
      BareKeeps(p.child, NodeColumns(p));
    }
  }
}
