/** Which columns of a derived table the planner reads at their own positions.

Over a projection or an aggregation that is still there, the planner's column map is the
identity. Over a projection it has dropped as an identity, the map is the one of the narrowed
scans underneath, and only columns that were already at their own position are read right. */
module DerivedColumns {
  import opened Expressions
  import opened Relational
  import opened Aggregation
  import opened JoinSemantics
  import opened LogicalPlans
  import opened PhysicalPlanner
  import opened PlannerCorrectness
  import opened BlockShapes

  /** The map of `q` sends each of `width` columns to itself, and knows no others. */
  ghost predicate OwnColumns(q: PhysicalPlan, width: nat)
  {
    forall i: nat :: Lookup(Boundary(q), i) == if i < width then Some(i) else None
  }

  ghost predicate OwnsRead(q: PhysicalPlan, columns: set<nat>, width: nat)
  {
    forall i :: i in columns ==> Lookup(Boundary(q), i) == if i < width then Some(i) else None
  }

  /** Wherever `p` is re-indexed over a derived table, the re-indexing changes nothing. */
  ghost predicate Resolves(p: Plan, estimates: Estimates)
  {
    match p
    case Scan(_, _, _, _) => true
    case Join(_, _, _, _, _, _) => true
    case Filter(c, _) => Resolves(c, estimates) && ChildResolves(c, NodeColumns(p), estimates)
    case Project(c, _) => Resolves(c, estimates) && ChildResolves(c, NodeColumns(p), estimates)
    case Group(c, _, _) => Resolves(c, estimates) && ChildResolves(c, NodeColumns(p), estimates)
    case Sort(c, _) => Resolves(c, estimates) && ChildResolves(c, NodeColumns(p), estimates)
    case Limit(c, _) => Resolves(c, estimates)
  }

  ghost predicate ChildResolves(c: Plan, columns: set<nat>, estimates: Estimates)
  {
    ScanBlock(c) || !ReferencesScanSchema(c) ||
    (Convert(c, estimates).Some? ==> OwnsRead(Convert(c, estimates).value, columns, Width(c)))
  }

  // ---------------------------------------------------------------------------
  // Re-indexing that changes nothing
  // ---------------------------------------------------------------------------

  ghost predicate Fixes(rename: nat -> Option<nat>, columns: set<nat>)
  {
    forall i :: i in columns && rename(i).Some? ==> rename(i).value == i
  }

  lemma {:induction false} RenameFixed(e: Expr, rename: nat -> Option<nat>, columns: set<nat>)
    requires Fixes(rename, columns) && Columns(e) <= columns && Rename(e, rename).Some?
    ensures Rename(e, rename) == Some(e)
  {
    match e
    case Column(_, _, _) =>
    case Literal(_, _) =>
    case Binary(_, l, r, _) => RenameFixed(l, rename, columns); RenameFixed(r, rename, columns);
    case Unary(_, o, _) => RenameFixed(o, rename, columns);
    case Cast(o, _) => RenameFixed(o, rename, columns);
    case Between(s, lo, hi) =>
      RenameFixed(s, rename, columns);
      RenameFixed(lo, rename, columns);
      RenameFixed(hi, rename, columns);
    case Like(s, _, _) => RenameFixed(s, rename, columns);
    case Case(c, r, o, _) =>
      RenameFixed(c, rename, columns);
      RenameFixed(r, rename, columns);
      RenameFixed(o, rename, columns);
    case Extract(_, o, _) => RenameFixed(o, rename, columns);
    case Substring(o, _, _, _) => RenameFixed(o, rename, columns);
  }

  lemma RemapOwn(e: Expr, q: PhysicalPlan, columns: set<nat>, width: nat)
    requires OwnsRead(q, columns, width) && Columns(e) <= columns && Remap(e, Boundary(q)).Some?
    ensures Remap(e, Boundary(q)) == Some(e)
  {
    RenameFixed(e, (i: nat) => Lookup(Boundary(q), i), columns);
  }

  lemma {:induction false} RemapItemsOwn(items: seq<NamedExpr>, q: PhysicalPlan, columns: set<nat>, width: nat)
    requires OwnsRead(q, columns, width) && ItemColumns(items) <= columns && RemapItems(items, Boundary(q)).Some?
    ensures RemapItems(items, Boundary(q)) == Some(items)
  {
    if items != [] {
      RemapOwn(items[0].expr, q, columns, width);
      RemapItemsOwn(items[1..], q, columns, width);
      assert items == [items[0]] + items[1..];
    }
  }

  lemma {:induction false} RemapCallsOwn(calls: seq<AggregateCall>, q: PhysicalPlan, columns: set<nat>, width: nat)
    requires OwnsRead(q, columns, width) && CallColumns(calls) <= columns && RemapCalls(calls, Boundary(q)).Some?
    ensures RemapCalls(calls, Boundary(q)) == Some(calls)
  {
    if calls != [] {
      RemapOwn(calls[0].argument, q, columns, width);
      RemapCallsOwn(calls[1..], q, columns, width);
      assert calls == [calls[0]] + calls[1..];
    }
  }

  lemma {:induction false} RemapKeysOwn(keys: seq<SortKey>, q: PhysicalPlan, columns: set<nat>, width: nat)
    requires OwnsRead(q, columns, width) && KeyColumns(keys) <= columns && RemapKeys(keys, Boundary(q)).Some?
    ensures RemapKeys(keys, Boundary(q)) == Some(keys)
  {
    if keys != [] {
      RemapOwn(keys[0].expr, q, columns, width);
      RemapKeysOwn(keys[1..], q, columns, width);
      assert keys == [keys[0]] + keys[1..];
    }
  }

  function ProjectionOrChild(q: PhysicalPlan, items: seq<NamedExpr>): PhysicalPlan
  {
    if IsIdentityProjection(items, OutputNames(q)) then q else ProjectionNode(q, items)
  }

  /** Over a derived table that resolves, a node is converted with its expressions as written. */
  lemma ReadsAsWritten(p: Plan, estimates: Estimates)
    requires !p.Scan? && !p.Join? && !ScanBlock(p.child) && (p.Limit? || ChildResolves(p.child, NodeColumns(p), estimates))
    requires Convert(p, estimates).Some?
    ensures Convert(p.child, estimates).Some?
    ensures var q := Convert(p.child, estimates).value;
            match p
            case Filter(_, condition) => Convert(p, estimates) == Some(FilterNode(q, condition))
            case Project(_, items) => Convert(p, estimates) == Some(ProjectionOrChild(q, items))
            case Group(_, groupBy, calls) => Convert(p, estimates) == Some(AggregateNode(q, groupBy, calls))
            case Sort(_, keys) => Convert(p, estimates) == Some(SortNode(q, keys))
            case _ => true
  {
    hide OwnsRead, IsIdentityProjection, Remap, RemapItems, RemapCalls, RemapKeys;
    var q := Convert(p.child, estimates).value;
    if ReferencesScanSchema(p.child) {
      var read, n := NodeColumns(p), Width(p.child);
      match p
      case Filter(_, condition) => RemapOwn(condition, q, read, n);
      case Project(_, items) => RemapItemsOwn(items, q, read, n);
      case Group(_, groupBy, calls) => RemapItemsOwn(groupBy, q, read, n); RemapCallsOwn(calls, q, read, n);
      case Sort(_, keys) => RemapKeysOwn(keys, q, read, n);
      case _ =>
    }
  }

  // ---------------------------------------------------------------------------
  // Widths and names of converted plans
  // ---------------------------------------------------------------------------

  lemma OutputWidths(items: seq<NamedExpr>, calls: seq<AggregateCall>)
    ensures |ItemNames(items)| == |items| && |CallNames(calls)| == |calls|
  {
    MapIndex((item: NamedExpr) => item.name, items);
    MapIndex((call: AggregateCall) => call.name, calls);
  }

  lemma {:induction false} RemapItemsAt(items: seq<NamedExpr>, columnMap: ColumnMap, i: nat)
    requires RemapItems(items, columnMap).Some? && i < |items|
    ensures |RemapItems(items, columnMap).value| == |items|
    ensures Remap(items[i].expr, columnMap) == Some(RemapItems(items, columnMap).value[i].expr)
    ensures RemapItems(items, columnMap).value[i].name == items[i].name
  {
    RemapItemsLength(items, columnMap);
    if i > 0 { RemapItemsAt(items[1..], columnMap, i - 1); }
  }

  lemma {:induction false} RemapCallsNames(calls: seq<AggregateCall>, columnMap: ColumnMap)
    requires RemapCalls(calls, columnMap).Some?
    ensures |RemapCalls(calls, columnMap).value| == |calls|
    ensures forall i :: 0 <= i < |calls| ==> RemapCalls(calls, columnMap).value[i].name == calls[i].name
  {
    if calls != [] {
      RemapCallsNames(calls[1..], columnMap);
    }
  }

  lemma RemapItemsNames(items: seq<NamedExpr>, columnMap: ColumnMap)
    requires RemapItems(items, columnMap).Some?
    ensures |RemapItems(items, columnMap).value| == |items|
    ensures forall i :: 0 <= i < |items| ==> RemapItems(items, columnMap).value[i].name == items[i].name
  {
    RemapItemsLength(items, columnMap);
    forall i | 0 <= i < |items| ensures RemapItems(items, columnMap).value[i].name == items[i].name {
      RemapItemsAt(items, columnMap, i);
    }
  }

  lemma JoinFits(p: Plan, estimates: Estimates, left: PhysicalPlan, right: PhysicalPlan, a: seq<nat>, b: seq<nat>)
    returns (layout: seq<nat>)
    requires p.Join? && ConvertJoin(p, estimates, left, right).Some?
    requires Fits(Boundary(left), a, Width(p.left)) && Fits(Boundary(right), b, Width(p.right))
    requires |OutputNames(left)| == |a| && |OutputNames(right)| == |b|
    ensures |OutputNames(ConvertJoin(p, estimates, left, right).value)| == |layout|
    ensures Fits(Boundary(ConvertJoin(p, estimates, left, right).value), layout, Width(p))
  {
    hide Fits, CombinedMap;
    var n := Width(p.left);
    var swap := SwapsSides(p.joinType, estimates, left, right);
    CombinedFits(p.joinType, swap, left, right, a, b, n, Width(p.right));
    layout := if p.joinType.LeftSemi? || p.joinType.LeftAnti? then a else if swap then Shift(b, n) + a else a + Shift(b, n);
  }

  /** The columns of a converted scan block, and where they came from. */
  lemma {:induction false} BlockFits(p: Plan, estimates: Estimates) returns (layout: seq<nat>)
    requires ScanBlock(p) && Convert(p, estimates).Some?
    ensures |OutputNames(Convert(p, estimates).value)| == |layout|
    ensures Fits(Boundary(Convert(p, estimates).value), layout, Width(p))
  {
    hide Fits, ConvertJoin, Remap, RemapKeys;
    match p
    case Scan(_, _, _, _) =>
      ScanFits(p);
      layout := ConvertScan(p).kept;
    case Join(l, r, _, _, _, _) =>
      var a := BlockFits(l, estimates);
      var b := BlockFits(r, estimates);
      layout := JoinFits(p, estimates, Convert(l, estimates).value, Convert(r, estimates).value, a, b);
    case Filter(c, _) => layout := BlockFits(c, estimates);
    case Sort(c, _) => layout := BlockFits(c, estimates);
    case Limit(c, _) => layout := BlockFits(c, estimates);
  }

  lemma ScanNames(p: Plan, name: string)
    requires p.Scan? && name in ConvertScan(p).names
    ensures name in NamesOf(p)
  {
    ScanFits(p);
    var q := ConvertScan(p);
    MapIndex((i: nat) => if i < |p.fields| then p.fields[i].name else "", q.kept);
    var j :| 0 <= j < |q.names| && q.names[j] == name;
    assert q.kept[j] < |p.fields| && p.fields[q.kept[j]] in p.fields;
  }

  lemma ItemName(items: seq<NamedExpr>, name: string)
    requires name in ItemNames(items)
    ensures exists item :: item in items && item.name == name
  {
    MapMember((item: NamedExpr) => item.name, items, name);
  }

  lemma CallName(calls: seq<AggregateCall>, name: string)
    requires name in CallNames(calls)
    ensures exists call :: call in calls && call.name == name
  {
    MapMember((call: AggregateCall) => call.name, calls, name);
  }

  lemma RemappedItemName(items: seq<NamedExpr>, columnMap: ColumnMap, name: string)
    requires RemapItems(items, columnMap).Some? && name in ItemNames(RemapItems(items, columnMap).value)
    ensures exists item :: item in items && item.name == name
  {
    var items' := RemapItems(items, columnMap).value;
    RemapItemsNames(items, columnMap);
    ItemName(items', name);
    var j :| 0 <= j < |items'| && items'[j].name == name;
    assert items[j] in items;
  }

  lemma RemappedCallName(calls: seq<AggregateCall>, columnMap: ColumnMap, name: string)
    requires RemapCalls(calls, columnMap).Some? && name in CallNames(RemapCalls(calls, columnMap).value)
    ensures exists call :: call in calls && call.name == name
  {
    var calls' := RemapCalls(calls, columnMap).value;
    RemapCallsNames(calls, columnMap);
    CallName(calls', name);
    var j :| 0 <= j < |calls'| && calls'[j].name == name;
    assert calls[j] in calls;
  }

  /** Conversion invents no field names. */
  lemma {:induction false} ConvertedNames(p: Plan, estimates: Estimates, name: string)
    requires Convert(p, estimates).Some? && name in OutputNames(Convert(p, estimates).value)
    ensures name in NamesOf(p)
  {
    hide RemapItems, RemapCalls, RemapKeys, Remap, CombinedMap, IsIdentityProjection;
    match p
    case Scan(_, _, _, _) => ScanNames(p, name);
    case Join(l, r, _, _, _, _) =>
      if name in OutputNames(Convert(l, estimates).value) {
        ConvertedNames(l, estimates, name);
      } else {
        ConvertedNames(r, estimates, name);
      }
    case Filter(c, _) => ConvertedNames(c, estimates, name);
    case Sort(c, _) => ConvertedNames(c, estimates, name);
    case Limit(c, _) => ConvertedNames(c, estimates, name);
    case Project(c, items) => ProjectNames(c, items, estimates, name);
    case Group(c, groupBy, calls) => GroupNames(c, groupBy, calls, estimates, name);
  }

  lemma ProjectNames(c: Plan, items: seq<NamedExpr>, estimates: Estimates, name: string)
    requires Convert(Project(c, items), estimates).Some?
    requires name in OutputNames(Convert(Project(c, items), estimates).value)
    ensures name in NamesOf(Project(c, items))
  {
    hide RemapItems;
    var q := Convert(c, estimates).value;
    var remap := ReferencesScanSchema(c);
    var items' := if remap then RemapItems(items, Boundary(q)).value else items;
    if remap { RemapItemsNames(items, Boundary(q)); }
    if IsIdentityProjection(items', OutputNames(q)) {
      var j :| 0 <= j < |OutputNames(q)| && OutputNames(q)[j] == name;
      assert items[j] in items && items[j].name == name;
    } else if remap {
      RemappedItemName(items, Boundary(q), name);
    } else {
      ItemName(items, name);
    }
  }

  lemma GroupNames(c: Plan, groupBy: seq<NamedExpr>, calls: seq<AggregateCall>, estimates: Estimates, name: string)
    requires Convert(Group(c, groupBy, calls), estimates).Some?
    requires name in OutputNames(Convert(Group(c, groupBy, calls), estimates).value)
    ensures name in NamesOf(Group(c, groupBy, calls))
  {
    hide RemapItems, RemapCalls;
    var node := Convert(Group(c, groupBy, calls), estimates).value;
    var q := Convert(c, estimates).value;
    var remap := ReferencesScanSchema(c);
    if name in ItemNames(node.groupBy) {
      if remap { RemappedItemName(groupBy, Boundary(q), name); } else { ItemName(groupBy, name); }
    } else {
      if remap { RemappedCallName(calls, Boundary(q), name); } else { CallName(calls, name); }
    }
  }

  lemma ProjectWidth(c: Plan, items: seq<NamedExpr>, estimates: Estimates)
    requires Convert(Project(c, items), estimates).Some?
    ensures |OutputNames(Convert(Project(c, items), estimates).value)| == |items|
  {
    hide RemapItems;
    var q := Convert(c, estimates).value;
    if ReferencesScanSchema(c) { RemapItemsLength(items, Boundary(q)); }
    var items' := if ReferencesScanSchema(c) then RemapItems(items, Boundary(q)).value else items;
    OutputWidths(items', []);
  }

  lemma GroupWidth(c: Plan, groupBy: seq<NamedExpr>, calls: seq<AggregateCall>, estimates: Estimates)
    requires Convert(Group(c, groupBy, calls), estimates).Some?
    ensures |OutputNames(Convert(Group(c, groupBy, calls), estimates).value)| == |groupBy| + |calls|
  {
    hide RemapItems, RemapCalls;
    var q := Convert(c, estimates).value;
    if ReferencesScanSchema(c) {
      RemapItemsLength(groupBy, Boundary(q));
      RemapCallsNames(calls, Boundary(q));
    }
    var node := Convert(Group(c, groupBy, calls), estimates).value;
    OutputWidths(node.groupBy, node.calls);
  }

  // ---------------------------------------------------------------------------
  // Exactly which columns are read right
  // ---------------------------------------------------------------------------

  /** The projection over the scan block `c` is an identity once re-indexed, so it is dropped. */
  ghost predicate Dropped(c: Plan, items: seq<NamedExpr>, estimates: Estimates)
  {
    && Convert(c, estimates).Some?
    && var q := Convert(c, estimates).value;
       var items' := if ReferencesScanSchema(c) then RemapItems(items, Boundary(q)) else Some(items);
       items'.Some? && IsIdentityProjection(items'.value, OutputNames(q))
  }

  lemma DroppedConverts(c: Plan, items: seq<NamedExpr>, estimates: Estimates)
    requires Convert(Project(c, items), estimates).Some?
    ensures Dropped(c, items, estimates) ==> Convert(Project(c, items), estimates) == Convert(c, estimates)
    ensures !Dropped(c, items, estimates) ==> Convert(Project(c, items), estimates).value.ProjectionNode?
  {
  }

  lemma IdentityColumn(items: seq<NamedExpr>, columnMap: ColumnMap, layout: seq<nat>, names: seq<string>, n: nat, i: nat)
    requires Fits(columnMap, layout, n) && RemapItems(items, columnMap).Some? && i < |items|
    requires IsIdentityProjection(RemapItems(items, columnMap).value, names)
    ensures items[i].expr.Column? && Lookup(columnMap, items[i].expr.index) == Some(i)
    ensures Lookup(columnMap, i) == Some(i) <==> items[i].expr.index == i
  {
    RemapItemsAt(items, columnMap, i);
  }

  /** Over a dropped projection, column `i` of the derived table is read at its own position
      exactly when select item `i` was column `i` of the block: the block's map sends the column
      of item `j` to `j`, and no two columns to the same place. */
  lemma DroppedColumn(c: Plan, items: seq<NamedExpr>, estimates: Estimates, i: nat)
    requires ScanBlock(c) && Dropped(c, items, estimates) && i < |items|
    ensures items[i].expr.Column?
    ensures Lookup(Boundary(Convert(c, estimates).value), i) == Some(i) <==> items[i].expr.index == i
  {
    hide Convert, Boundary, OutputNames, Fits, IsIdentityProjection, RemapItems;
    ScanBlockReferences(c);
    var q := Convert(c, estimates).value;
    var layout := BlockFits(c, estimates);
    IdentityColumn(items, Boundary(q), layout, OutputNames(q), Width(c), i);
  }

  /** A derived table over a scan block keeps its positions exactly when its projection survives
      or each item is the column of its own position. */
  lemma ProjectionOwnsColumns(c: Plan, items: seq<NamedExpr>, estimates: Estimates)
    requires ScanBlock(c) && Convert(Project(c, items), estimates).Some?
    ensures OwnColumns(Convert(Project(c, items), estimates).value, |items|)
       <==> !Dropped(c, items, estimates) || Aligned(items)
  {
    DroppedConverts(c, items, estimates);
    ProjectWidth(c, items, estimates);
    if Dropped(c, items, estimates) {
      var q := Convert(c, estimates).value;
      forall i: nat | i < |items|
        ensures items[i].expr.Column? && (Lookup(Boundary(q), i) == Some(i) <==> items[i].expr.index == i)
      {
        DroppedColumn(c, items, estimates, i);
      }
      if Aligned(items) {
        AlignedOwns(c, items, estimates);
      }
    }
  }

  lemma AlignedOwns(c: Plan, items: seq<NamedExpr>, estimates: Estimates)
    requires ScanBlock(c) && Dropped(c, items, estimates) && Aligned(items)
    ensures OwnColumns(Convert(c, estimates).value, |items|)
  {
    hide Convert, Boundary, OutputNames, RemapItems;
    ScanBlockReferences(c);
    var q := Convert(c, estimates).value;
    var layout := BlockFits(c, estimates);
    RemapItemsNames(items, Boundary(q));
    forall i: nat | Lookup(Boundary(q), i).Some? ensures Lookup(Boundary(q), i) == Some(i) && i < |items| {
      IdentityColumn(items, Boundary(q), layout, OutputNames(q), Width(c), Lookup(Boundary(q), i).value);
    }
    forall i: nat | i < |items| ensures Lookup(Boundary(q), i) == Some(i) {
      DroppedColumn(c, items, estimates, i);
    }
  }

  /** A new name keeps the projection. */
  lemma RenamedSurvives(c: Plan, items: seq<NamedExpr>, estimates: Estimates)
    requires Renames(items, NamesOf(c))
    ensures !Dropped(c, items, estimates)
  {
    if Dropped(c, items, estimates) {
      var q := Convert(c, estimates).value;
      var item :| item in items && item.name !in NamesOf(c);
      var j :| 0 <= j < |items| && items[j] == item;
      if ReferencesScanSchema(c) { RemapItemsNames(items, Boundary(q)); }
      assert OutputNames(q)[j] == item.name;
      ConvertedNames(c, estimates, item.name);
    }
  }

  /** A projection over a scan block is read right at the columns that are in place. */
  lemma AlignedOwned(c: Plan, items: seq<NamedExpr>, estimates: Estimates, columns: set<nat>)
    requires ScanBlock(c) && Convert(Project(c, items), estimates).Some? && AlignedAt(items, columns)
    ensures OwnsRead(Convert(Project(c, items), estimates).value, columns, |items|)
  {
    hide Dropped;
    DroppedConverts(c, items, estimates);
    ProjectWidth(c, items, estimates);
    if Dropped(c, items, estimates) {
      forall i | i in columns ensures Lookup(Boundary(Convert(c, estimates).value), i) == Some(i) {
        DroppedColumn(c, items, estimates, i);
      }
    }
  }

  /** The columns that keep their positions in a plan are the ones the planner reads there. */
  lemma {:induction false} PositionsOwned(p: Plan, estimates: Estimates, columns: set<nat>)
    requires KeepsColumns(p, columns) && Convert(p, estimates).Some?
    ensures OwnsRead(Convert(p, estimates).value, columns, Width(p))
    ensures |OutputNames(Convert(p, estimates).value)| == Width(p)
  {
    hide Dropped, Renames, AlignedAt, RemapItems, RemapCalls, RemapKeys, Remap, NamesOf, IsIdentityProjection;
    match p
    case Filter(c, _) => PositionsOwned(c, estimates, columns);
    case Sort(c, _) => PositionsOwned(c, estimates, columns);
    case Limit(c, _) => PositionsOwned(c, estimates, columns);
    case Group(c, groupBy, calls) => GroupWidth(c, groupBy, calls, estimates);
    case Project(c, items) =>
      ProjectWidth(c, items, estimates);
      DroppedConverts(c, items, estimates);
      if Renames(items, NamesOf(c)) {
        RenamedSurvives(c, items, estimates);
      } else if ScanBlock(c) {
        AlignedOwned(c, items, estimates, columns);
      } else if Dropped(c, items, estimates) {
        PositionsOwned(c, estimates, columns);
      }
  }

  /** So a plan that reads its derived tables by position resolves. */
  lemma {:induction false} PositionsResolve(p: Plan, estimates: Estimates)
    requires SingleBlock(p) && DerivedByPosition(p)
    ensures Resolves(p, estimates)
  {
    hide OwnsRead, KeepsColumns;
    if !p.Scan? && !p.Join? {
      PositionsResolve(p.child, estimates);
      if !p.Limit? && ReferencesScanSchema(p.child) && !ScanBlock(p.child) && Convert(p.child, estimates).Some? {
        PositionsOwned(p.child, estimates, NodeColumns(p));
      }
    }
  }
}
