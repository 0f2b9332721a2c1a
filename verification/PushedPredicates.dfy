/** The predicates that filters forward to a scan, and which rows meet them. A forwarded
predicate that names a scan column must be about a copy of that column, with no LIMIT between
the two; then every row that passes the filters meets it, and is in no row group it rules out. */
module PushedPredicates {
  import opened Expressions
  import opened Relational
  import opened Distinctness
  import opened Aggregation
  import opened JoinSemantics
  import opened LogicalPlans
  import opened PhysicalPlanner
  import opened BlockShapes
  import opened SingleBlocks
  import opened RequiredColumns
  import opened ParquetPruning

  // ---------------------------------------------------------------------------
  // Reading files
  // ---------------------------------------------------------------------------

  /** The row groups of each table's file, and the rows of each group. */
  datatype Store = Store(file: string -> seq<RowGroup>, data: RowGroup -> seq<Row>)

  function Whole(store: Store): Tables
  {
    (table: string, pushable: seq<PushablePredicate>) => FlatMap(store.data, store.file(table))
  }

  function Pruned(store: Store): Tables
  {
    (table: string, pushable: seq<PushablePredicate>) => FlatMap(store.data, SelectedGroups(store.file(table), pushable))
  }

  lemma WholeIsPlain(store: Store)
    ensures Plain(Whole(store))
  {
  }

  /** A scanned table and its schema. */
  datatype Source = Source(table: string, fields: seq<Field>)

  /** The scan that predicates forwarded by `p` reach; none is forwarded through a join. */
  function ScanBelow(p: Plan): Option<Source>
  {
    match p
    case Scan(table, fields, _, _) => Some(Source(table, fields))
    case Filter(c, _) => ScanBelow(c)
    case Project(c, _) => ScanBelow(c)
    case Group(c, _, _) => ScanBelow(c)
    case Sort(c, _) => ScanBelow(c)
    case Limit(c, _) => ScanBelow(c)
    case Join(_, _, _, _, _, _) => None
  }

  ghost predicate IsField(scan: Option<Source>, name: string)
  {
    scan.Some? && exists f :: f in scan.value.fields && f.name == name
  }

  /** A value of the column of that name, somewhere in the file. */
  ghost predicate StoredUnder(store: Store, scan: Source, name: string, v: Value)
  {
    exists g, row, i :: g in store.file(scan.table) && row in store.data(g) && HasAt(scan.fields, row, i, name, v)
  }

  ghost predicate HasAt(fields: seq<Field>, row: Row, i: nat, name: string, v: Value)
  {
    i < |fields| && i < |row| && fields[i].name == name && row[i] == v
  }

  /** The statistics of every scanned file are of its columns, and bound its rows. */
  ghost predicate Truthful(store: Store, p: Plan)
  {
    match p
    case Scan(table, fields, _, _) =>
      forall g :: g in store.file(table) ==>
        && (forall name :: name in g.statistics ==> exists f :: f in fields && f.name == name)
        && (forall row :: row in store.data(g) ==> Accurate(fields, g, row) && Int64Row(row))
    case Join(l, r, _, _, _, _) => Truthful(store, l) && Truthful(store, r)
    case Filter(c, _) => Truthful(store, c)
    case Project(c, _) => Truthful(store, c)
    case Group(c, _, _) => Truthful(store, c)
    case Sort(c, _) => Truthful(store, c)
    case Limit(c, _) => Truthful(store, c)
  }

  // ---------------------------------------------------------------------------
  // Columns that reach a node unchanged
  // ---------------------------------------------------------------------------

  /** For every output column, the name of the scan column it is a copy of, if it is one and a
      filter on it commutes with everything down to the scan: select items and group keys pass
      columns on, a LIMIT does not. */
  function Carried(p: Plan): seq<Option<string>>
  {
    match p
    case Scan(_, fields, _, _) => Map((f: Field) => Some(f.name), fields)
    case Filter(c, _) => Carried(c)
    case Sort(c, _) => Carried(c)
    case Project(c, items) => CopiesOf(items, Carried(c))
    case Group(c, groupBy, _) => CopiesOf(groupBy, Carried(c))
    case _ => []
  }

  function CopyOf(e: Expr, names: seq<Option<string>>): Option<string>
  {
    if e.Column? && e.index < |names| then names[e.index] else None
  }

  function CopiesOf(items: seq<NamedExpr>, names: seq<Option<string>>): seq<Option<string>>
  {
    Map((item: NamedExpr) => CopyOf(item.expr, names), items)
  }

  /** The column of a comparison that is pushed. */
  function PushedColumn(e: Expr): (c: Option<Expr>)
    ensures c.Some? ==> c.value.Column? && e.Binary? && IsComparison(e.bop)
  {
    if !e.Binary? || !IsComparison(e.bop) then None
    else
      var l, r := UnwrapCast(e.left), UnwrapCast(e.right);
      if l.Column? && r.Literal? then Some(l) else if r.Column? && l.Literal? then Some(r) else None
  }

  function Holding(i: nat, v: Value): Row
  {
    Nulls(i) + [v]
  }

  /** Every comparison pushed from `e` is on a name the scan does not have, or on a copy of the
      column of that name; then it must be precise, and the casts dropped from it must not matter
      on the values stored there. */
  ghost predicate Pushes(k: Kernels, store: Store, scan: Option<Source>, names: seq<Option<string>>, e: Expr)
  {
    if e.Binary? && e.bop.And? then Pushes(k, store, scan, names, e.left) && Pushes(k, store, scan, names, e.right)
    else
      match PushedColumn(e)
      case None => true
      case Some(c) =>
        IsField(scan, c.name) ==>
          && CopyOf(c, names) == Some(c.name)
          && (forall q :: q in CollectPushable(e) ==> Precise(q))
          && (forall v :: StoredUnder(store, scan.value, c.name, v) ==> CastsTransparent(k, e, Holding(c.index, v)))
  }

  /** Every filter that forwards predicates pushes what it says. HAVING directly over an
      aggregation forwards none. */
  ghost predicate Resolvable(k: Kernels, store: Store, p: Plan)
  {
    match p
    case Scan(_, _, _, _) => true
    case Filter(c, condition) =>
      Resolvable(k, store, c) && (c.Group? || Pushes(k, store, ScanBelow(c), Carried(c), condition))
    case Project(c, _) => Resolvable(k, store, c)
    case Group(c, _, _) => Resolvable(k, store, c)
    case Sort(c, _) => Resolvable(k, store, c)
    case Limit(c, _) => Resolvable(k, store, c)
    case Join(l, r, _, _, _, _) => Resolvable(k, store, l) && Resolvable(k, store, r)
  }

  // ---------------------------------------------------------------------------
  // Rows that pass the filters meet the forwarded predicates
  // ---------------------------------------------------------------------------

  ghost predicate ReadsCopy(names: seq<Option<string>>, row: Row, column: string, v: Value)
  {
    exists i :: 0 <= i < |names| && i < |row| && names[i] == Some(column) && row[i] == v
  }

  ghost predicate Meets(k: Kernels, names: seq<Option<string>>, row: Row, q: PushablePredicate)
  {
    exists v :: ReadsCopy(names, row, q.column, v) && EvalBinary(k, q.op, v, q.literal, Boolean) == Bool(true)
  }

  /** What `row` holds as a copy is stored, or NULL. */
  ghost predicate Copies(store: Store, scan: Option<Source>, names: seq<Option<string>>, row: Row)
  {
    forall i :: 0 <= i < |names| && i < |row| && names[i].Some? && !row[i].Null? ==>
      scan.Some? && StoredUnder(store, scan.value, names[i].value, row[i])
  }

  /** Rows that pass `test` meet every forwarded predicate on a scan column. */
  ghost predicate Explains(k: Kernels, store: Store, scan: Option<Source>, names: seq<Option<string>>, test: Row -> bool,
                           pushable: seq<PushablePredicate>)
  {
    && (forall row, q :: test(row) && Copies(store, scan, names, row) && q in pushable && IsField(scan, q.column) ==>
          Meets(k, names, row, q))
    && (forall q :: q in pushable && IsField(scan, q.column) ==> Precise(q) && IsComparison(q.op))
  }

  lemma {:induction false} UnwrapColumns(e: Expr)
    ensures Columns(UnwrapCast(e)) == Columns(e)
  {
    if e.Cast? { UnwrapColumns(e.operand); }
  }

  lemma {:induction false} CastOfNull(k: Kernels, e: Expr, row: Row)
    requires Eval(k, UnwrapCast(e), row).Null?
    ensures Eval(k, e, row).Null?
  {
    if e.Cast? { CastOfNull(k, e.operand, row); }
  }

  lemma NullNeverTrue(k: Kernels, op: BinaryOp, a: Value, b: Value)
    requires IsComparison(op) && EvalBinary(k, op, a, b, Boolean) == Bool(true)
    ensures !a.Null? && !b.Null?
  {
  }

  /** A TRUE comparison on a copied column read a stored value. */
  lemma PushedReads(k: Kernels, e: Expr, row: Row)
    requires PushedColumn(e).Some? && Holds(k, e, row)
    ensures var c := PushedColumn(e).value;
            c.index < |row| && !row[c.index].Null? && Eval(k, c, row) == row[c.index]
  {
    NullNeverTrue(k, e.bop, Eval(k, e.left, row), Eval(k, e.right, row));
    if UnwrapCast(e.left).Column? && UnwrapCast(e.right).Literal? {
      if Eval(k, UnwrapCast(e.left), row).Null? { CastOfNull(k, e.left, row); }
    } else if Eval(k, UnwrapCast(e.right), row).Null? {
      CastOfNull(k, e.right, row);
    }
  }

  /** Whether casts matter is decided by the value of the pushed column alone. */
  lemma CastsAtValue(k: Kernels, e: Expr, row: Row)
    requires PushedColumn(e).Some? && PushedColumn(e).value.index < |row|
    requires CastsTransparent(k, e, Holding(PushedColumn(e).value.index, row[PushedColumn(e).value.index]))
    ensures CastsTransparent(k, e, row)
  {
    var i := PushedColumn(e).value.index;
    var held := Holding(i, row[i]);
    assert AgreeOn({i}, row, held);
    UnwrapColumns(e.left);
    UnwrapColumns(e.right);
    EvalDependsOnColumns(k, e, {i}, row, held);
    EvalDependsOnColumns(k, UnwrapCast(e.left), {i}, row, held);
    EvalDependsOnColumns(k, UnwrapCast(e.right), {i}, row, held);
  }

  lemma PushedMet(k: Kernels, e: Expr, names: seq<Option<string>>, row: Row, q: PushablePredicate)
    requires PushedColumn(e).Some? && Holds(k, e, row) && CastsTransparent(k, e, row) && q in CollectPushable(e)
    requires CopyOf(PushedColumn(e).value, names) == Some(q.column)
    ensures Meets(k, names, row, q)
  {
    var c, l, r := PushedColumn(e).value, UnwrapCast(e.left), UnwrapCast(e.right);
    PushedReads(k, e, row);
    if !(l.Column? && r.Literal?) {
      FlipAgrees(k, e.bop, l.value, Eval(k, r, row));
    }
    assert ReadsCopy(names, row, q.column, row[c.index]);
  }

  lemma {:induction false} CollectedMet(k: Kernels, store: Store, scan: Option<Source>, names: seq<Option<string>>, e: Expr,
                                        row: Row, q: PushablePredicate)
    requires Pushes(k, store, scan, names, e) && q in CollectPushable(e) && IsField(scan, q.column)
    ensures Precise(q) && IsComparison(q.op)
    ensures Holds(k, e, row) && Copies(store, scan, names, row) ==> Meets(k, names, row, q)
  {
    hide Precise, Meets, CastsTransparent;
    if e.bop.And? {
      if q in CollectPushable(e.left) {
        CollectedMet(k, store, scan, names, e.left, row, q);
      } else {
        CollectedMet(k, store, scan, names, e.right, row, q);
      }
    } else if Holds(k, e, row) && Copies(store, scan, names, row) {
      PushedReads(k, e, row);
      CastsAtValue(k, e, row);
      PushedMet(k, e, names, row, q);
    }
  }

  /** A filter adds the predicates it forwards to what its rows are known to meet. */
  lemma FilterExplains(k: Kernels, store: Store, p: Plan, test: Row -> bool, pushable: seq<PushablePredicate>,
                       test': Row -> bool)
    requires p.Filter? && (p.child.Group? || Pushes(k, store, ScanBelow(p), Carried(p), p.condition))
    requires Explains(k, store, ScanBelow(p), Carried(p), test, pushable)
    requires forall row :: test'(row) ==> test(row) && Holds(k, p.condition, row)
    ensures Explains(k, store, ScanBelow(p), Carried(p), test', Forwarded(p, pushable))
  {
    hide Meets, Precise, Carried, Copies, IsField, Pushes;
    var scan, names := ScanBelow(p), Carried(p);
    forall q | q in Forwarded(p, pushable) && IsField(scan, q.column) ensures Precise(q) && IsComparison(q.op) {
      if q !in pushable {
        CollectedMet(k, store, scan, names, p.condition, [], q);
      }
    }
    forall row, q | test'(row) && Copies(store, scan, names, row) && q in Forwarded(p, pushable) && IsField(scan, q.column)
      ensures Meets(k, names, row, q)
    {
      if q !in pushable {
        CollectedMet(k, store, scan, names, p.condition, row, q);
      }
    }
  }

  lemma MetBelow(k: Kernels, items: seq<NamedExpr>, below: seq<Option<string>>, row: Row, q: PushablePredicate)
    requires Meets(k, CopiesOf(items, below), EvalItems(k, items, row), q) && IsComparison(q.op)
    ensures Meets(k, below, row, q)
  {
    var names, out := CopiesOf(items, below), EvalItems(k, items, row);
    MapIndex((item: NamedExpr) => CopyOf(item.expr, below), items);
    MapIndex((item: NamedExpr) => Eval(k, item.expr, row), items);
    var v :| ReadsCopy(names, out, q.column, v) && EvalBinary(k, q.op, v, q.literal, Boolean) == Bool(true);
    var j :| 0 <= j < |names| && j < |out| && names[j] == Some(q.column) && out[j] == v;
    NullNeverTrue(k, q.op, v, q.literal);
    var e := items[j].expr;
    assert e.Column? && below[e.index] == Some(q.column) && e.index < |row| && row[e.index] == v;
    assert ReadsCopy(below, row, q.column, v);
  }

  lemma CopiesAbove(k: Kernels, store: Store, scan: Option<Source>, items: seq<NamedExpr>, below: seq<Option<string>>, row: Row)
    requires Copies(store, scan, below, row)
    ensures Copies(store, scan, CopiesOf(items, below), EvalItems(k, items, row))
  {
    hide StoredUnder;
    MapIndex((item: NamedExpr) => CopyOf(item.expr, below), items);
    MapIndex((item: NamedExpr) => Eval(k, item.expr, row), items);
  }

  /** Through a projection, what its rows meet is met by the rows below. */
  lemma ProjectExplains(k: Kernels, store: Store, p: Plan, test: Row -> bool, pushable: seq<PushablePredicate>,
                        test': Row -> bool)
    requires p.Project? && Explains(k, store, ScanBelow(p), Carried(p), test, pushable)
    requires forall row :: test'(row) == test(EvalItems(k, p.items, row))
    ensures Explains(k, store, ScanBelow(p), Carried(p.child), test', pushable)
  {
    hide Meets, Precise, Copies, IsField, CopiesOf;
    var scan, below := ScanBelow(p), Carried(p.child);
    forall row, q | test'(row) && Copies(store, scan, below, row) && q in pushable && IsField(scan, q.column)
      ensures Meets(k, below, row, q)
    {
      CopiesAbove(k, store, scan, p.items, below, row);
      MetBelow(k, p.items, below, row, q);
    }
  }

  // ---------------------------------------------------------------------------
  // Scans
  // ---------------------------------------------------------------------------

  /** A row that meets the predicates on scan columns is in no skipped group. */
  lemma MetNotSkipped(k: Kernels, store: Store, scan: Plan, g: RowGroup, row: Row, test: Row -> bool)
    requires IeeeConversion(k) && scan.Scan? && Truthful(store, scan)
    requires g in store.file(scan.table) && row in store.data(g) && test(row)
    requires Explains(k, store, ScanBelow(scan), Carried(scan), test, scan.pushable)
    ensures !Skippable(g, scan.pushable)
  {
    hide Precise, Accurate, Int64Row;
    StoredCopies(store, scan, g, row);
    if Skippable(g, scan.pushable) {
      var q :| q in scan.pushable && q.column in g.statistics && ProvesEmpty(q, g.statistics[q.column]);
      assert IsField(ScanBelow(scan), q.column) && Meets(k, Carried(scan), row, q);
      ExcludedUnmet(k, scan, g, row, q);
    }
  }

  lemma StoredCopies(store: Store, scan: Plan, g: RowGroup, row: Row)
    requires scan.Scan? && g in store.file(scan.table) && row in store.data(g)
    ensures Copies(store, ScanBelow(scan), Carried(scan), row)
  {
    MapIndex((f: Field) => Some(f.name), scan.fields);
    forall i | 0 <= i < |Carried(scan)| && i < |row| ensures StoredUnder(store, ScanBelow(scan).value, Carried(scan)[i].value, row[i]) {
      assert HasAt(scan.fields, row, i, scan.fields[i].name, row[i]);
    }
  }

  lemma ExcludedUnmet(k: Kernels, scan: Plan, g: RowGroup, row: Row, q: PushablePredicate)
    requires IeeeConversion(k) && scan.Scan? && Accurate(scan.fields, g, row) && Int64Row(row) && Precise(q)
    requires q.column in g.statistics && ProvesEmpty(q, g.statistics[q.column])
    ensures !Meets(k, Carried(scan), row, q)
  {
    MapIndex((f: Field) => Some(f.name), scan.fields);
    forall v | ReadsCopy(Carried(scan), row, q.column, v)
      ensures EvalBinary(k, q.op, v, q.literal, Boolean) != Bool(true)
    {
      ProvesEmptySound(k, q, g.statistics[q.column], v);
    }
  }

  lemma ScanPruned(k: Kernels, store: Store, scan: Plan, test: Row -> bool)
    requires IeeeConversion(k) && scan.Scan? && Truthful(store, scan)
    requires Explains(k, store, ScanBelow(scan), Carried(scan), test, scan.pushable)
    ensures Select(test, EvalPlan(k, Pruned(store), scan)) == Select(test, EvalPlan(k, Whole(store), scan))
  {
    hide Skippable, Explains, Truthful, IeeeConversion;
    var file, pushable := store.file(scan.table), scan.pushable;
    var selected := (g: RowGroup) => Select(test, store.data(g));
    forall g | g in file && Skippable(g, pushable) ensures selected(g) == [] {
      forall row | row in store.data(g) ensures !test(row) {
        if test(row) { MetNotSkipped(k, store, scan, g, row, test); }
      }
      SelectNone(test, store.data(g));
    }
    SelectOfFlatMap(test, store.data, selected, file);
    SelectOfFlatMap(test, store.data, selected, SelectedGroups(file, pushable));
    FlatMapOfSelect(selected, (g: RowGroup) => !Skippable(g, pushable), selected, file);
  }
}
