/** Expressions as columns: what the aggregate, projection and sort operators compile
themselves, what they hand to the expression compiler, and the columns that come out
(src/execution_gpu/hash_aggregate_operator.cpp, projection_operator.cpp, sort_operator.cpp). */
module MaterializedExpressions {
  import opened Expressions
  import opened Relational
  import opened LogicalPlans
  import opened ExpressionCompiler
  import opened Batches

  // ---------------------------------------------------------------------------
  // What compiles
  // ---------------------------------------------------------------------------

  /** `compile_expr` of the aggregate operators: CASE, LIKE and EXTRACT in any nesting. */
  predicate Materializable(e: Expr)
  {
    match e
    case Column(_, _, _) => true
    case Literal(_, _) => true
    case Case(c, r, o, _) => Materializable(c) && Materializable(r) && Materializable(o)
    case Like(s, _, _) => Materializable(s)
    case Extract(_, o, _) => Materializable(o)
    case _ => Compile(e, None).Some?
  }

  /** `compile_value` of the projection: LIKE, EXTRACT and SUBSTRING, but no CASE inside. */
  predicate ValueMaterializable(e: Expr)
  {
    match e
    case Column(_, _, _) => true
    case Literal(_, _) => true
    case Like(s, _, _) => ValueMaterializable(s)
    case Extract(_, o, _) => ValueMaterializable(o)
    case Substring(o, _, _, _) => ValueMaterializable(o)
    case _ => Compile(e, None).Some?
  }

  /** A CASE of the same type in the ELSE of a CASE stands for further WHENs of it. */
  predicate Continues(e: Expr)
    requires e.Case?
  {
    e.otherwise.Case? && e.otherwise.typ == e.typ
  }

  /** `compile_item`: a CASE is allowed at the top of a select item, nowhere inside. */
  predicate ItemMaterializable(e: Expr)
  {
    if e.Case? then
      && ValueMaterializable(e.condition) && ValueMaterializable(e.result)
      && if Continues(e) then ItemMaterializable(e.otherwise) else ValueMaterializable(e.otherwise)
    else ValueMaterializable(e)
  }

  /** `compile_key` of the sort: a column or a compiled expression. */
  predicate KeyMaterializable(e: Expr)
  {
    e.Column? || Compile(e, None).Some?
  }

  /** What one of the three can turn into a column. */
  predicate Computable(e: Expr)
  {
    match e
    case Column(_, _, _) => true
    case Literal(_, _) => true
    case Case(c, r, o, _) => Computable(c) && Computable(r) && Computable(o)
    case Like(s, _, _) => Computable(s)
    case Extract(_, o, _) => Computable(o)
    case Substring(o, _, _, _) => Computable(o)
    case _ => Compile(e, None).Some?
  }

  lemma {:induction false} MaterializableComputable(e: Expr)
    requires Materializable(e)
    ensures Computable(e)
  {
    match e
    case Case(c, r, o, _) => MaterializableComputable(c); MaterializableComputable(r); MaterializableComputable(o);
    case Like(s, _, _) => MaterializableComputable(s);
    case Extract(_, o, _) => MaterializableComputable(o);
    case _ =>
  }

  lemma {:induction false} ValueComputable(e: Expr)
    requires ValueMaterializable(e)
    ensures Computable(e)
  {
    match e
    case Like(s, _, _) => ValueComputable(s);
    case Extract(_, o, _) => ValueComputable(o);
    case Substring(o, _, _, _) => ValueComputable(o);
    case _ =>
  }

  lemma {:induction false} ItemComputable(e: Expr)
    requires ItemMaterializable(e)
    ensures Computable(e)
  {
    if e.Case? {
      ValueComputable(e.condition);
      ValueComputable(e.result);
      if Continues(e) {
        ItemComputable(e.otherwise);
      } else {
        ValueComputable(e.otherwise);
      }
    } else {
      ValueComputable(e);
    }
  }

  // ---------------------------------------------------------------------------
  // CASE columns
  // ---------------------------------------------------------------------------

  /** SQL's CASE: the result of the first branch that is TRUE, else the ELSE value. */
  function FirstTrue(branches: seq<(Value, Value)>, otherwise: Value): Value
  {
    if branches == [] then otherwise
    else if branches[0].0 == Bool(true) then branches[0].1
    else FirstTrue(branches[1..], otherwise)
  }

  /** `materialize_case`, for one row: fold the branches from the last to the first, each
      overriding what came after it where its condition is TRUE (not FALSE, not NULL). */
  method MaterializeCase(branches: seq<(Value, Value)>, otherwise: Value) returns (result: Value)
    ensures result == FirstTrue(branches, otherwise)
  {
    result := otherwise;
    var i := |branches|;
    while i > 0
      invariant 0 <= i <= |branches|
      invariant result == FirstTrue(branches[i..], otherwise)
    {
      i := i - 1;
      assert branches[i..][1..] == branches[i + 1..];
      result := if branches[i].0 == Bool(true) then branches[i].1 else result;
    }
    assert branches[0..] == branches;
  }

  /** The branches of a CASE, WHEN by WHEN. */
  function CaseBranches(e: Expr): seq<(Expr, Expr)>
  {
    if e.Case? then [(e.condition, e.result)] + if Continues(e) then CaseBranches(e.otherwise) else [] else []
  }

  function ElseOf(e: Expr): Expr
  {
    if !e.Case? then e else if Continues(e) then ElseOf(e.otherwise) else e.otherwise
  }

  function BranchValues(k: Kernels, branches: seq<(Expr, Expr)>, row: Row): seq<(Value, Value)>
  {
    Map((b: (Expr, Expr)) => (Eval(k, b.0, row), Eval(k, b.1, row)), branches)
  }

  /** The value of a CASE is that of its first TRUE branch. */
  lemma {:induction false} CaseIsFirstTrue(k: Kernels, e: Expr, row: Row)
    requires e.Case?
    ensures Eval(k, e, row) == ReadAs(e.typ, FirstTrue(BranchValues(k, CaseBranches(e), row), Eval(k, ElseOf(e), row)))
  {
    var first := (e.condition, e.result);
    var rest := if Continues(e) then CaseBranches(e.otherwise) else [];
    var value := (b: (Expr, Expr)) => (Eval(k, b.0, row), Eval(k, b.1, row));
    MapAppend(value, [first], rest);
    MapAppend(value, [first], []);
    assert BranchValues(k, CaseBranches(e), row) == [value(first)] + BranchValues(k, rest, row);
    assert ([value(first)] + BranchValues(k, rest, row))[1..] == BranchValues(k, rest, row);
    if Continues(e) {
      CaseIsFirstTrue(k, e.otherwise, row);
    } else {
      assert BranchValues(k, [], row) == [];
    }
  }

  // ---------------------------------------------------------------------------
  // Columns
  // ---------------------------------------------------------------------------

  /** `materialize`, for one row. */
  method MaterializeValue(k: Kernels, e: Expr, row: Row) returns (value: Value)
    requires Computable(e)
    ensures value == Eval(k, e, row)
    decreases e, 1
  {
    match e
    case Column(_, i, t) =>
      value := if i < |row| then ReadAs(t, row[i]) else Null;
    case Literal(v, _) =>
      value := v;
    case Like(s, pattern, negated) =>
      var v := MaterializeValue(k, s, row);
      value := if v.Str? then Bool(k.like(v.s, pattern)) else Null;
      if negated {
        value := EvalUnary(k, Not, value);
      }
    case Extract(part, o, _) =>
      var v := MaterializeValue(k, o, row);
      value := if v.Int? then Int(k.extract(part, v.i)) else Null;
    case Substring(o, start, length, _) =>
      var v := MaterializeValue(k, o, row);
      value := if v.Str? then Str(k.substring(v.s, start - 1, length)) else Null;
    case Case(_, _, _, typ) =>
      var branches, otherwise := MaterializeBranches(k, e, row);
      value := MaterializeCase(branches, otherwise);
      CaseIsFirstTrue(k, e, row);
      value := ReadAs(typ, value);
    case _ =>
      CompileOneTable(k, e, row);
      value := EvalAst(k, Compile(e, None).value, row, []);
  }

  /** The columns of all branches of a CASE, and of its ELSE. */
  method MaterializeBranches(k: Kernels, e: Expr, row: Row) returns (branches: seq<(Value, Value)>, otherwise: Value)
    requires e.Case? && Computable(e)
    ensures branches == BranchValues(k, CaseBranches(e), row) && otherwise == Eval(k, ElseOf(e), row)
    decreases e, 0
  {
    var condition := MaterializeValue(k, e.condition, row);
    var result := MaterializeValue(k, e.result, row);
    var first := [(e.condition, e.result)];
    var evaluated := (b: (Expr, Expr)) => (Eval(k, b.0, row), Eval(k, b.1, row));
    MapAppend(evaluated, first, []);
    if Continues(e) {
      var rest;
      rest, otherwise := MaterializeBranches(k, e.otherwise, row);
      MapAppend(evaluated, first, CaseBranches(e.otherwise));
      branches := [(condition, result)] + rest;
    } else {
      otherwise := MaterializeValue(k, e.otherwise, row);
      branches := [(condition, result)];
    }
  }

  method MaterializeItems(k: Kernels, items: seq<NamedExpr>, row: Row) returns (values: Row)
    requires forall item :: item in items ==> Computable(item.expr)
    ensures values == EvalItems(k, items, row)
  {
    values := [];
    MapIndex((item: NamedExpr) => Eval(k, item.expr, row), items);
    for i := 0 to |items|
      invariant |values| == i && forall j :: 0 <= j < i ==> values[j] == EvalItems(k, items, row)[j]
    {
      assert items[i] in items;
      var value := MaterializeValue(k, items[i].expr, row);
      values := values + [value];
    }
  }

  /** One expression over a whole batch. */
  method MaterializeColumn(k: Kernels, e: Expr, rows: seq<Row>) returns (column: seq<Value>)
    requires Computable(e)
    ensures column == Map(row => Eval(k, e, row), rows)
  {
    column := [];
    MapIndex(row => Eval(k, e, row), rows);
    for i := 0 to |rows|
      invariant |column| == i && forall j :: 0 <= j < i ==> column[j] == Eval(k, e, rows[j])
    {
      var value := MaterializeValue(k, e, rows[i]);
      column := column + [value];
    }
  }

  method ProjectBatch(k: Kernels, items: seq<NamedExpr>, rows: Batch) returns (projected: Batch)
    requires forall item :: item in items ==> Computable(item.expr)
    ensures projected == ProjectRows(k, items, rows)
  {
    projected := [];
    MapIndex(row => EvalItems(k, items, row), rows);
    for i := 0 to |rows|
      invariant |projected| == i && forall j :: 0 <= j < i ==> projected[j] == EvalItems(k, items, rows[j])
    {
      var row := MaterializeItems(k, items, rows[i]);
      projected := projected + [row];
    }
  }

  /** A whole run of the projection operator: it fails exactly on an item that does not compile,
      and otherwise projects batch by batch. */
  method RunProjection(k: Kernels, items: seq<NamedExpr>, child: BatchSource) returns (result: Option<seq<Row>>)
    modifies child
    ensures result.Some? <==> ItemsMaterializable(items)
    ensures result.Some? ==> result.value == ProjectRows(k, items, old(Flatten(child.pending)))
  {
    if !ItemsMaterializable(items) {
      return None;
    }
    forall item | item in items ensures Computable(item.expr) {
      ItemComputable(item.expr);
    }
    ghost var all := Flatten(child.pending);
    ghost var seen: seq<Row> := [];
    var rows: seq<Row> := [];
    var batch := child.Next();
    while batch.Some?
      invariant rows == ProjectRows(k, items, seen)
      invariant batch.None? ==> seen == all
      invariant batch.Some? ==> seen + batch.value + Flatten(child.pending) == all
      decreases batch.Some?, |child.pending|
    {
      var projected := ProjectBatch(k, items, batch.value);
      MapAppend(row => EvalItems(k, items, row), seen, batch.value);
      rows := rows + projected;
      seen := seen + batch.value;
      batch := child.Next();
    }
    return Some(rows);
  }

  predicate ItemsMaterializable(items: seq<NamedExpr>)
  {
    forall item :: item in items ==> ItemMaterializable(item.expr)
  }

  predicate KeysMaterializable(keys: seq<SortKey>)
  {
    forall key :: key in keys ==> KeyMaterializable(key.expr)
  }

  // ---------------------------------------------------------------------------
  // What the operators accept
  // ---------------------------------------------------------------------------

  /** What is left for the expression compiler once an operator has taken CASE, LIKE, EXTRACT and
      SUBSTRING apart, as far as `cases` and `substrings` say that it can. */
  function Leaves(e: Expr, cases: bool, substrings: bool): set<Expr>
  {
    match e
    case Like(s, _, _) => Leaves(s, cases, substrings)
    case Extract(_, o, _) => Leaves(o, cases, substrings)
    case Substring(o, _, _, _) => if substrings then Leaves(o, cases, substrings) else {e}
    case Case(c, r, o, _) =>
      if cases then Leaves(c, cases, substrings) + Leaves(r, cases, substrings) + Leaves(o, cases, substrings) else {e}
    case _ => {e}
  }

  /** Every leaf is made of what the compiler knows. */
  ghost predicate LeavesCompile(leaves: set<Expr>)
  {
    forall leaf :: leaf in leaves ==> AllSimple(Subexpressions(leaf))
  }

  lemma OneLeaf(e: Expr)
    ensures LeavesCompile({e}) <==> Compile(e, None).Some?
  {
    CompilesExactly(e, None);
    assert e in {e};
  }

  /** The aggregate operators take CASE, LIKE and EXTRACT apart. */
  lemma {:induction false} AggregatesAccept(e: Expr)
    ensures Materializable(e) <==> LeavesCompile(Leaves(e, true, false))
  {
    match e
    case Case(c, r, o, _) =>
      AggregatesAccept(c);
      AggregatesAccept(r);
      AggregatesAccept(o);
    case Like(s, _, _) => AggregatesAccept(s);
    case Extract(_, o, _) => AggregatesAccept(o);
    case _ => OneLeaf(e);
  }

  /** The projection takes LIKE, EXTRACT and SUBSTRING apart. */
  lemma {:induction false} ProjectionsAccept(e: Expr)
    ensures ValueMaterializable(e) <==> LeavesCompile(Leaves(e, false, true))
  {
    match e
    case Like(s, _, _) => ProjectionsAccept(s);
    case Extract(_, o, _) => ProjectionsAccept(o);
    case Substring(o, _, _, _) => ProjectionsAccept(o);
    case _ => OneLeaf(e);
  }

  /** A sort key is compiled as it is. */
  lemma SortsAccept(e: Expr)
    ensures KeyMaterializable(e) <==> AllSimple(Subexpressions(e))
  {
    CompilesExactly(e, None);
  }

  /** A CASE on top of a select item is taken apart as well, branch by branch. */
  lemma ItemsAccept(e: Expr)
    ensures !e.Case? ==> (ItemMaterializable(e) <==> ValueMaterializable(e))
    ensures e.Case? && !e.otherwise.Case? ==>
      (ItemMaterializable(e) <==>
         ValueMaterializable(e.condition) && ValueMaterializable(e.result) && ValueMaterializable(e.otherwise))
    ensures e.Case? && e.otherwise.Case? && e.otherwise.typ == e.typ ==>
      (ItemMaterializable(e) <==>
         ValueMaterializable(e.condition) && ValueMaterializable(e.result) && ItemMaterializable(e.otherwise))
  {
  }
}
