/** The filter operator (src/execution_gpu/filter_operator.cpp): the predicate's conjuncts are
split over the expression tree, LIKE masks and SUBSTRING-IN masks, and the masks are combined
by an AND that propagates NULL. Exactly the rows on which the whole predicate is TRUE are kept. */
module FilterOperators {
  import opened Expressions
  import opened Relational
  import opened Aggregation
  import opened LogicalPlans
  import opened Rewriter
  import opened Batches
  import opened ExpressionCompiler

  // ---------------------------------------------------------------------------
  // Masks
  // ---------------------------------------------------------------------------

  predicate Ternary(v: Value) { v.Bool? || v.Null? }

  /** The library's LOGICAL_AND: NULL if either side is, unlike SQL's AND. */
  function NullAnd(a: Value, b: Value): Value
  {
    if a.Bool? && b.Bool? then Bool(a.b && b.b) else Null
  }

  function FoldOr(masks: seq<Value>): Value
    requires masks != []
  {
    if |masks| == 1 then masks[0] else KleeneOr(FoldOr(masks[..|masks| - 1]), masks[|masks| - 1])
  }

  lemma FoldOrOne(v: Value)
    ensures FoldOr([v]) == v
  {
  }

  lemma {:induction false} FoldOrAppend(a: seq<Value>, b: seq<Value>)
    requires a != [] && b != []
    requires forall v :: v in a || v in b ==> Ternary(v)
    ensures Ternary(FoldOr(a)) && Ternary(FoldOr(b))
    ensures FoldOr(a + b) == KleeneOr(FoldOr(a), FoldOr(b))
    decreases |a| + |b|
  {
    var init, last := b[..|b| - 1], b[|b| - 1];
    assert (a + b)[..|a + b| - 1] == a + init && (a + b)[|a + b| - 1] == last;
    if |a| > 1 {
      FoldOrAppend(a[..|a| - 1], [a[|a| - 1]]);
      assert a == a[..|a| - 1] + [a[|a| - 1]];
    }
    if |b| > 1 {
      FoldOrAppend(a, init);
    } else {
      assert a + init == a;
    }
  }

  // ---------------------------------------------------------------------------
  // SUBSTRING(...) IN (...)
  // ---------------------------------------------------------------------------

  /** `flatten_or`. */
  function Disjuncts(e: Expr): (es: seq<Expr>)
    ensures es != []
  {
    if e.Binary? && e.bop.Or? then Disjuncts(e.left) + Disjuncts(e.right) else [e]
  }

  lemma TernaryMasks(k: Kernels, leaves: seq<Expr>, row: Row)
    requires forall leaf :: leaf in leaves ==> Ternary(Eval(k, leaf, row))
    ensures forall v :: v in Map((leaf: Expr) => Eval(k, leaf, row), leaves) ==> Ternary(v)
  {
    MapIndex((leaf: Expr) => Eval(k, leaf, row), leaves);
  }

  lemma {:induction false} DisjunctsFold(k: Kernels, e: Expr, row: Row)
    requires forall leaf :: leaf in Disjuncts(e) ==> Ternary(Eval(k, leaf, row))
    ensures |Map((leaf: Expr) => Eval(k, leaf, row), Disjuncts(e))| > 0
    ensures FoldOr(Map((leaf: Expr) => Eval(k, leaf, row), Disjuncts(e))) == Eval(k, e, row)
  {
    hide FoldOr;
    var f := (leaf: Expr) => Eval(k, leaf, row);
    if e.Binary? && e.bop.Or? {
      var a, b := Disjuncts(e.left), Disjuncts(e.right);
      assert forall leaf :: leaf in a ==> leaf in Disjuncts(e);
      assert forall leaf :: leaf in b ==> leaf in Disjuncts(e);
      DisjunctsFold(k, e.left, row);
      DisjunctsFold(k, e.right, row);
      MapAppend(f, a, b);
      TernaryMasks(k, a, row);
      TernaryMasks(k, b, row);
      FoldOrAppend(Map(f, a), Map(f, b));
    } else {
      MapAppend(f, [e], []);
      FoldOrOne(f(e));
    }
  }

  /** `SUBSTRING(...) = 'literal'`. */
  predicate IsSubstringEquality(leaf: Expr)
  {
    && leaf.Binary? && leaf.bop.Equal? && leaf.left.Substring?
    && leaf.right.Literal? && leaf.right.value.Str? && leaf.right.typ.String?
  }

  function OrRoot(conjunct: Expr): Expr
  {
    if conjunct.Unary? && conjunct.uop.Not? then conjunct.operand else conjunct
  }

  /** The left side of the first leaf. */
  function SharedSubstring(conjunct: Expr): Expr
  {
    var first := Disjuncts(OrRoot(conjunct))[0];
    if first.Binary? then first.left else first
  }

  /** Every leaf compares the same SUBSTRING with a string literal. */
  predicate IsSubstringIn(conjunct: Expr)
  {
    && SharedSubstring(conjunct).Substring?
    && forall leaf :: leaf in Disjuncts(OrRoot(conjunct)) ==>
         IsSubstringEquality(leaf) && leaf.left == SharedSubstring(conjunct)
  }

  /** Where a string operand comes from: a column directly, or a compiled tree. */
  datatype Operand = FromColumn(index: nat, typ: TypeId) | FromTree(ast: Ast)

  /** None is the compiler's error. */
  function CompileOperand(e: Expr): Option<Operand>
  {
    if e.Column? then Some(FromColumn(e.index, e.typ))
    else match Compile(e, None)
         case Some(ast) => Some(FromTree(ast))
         case None => None
  }

  function OperandValue(k: Kernels, o: Operand, row: Row): Value
  {
    match o
    case FromColumn(i, t) => if i < |row| then ReadAs(t, row[i]) else Null
    case FromTree(ast) => EvalAst(k, ast, row, [])
  }

  lemma CompiledOperand(k: Kernels, e: Expr, row: Row)
    requires CompileOperand(e).Some?
    ensures OperandValue(k, CompileOperand(e).value, row) == Eval(k, e, row)
  {
    if !e.Column? {
      CompileOneTable(k, e, row);
    }
  }

  datatype SubstringInConjunct =
    SubstringInConjunct(operand: Operand, start: int, length: int, literals: seq<string>, negated: bool)

  datatype Recognized = NotThisShape | CompileError | Compiled(conjunct: SubstringInConjunct)

  function LiteralOf(leaf: Expr): string
  {
    if IsSubstringEquality(leaf) then leaf.right.value.s else ""
  }

  /** `c` is the compiled form of the recognized `conjunct`. */
  predicate CompiledFrom(conjunct: Expr, c: SubstringInConjunct)
    requires IsSubstringIn(conjunct)
  {
    && CompileOperand(SharedSubstring(conjunct).operand) == Some(c.operand)
    && c.start == SharedSubstring(conjunct).start && c.length == SharedSubstring(conjunct).length
    && c.literals == Map((leaf: Expr) => LiteralOf(leaf), Disjuncts(OrRoot(conjunct)))
    && c.negated == (conjunct.Unary? && conjunct.uop.Not?)
  }

  method TryCompileSubstringIn(conjunct: Expr) returns (result: Recognized)
    ensures result.NotThisShape? <==> !IsSubstringIn(conjunct)
    ensures IsSubstringIn(conjunct) ==>
      (result.CompileError? <==> CompileOperand(SharedSubstring(conjunct).operand).None?)
    ensures result.Compiled? ==> CompiledFrom(conjunct, result.conjunct)
  {
    hide CompileOperand, Disjuncts;
    var negated, root := false, conjunct;
    if conjunct.Unary? && conjunct.uop.Not? {
      negated, root := true, conjunct.operand;
    }
    var leaves := Disjuncts(root);
    assert leaves[0] in leaves;
    var shared: Option<Expr> := None;
    var literals: seq<string> := [];
    for i := 0 to |leaves|
      invariant shared.None? <==> i == 0
      invariant shared.Some? ==> shared.value == SharedSubstring(conjunct) && shared.value.Substring?
      invariant |literals| == i && forall j :: 0 <= j < i ==> literals[j] == LiteralOf(leaves[j])
      invariant forall j :: 0 <= j < i ==> IsSubstringEquality(leaves[j]) && leaves[j].left == SharedSubstring(conjunct)
    {
      var leaf := leaves[i];
      assert leaf in leaves;
      if !(leaf.Binary? && leaf.bop.Equal?) {
        return NotThisShape;
      }
      if !(leaf.left.Substring? && leaf.right.Literal? && leaf.right.value.Str? && leaf.right.typ.String?) {
        return NotThisShape;
      }
      if shared.None? {
        shared := Some(leaf.left);
      } else if leaf.left != shared.value {
        return NotThisShape;
      }
      literals := literals + [leaf.right.value.s];
    }
    MapIndex((leaf: Expr) => LiteralOf(leaf), leaves);
    assert literals == Map((leaf: Expr) => LiteralOf(leaf), leaves);
    match CompileOperand(shared.value.operand) {
      case None => return CompileError;
      case Some(operand) =>
        return Compiled(SubstringInConjunct(operand, shared.value.start, shared.value.length, literals, negated));
    }
  }

  /** The library's string equality with a literal. */
  function EqualsLiteral(v: Value, literal: string): Value
  {
    if v.Str? then Bool(v.s == literal) else Null
  }

  function SubstringValue(k: Kernels, c: SubstringInConjunct, row: Row): Value
  {
    var v := OperandValue(k, c.operand, row);
    if v.Str? then Str(k.substring(v.s, c.start - 1, c.length)) else Null
  }

  /** The mask of one SUBSTRING-IN conjunct on one row. */
  function SubstringInMask(k: Kernels, c: SubstringInConjunct, row: Row): Value
    requires c.literals != []
  {
    var equals := Map((literal: string) => EqualsLiteral(SubstringValue(k, c, row), literal), c.literals);
    MapIndex((literal: string) => EqualsLiteral(SubstringValue(k, c, row), literal), c.literals);
    if c.negated then KleeneNot(FoldOr(equals)) else FoldOr(equals)
  }

  lemma EqualityOfStrings(k: Kernels, a: string, b: string)
    ensures EvalBinary(k, Equal, Str(a), Str(b), Boolean) == Bool(a == b)
  {
    StringLessTotal(a, b);
  }

  /** The recognized conjunct means what the OR-chain (or its negation) means. */
  lemma SubstringInAgrees(k: Kernels, conjunct: Expr, c: SubstringInConjunct, row: Row)
    requires IsSubstringIn(conjunct) && CompiledFrom(conjunct, c)
    ensures c.literals != [] && SubstringInMask(k, c, row) == Eval(k, conjunct, row)
  {
    hide FoldOr, Disjuncts;
    var leaves := Disjuncts(OrRoot(conjunct));
    var shared := SharedSubstring(conjunct);
    CompiledOperand(k, shared.operand, row);
    var value := SubstringValue(k, c, row);
    assert value == Eval(k, shared, row);
    var mask := (literal: string) => EqualsLiteral(value, literal);
    var eval := (leaf: Expr) => Eval(k, leaf, row);
    MapIndex((leaf: Expr) => LiteralOf(leaf), leaves);
    forall leaf | leaf in leaves ensures eval(leaf) == mask(LiteralOf(leaf)) && Ternary(eval(leaf)) {
      LeafAgrees(k, leaf, shared, row);
    }
    MapMap(mask, (leaf: Expr) => LiteralOf(leaf), eval, leaves);
    DisjunctsFold(k, OrRoot(conjunct), row);
  }

  lemma LeafAgrees(k: Kernels, leaf: Expr, shared: Expr, row: Row)
    requires IsSubstringEquality(leaf) && leaf.left == shared
    ensures Eval(k, leaf, row) == EqualsLiteral(Eval(k, shared, row), LiteralOf(leaf))
  {
    var v := Eval(k, shared, row);
    if v.Str? {
      EqualityOfStrings(k, v.s, LiteralOf(leaf));
    }
  }

  // ---------------------------------------------------------------------------
  // Splitting the predicate
  // ---------------------------------------------------------------------------

  datatype LikeConjunct = LikeConjunct(operand: Operand, pattern: string, negated: bool)

  function LikeMask(k: Kernels, c: LikeConjunct, row: Row): Value
  {
    var v := OperandValue(k, c.operand, row);
    var mask := if v.Str? then Bool(k.like(v.s, c.pattern)) else Null;
    if c.negated then KleeneNot(mask) else mask
  }

  /** What `open` accepts, conjunct by conjunct. */
  predicate Supported(conjunct: Expr)
  {
    if conjunct.Like? then CompileOperand(conjunct.subject).Some?
    else if IsSubstringIn(conjunct) then CompileOperand(SharedSubstring(conjunct).operand).Some?
    else Compile(conjunct, None).Some?
  }

  predicate IsTree(conjunct: Expr) { !conjunct.Like? && !IsSubstringIn(conjunct) }

  lemma {:induction false} CompileConjunction(es: seq<Expr>)
    requires es != []
    ensures Compile(Conjunction(es), None).Some? <==> forall e :: e in es ==> Compile(e, None).Some?
  {
    var init, last := es[..|es| - 1], es[|es| - 1];
    assert es == init + [last];
    assert last in es && forall e :: e in init ==> e in es;
    assert forall e :: e in es ==> e in init || e == last;
    if |es| > 1 {
      CompileConjunction(init);
      assert Compile(Conjunction(es), None).Some? <==> Compile(Conjunction(init), None).Some? && Compile(last, None).Some?;
    }
  }

  ghost predicate LikesHold(k: Kernels, likes: seq<LikeConjunct>, row: Row)
  {
    forall c :: c in likes ==> LikeMask(k, c, row) == Bool(true)
  }

  ghost predicate SubstringInsHold(k: Kernels, ins: seq<SubstringInConjunct>, row: Row)
  {
    forall c :: c in ins ==> c.literals != [] && SubstringInMask(k, c, row) == Bool(true)
  }

  /** The three lists together mean the conjuncts they were split from. */
  ghost predicate SplitFrom(k: Kernels, conjuncts: seq<Expr>, trees: seq<Expr>, likes: seq<LikeConjunct>,
                            ins: seq<SubstringInConjunct>)
  {
    && |conjuncts| == |trees| + |likes| + |ins|
    && (forall e :: e in trees ==> IsTree(e) && e in conjuncts)
    && (forall e :: e in conjuncts && IsTree(e) ==> e in trees)
    && (forall e :: e in conjuncts && !IsTree(e) ==> Supported(e))
    && (forall c :: c in ins ==> c.literals != [])
    && forall row :: SplitHolds(k, conjuncts, trees, likes, ins, row)
  }

  ghost predicate SplitHolds(k: Kernels, conjuncts: seq<Expr>, trees: seq<Expr>, likes: seq<LikeConjunct>,
                             ins: seq<SubstringInConjunct>, row: Row)
  {
    AllHold(k, conjuncts, row) <==> AllHold(k, trees, row) && LikesHold(k, likes, row) && SubstringInsHold(k, ins, row)
  }

  lemma SplitTree(k: Kernels, conjuncts: seq<Expr>, trees: seq<Expr>, likes: seq<LikeConjunct>,
                  ins: seq<SubstringInConjunct>, e: Expr)
    requires SplitFrom(k, conjuncts, trees, likes, ins) && IsTree(e)
    ensures SplitFrom(k, conjuncts + [e], trees + [e], likes, ins)
  {
    hide IsTree, Supported, LikesHold, SubstringInsHold, AllHold;
    forall row ensures SplitHolds(k, conjuncts + [e], trees + [e], likes, ins, row) {
      assert SplitHolds(k, conjuncts, trees, likes, ins, row);
      AllHoldAppend(k, conjuncts, [e], row);
      AllHoldAppend(k, trees, [e], row);
    }
  }

  lemma SplitLike(k: Kernels, conjuncts: seq<Expr>, trees: seq<Expr>, likes: seq<LikeConjunct>,
                  ins: seq<SubstringInConjunct>,
                  e: Expr, c: LikeConjunct)
    requires SplitFrom(k, conjuncts, trees, likes, ins)
    requires e.Like? && CompileOperand(e.subject) == Some(c.operand) && c.pattern == e.pattern && c.negated == e.negated
    ensures SplitFrom(k, conjuncts + [e], trees, likes + [c], ins)
  {
    hide SubstringInsHold, AllHold;
    forall row ensures SplitHolds(k, conjuncts + [e], trees, likes + [c], ins, row) {
      assert SplitHolds(k, conjuncts, trees, likes, ins, row);
      AllHoldAppend(k, conjuncts, [e], row);
      AllHoldOne(k, e, row);
      CompiledOperand(k, e.subject, row);
      LikesAppend(k, likes, c, row);
    }
  }

  lemma LikesAppend(k: Kernels, likes: seq<LikeConjunct>, c: LikeConjunct, row: Row)
    ensures LikesHold(k, likes + [c], row) <==> LikesHold(k, likes, row) && LikeMask(k, c, row) == Bool(true)
  {
    assert forall l :: l in likes + [c] <==> l in likes || l == c;
  }

  lemma SplitSubstringIn(k: Kernels, conjuncts: seq<Expr>, trees: seq<Expr>, likes: seq<LikeConjunct>,
                         ins: seq<SubstringInConjunct>, e: Expr, c: SubstringInConjunct)
    requires SplitFrom(k, conjuncts, trees, likes, ins)
    requires !e.Like? && IsSubstringIn(e) && CompiledFrom(e, c)
    ensures SplitFrom(k, conjuncts + [e], trees, likes, ins + [c])
  {
    hide LikesHold, AllHold, IsSubstringIn, CompiledFrom, SubstringInMask;
    forall row ensures SplitHolds(k, conjuncts + [e], trees, likes, ins + [c], row) && c.literals != [] {
      assert SplitHolds(k, conjuncts, trees, likes, ins, row);
      AllHoldAppend(k, conjuncts, [e], row);
      AllHoldOne(k, e, row);
      SubstringInAgrees(k, e, c, row);
      SubstringInsAppend(k, ins, c, row);
    }
    SubstringInSupported(e, c);
  }

  lemma SubstringInSupported(e: Expr, c: SubstringInConjunct)
    requires !e.Like? && IsSubstringIn(e) && CompiledFrom(e, c)
    ensures Supported(e) && !IsTree(e) && c.literals != []
  {
    MapIndex((leaf: Expr) => LiteralOf(leaf), Disjuncts(OrRoot(e)));
  }

  lemma SubstringInsAppend(k: Kernels, ins: seq<SubstringInConjunct>, c: SubstringInConjunct, row: Row)
    requires c.literals != []
    ensures SubstringInsHold(k, ins + [c], row) <==> SubstringInsHold(k, ins, row) && SubstringInMask(k, c, row) == Bool(true)
  {
    assert forall l :: l in ins + [c] <==> l in ins || l == c;
  }

  // ---------------------------------------------------------------------------
  // The operator
  // ---------------------------------------------------------------------------

  /** The rows whose mask entry is TRUE. */
  function ApplyMask(mask: seq<Value>, rows: seq<Row>): seq<Row>
    requires |mask| == |rows|
  {
    if rows == [] then []
    else (if mask[0] == Bool(true) then [rows[0]] else []) + ApplyMask(mask[1..], rows[1..])
  }

  lemma {:induction false} ApplyMaskSelects(mask: seq<Value>, rows: seq<Row>, p: Row -> bool)
    requires |mask| == |rows| && forall i :: 0 <= i < |rows| ==> (mask[i] == Bool(true) <==> p(rows[i]))
    ensures ApplyMask(mask, rows) == Select(p, rows)
  {
    if rows != [] {
      SelectCons(p, rows);
      ApplyMaskSelects(mask[1..], rows[1..], p);
    }
  }

  /** Combine a mask with one more, by the NULL-propagating AND. */
  function AndMask(mask: Option<seq<Value>>, more: seq<Value>): seq<Value>
    requires mask.Some? ==> |mask.value| == |more|
  {
    if mask.None? then more else seq(|more|, i requires 0 <= i < |more| => NullAnd(mask.value[i], more[i]))
  }

  ghost predicate PassesParts(k: Kernels, tree: Option<Ast>, likes: seq<LikeConjunct>,
                              ins: seq<SubstringInConjunct>, row: Row)
  {
    && (tree.Some? ==> EvalAst(k, tree.value, row, []) == Bool(true))
    && LikesHold(k, likes, row) && SubstringInsHold(k, ins, row)
  }

  /** `mask` is TRUE exactly on the rows that pass these parts; no mask yet means no parts yet. */
  ghost predicate Marks(k: Kernels, tree: Option<Ast>, likes: seq<LikeConjunct>, ins: seq<SubstringInConjunct>,
                        mask: Option<seq<Value>>, rows: seq<Row>)
  {
    if mask.None? then tree.None? && likes == [] && ins == []
    else |mask.value| == |rows| &&
         forall i :: 0 <= i < |rows| ==> (mask.value[i] == Bool(true) <==> PassesParts(k, tree, likes, ins, rows[i]))
  }

  lemma MarkLike(k: Kernels, tree: Option<Ast>, likes: seq<LikeConjunct>, ins: seq<SubstringInConjunct>,
                 mask: Option<seq<Value>>, rows: seq<Row>, c: LikeConjunct)
    requires Marks(k, tree, likes, ins, mask, rows)
    ensures |Map(row => LikeMask(k, c, row), rows)| == |rows|
    ensures Marks(k, tree, likes + [c], ins, Some(AndMask(mask, Map(row => LikeMask(k, c, row), rows))), rows)
  {
    hide LikesHold, SubstringInsHold, LikeMask;
    MapIndex(row => LikeMask(k, c, row), rows);
    forall i | 0 <= i < |rows|
      ensures PassesParts(k, tree, likes + [c], ins, rows[i])
         <==> PassesParts(k, tree, likes, ins, rows[i]) && LikeMask(k, c, rows[i]) == Bool(true)
    {
      LikesAppend(k, likes, c, rows[i]);
    }
    if mask.None? {
      NoParts(k, rows);
    }
  }

  lemma MarkSubstringIn(k: Kernels, tree: Option<Ast>, likes: seq<LikeConjunct>, ins: seq<SubstringInConjunct>,
                        mask: Option<seq<Value>>, rows: seq<Row>, c: SubstringInConjunct)
    requires Marks(k, tree, likes, ins, mask, rows) && c.literals != []
    ensures |Map(row => SubstringInMask(k, c, row), rows)| == |rows|
    ensures Marks(k, tree, likes, ins + [c], Some(AndMask(mask, Map(row => SubstringInMask(k, c, row), rows))), rows)
  {
    hide LikesHold, SubstringInsHold, SubstringInMask;
    MapIndex(row => SubstringInMask(k, c, row), rows);
    forall i | 0 <= i < |rows|
      ensures PassesParts(k, tree, likes, ins + [c], rows[i])
         <==> PassesParts(k, tree, likes, ins, rows[i]) && SubstringInMask(k, c, rows[i]) == Bool(true)
    {
      SubstringInsAppend(k, ins, c, rows[i]);
    }
    if mask.None? {
      NoParts(k, rows);
    }
  }

  lemma NoParts(k: Kernels, rows: seq<Row>)
    ensures forall i :: 0 <= i < |rows| ==> PassesParts(k, None, [], [], rows[i])
  {
  }

  lemma MarkTree(k: Kernels, ast: Ast, rows: seq<Row>)
    ensures |Map(row => EvalAst(k, ast, row, []), rows)| == |rows|
    ensures Marks(k, Some(ast), [], [], Some(Map(row => EvalAst(k, ast, row, []), rows)), rows)
  {
    MapIndex(row => EvalAst(k, ast, row, []), rows);
  }

  class FilterOperator {
    const k: Kernels
    const condition: Expr
    const child: BatchSource
    var compiledTree: Option<Ast>
    var likes: seq<LikeConjunct>
    var substringIns: seq<SubstringInConjunct>

    constructor (k: Kernels, condition: Expr, child: BatchSource)
      ensures this.k == k && this.condition == condition && this.child == child && likes == [] && substringIns == []
      ensures compiledTree.None?
    {
      this.k, this.condition, this.child := k, condition, child;
      compiledTree, likes, substringIns := None, [], [];
    }

    /** The compiled parts together decide the predicate, and there is at least one. */
    ghost predicate Valid()
      reads this
    {
      && (compiledTree.Some? || likes != [] || substringIns != [])
      && (forall c :: c in substringIns ==> c.literals != [])
      && forall row :: PassesParts(k, compiledTree, likes, substringIns, row) <==> Holds(k, condition, row)
    }

    /** Sort the conjuncts into the three lists; fails when an operand cannot be compiled. */
    method SplitPredicate() returns (ok: bool, trees: seq<Expr>)
      requires likes == [] && substringIns == []
      modifies this`likes, this`substringIns
      ensures ok <==> forall e :: e in Conjuncts(condition) && !IsTree(e) ==> Supported(e)
      ensures ok ==> SplitFrom(k, Conjuncts(condition), trees, likes, substringIns)
    {
      hide SplitFrom, IsSubstringIn, CompiledFrom, CompileOperand, Conjuncts;
      var conjuncts := Conjuncts(condition);
      trees := [];
      NothingSplit(k);
      for i := 0 to |conjuncts|
        invariant SplitFrom(k, conjuncts[..i], trees, likes, substringIns)
        invariant forall e :: e in conjuncts[..i] && !IsTree(e) ==> Supported(e)
      {
        var e := conjuncts[i];
        assert e in conjuncts;
        assert conjuncts[..i + 1] == conjuncts[..i] + [e];
        if e.Like? {
          var operand := CompileOperand(e.subject);
          if operand.None? {
            assert !IsTree(e) && !Supported(e);
            return false, [];
          }
          var c := LikeConjunct(operand.value, e.pattern, e.negated);
          SplitLike(k, conjuncts[..i], trees, likes, substringIns, e, c);
          likes := likes + [c];
        } else {
          var recognized := TryCompileSubstringIn(e);
          match recognized {
            case CompileError => return false, [];
            case Compiled(c) =>
              SplitSubstringIn(k, conjuncts[..i], trees, likes, substringIns, e, c);
              SubstringInSupported(e, c);
              substringIns := substringIns + [c];
            case NotThisShape =>
              SplitTree(k, conjuncts[..i], trees, likes, substringIns, e);
              trees := trees + [e];
          }
        }
      }
      assert conjuncts[..|conjuncts|] == conjuncts;
      return true, trees;
    }

    /** Fails exactly when some conjunct is not supported. */
    method Open() returns (ok: bool)
      requires likes == [] && substringIns == [] && compiledTree.None?
      modifies this
      ensures ok <==> forall e :: e in Conjuncts(condition) ==> Supported(e)
      ensures ok ==> Valid()
    {
      hide Supported, IsTree, Conjuncts;
      var trees: seq<Expr>;
      ok, trees := SplitPredicate();
      if !ok {
        return;
      }
      if trees != [] {
        CompileConjunction(trees);
        compiledTree := Compile(Conjunction(trees), None);
      }
      TreesSupported(k, Conjuncts(condition), trees, likes, substringIns);
      if trees != [] && compiledTree.None? {
        return false;
      }
      forall row ensures PassesParts(k, compiledTree, likes, substringIns, row) <==> Holds(k, condition, row) {
        ConjunctsHold(k, condition, row);
        assert SplitHolds(k, Conjuncts(condition), trees, likes, substringIns, row);
        if trees != [] {
          CompileOneTable(k, Conjunction(trees), row);
          ConjunctionHolds(k, trees, row);
        }
      }
    }

    /** The combined mask of one batch. */
    method MaskOf(batch: Batch) returns (mask: seq<Value>)
      requires Valid()
      ensures Marks(k, compiledTree, likes, substringIns, Some(mask), batch)
    {
      hide PassesParts, LikeMask, SubstringInMask;
      var current: Option<seq<Value>> := None;
      if compiledTree.Some? {
        var ast := compiledTree.value;
        MarkTree(k, ast, batch);
        current := Some(Map(row => EvalAst(k, ast, row, []), batch));
      }
      for i := 0 to |likes|
        invariant Marks(k, compiledTree, likes[..i], [], current, batch)
      {
        var c := likes[i];
        MarkLike(k, compiledTree, likes[..i], [], current, batch, c);
        assert likes[..i + 1] == likes[..i] + [c];
        current := Some(AndMask(current, Map(row => LikeMask(k, c, row), batch)));
      }
      assert likes[..|likes|] == likes;
      for i := 0 to |substringIns|
        invariant Marks(k, compiledTree, likes, substringIns[..i], current, batch)
      {
        var c := substringIns[i];
        MarkSubstringIn(k, compiledTree, likes, substringIns[..i], current, batch, c);
        assert substringIns[..i + 1] == substringIns[..i] + [c];
        current := Some(AndMask(current, Map(row => SubstringInMask(k, c, row), batch)));
      }
      assert substringIns[..|substringIns|] == substringIns;
      return current.value;
    }

    /** The next non-empty batch of kept rows: what it yields, in order, is exactly the rows on
        which the predicate is TRUE. */
    method Next() returns (batch: Option<Batch>)
      requires Valid()
      modifies child
      ensures batch.None? ==> child.pending == [] && old(FilterRows(k, condition, Flatten(child.pending))) == []
      ensures batch.Some? ==> batch.value != []
      ensures batch.Some? ==>
        old(FilterRows(k, condition, Flatten(child.pending))) == batch.value + FilterRows(k, condition, Flatten(child.pending))
    {
      hide Marks, FilterRows;
      var input := child.Next();
      FilterAppend(k, condition, if input.Some? then input.value else [], Flatten(child.pending));
      while input.Some?
        invariant input.None? ==> child.pending == [] && old(FilterRows(k, condition, Flatten(child.pending))) == []
        invariant input.Some? ==>
          old(FilterRows(k, condition, Flatten(child.pending)))
          == FilterRows(k, condition, input.value) + FilterRows(k, condition, Flatten(child.pending))
        decreases input.Some?, |child.pending|
      {
        var mask := MaskOf(input.value);
        MaskedRows(mask, input.value);
        var filtered := ApplyMask(mask, input.value);
        if filtered != [] {
          return Some(filtered);
        }
        input := child.Next();
        FilterAppend(k, condition, if input.Some? then input.value else [], Flatten(child.pending));
      }
      batch := None;
    }

    lemma MaskedRows(mask: seq<Value>, rows: seq<Row>)
      requires Valid() && Marks(k, compiledTree, likes, substringIns, Some(mask), rows)
      ensures |mask| == |rows| && ApplyMask(mask, rows) == FilterRows(k, condition, rows)
    {
      ApplyMaskSelects(mask, rows, row => Holds(k, condition, row));
    }
  }

  lemma FilterAppend(k: Kernels, condition: Expr, a: seq<Row>, b: seq<Row>)
    ensures FilterRows(k, condition, a + b) == FilterRows(k, condition, a) + FilterRows(k, condition, b)
    ensures FilterRows(k, condition, []) == []
  {
    SelectAppend(row => Holds(k, condition, row), a, b);
  }

  lemma NothingSplit(k: Kernels)
    ensures SplitFrom(k, [], [], [], [])
  {
    forall row ensures SplitHolds(k, [], [], [], [], row) {
    }
  }

  lemma TreesSupported(k: Kernels, conjuncts: seq<Expr>, trees: seq<Expr>, likes: seq<LikeConjunct>,
                       ins: seq<SubstringInConjunct>)
    requires SplitFrom(k, conjuncts, trees, likes, ins)
    ensures (forall e :: e in conjuncts ==> Supported(e)) <==> forall e :: e in trees ==> Compile(e, None).Some?
  {
  }

  /** A whole run: open, then take every batch. */
  method RunFilter(k: Kernels, condition: Expr, child: BatchSource) returns (result: Option<seq<Row>>)
    modifies child
    ensures result.Some? <==> forall e :: e in Conjuncts(condition) ==> Supported(e)
    ensures result.Some? ==> result.value == FilterRows(k, condition, old(Flatten(child.pending)))
  {
    hide FilterRows, Supported, Flatten;
    var filter := new FilterOperator(k, condition, child);
    ghost var expected := FilterRows(k, condition, Flatten(child.pending));
    var ok := filter.Open();
    if !ok {
      return None;
    }
    var rows := [];
    while true
      invariant filter.Valid() && filter.child == child && filter.k == k && filter.condition == condition
      invariant rows + FilterRows(k, condition, Flatten(child.pending)) == expected
      decreases |FilterRows(k, condition, Flatten(child.pending))|
    {
      var batch := filter.Next();
      if batch.None? {
        return Some(rows);
      }
      rows := rows + batch.value;
    }
  }
}
