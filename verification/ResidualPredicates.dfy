/** An EXISTS subquery's extra condition on its way to the GPU: the planner re-indexes it for
the narrowed inputs (src/io/physical_planner.cpp) and the compiler splits its columns between
the left and the right table (src/execution_gpu/expression_compiler.cpp). */
module ResidualPredicates {
  import opened Expressions
  import opened PhysicalPlanner
  import opened PlannerCorrectness
  import opened ExpressionCompiler

  /** The compiled condition on a pair of narrowed rows is the original condition on the
      concatenation of the full rows. */
  lemma ResidualReachesKernel(k: Kernels, e: Expr, leftMap: ColumnMap, rightMap: ColumnMap,
                              a: seq<nat>, b: seq<nat>, l: Row, r: Row)
    requires Fits(leftMap, a, |l|) && Fits(rightMap, b, |r|)
    requires Rename(e, ResolveResidual(leftMap, rightMap, |a|)).Some?
    requires Compile(Rename(e, ResolveResidual(leftMap, rightMap, |a|)).value, Some(|a|)).Some?
    ensures EvalAst(k, Compile(Rename(e, ResolveResidual(leftMap, rightMap, |a|)).value, Some(|a|)).value,
                    Gather(a, l), Gather(b, r))
         == Eval(k, e, l + r)
  {
    GatherAt(a, l);
    ResidualCarries(k, e, leftMap, rightMap, a, b, l, r);
    CompileTwoTable(k, Rename(e, ResolveResidual(leftMap, rightMap, |a|)).value, Gather(a, l), Gather(b, r));
  }
}
