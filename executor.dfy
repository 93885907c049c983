/** The Phase II pivot loop of lib/core/simplex-executor.ts: at most
    DEFAULT_MAX_ITERATIONS pivots on the caller's tableau, with a snapshot
    after each, failing with NO_ACOTADA when no row qualifies and some
    decision column still improves, and with ENTRADA_INVALIDA when the cap
    is reached. */
module Executor {
  import opened Types
  import opened Matrix
  import opened SimplexRun
  import opened TableauOps

  const UnboundedMessage := "El problema no tiene solución acotada"
  const NoConvergenceMessage := "El algoritmo no convergió"

  /** SimplexExecutionResult or SimplexError. */
  datatype ExecutionResult = Executed(tableau: Snapshot, iterations: seq<Snapshot>) | ExecutionFailed(error: SimplexError)

  /** execute as a value: the run of the loop from s with the isUnbounded
      test over the problem's n decision columns, and the snapshots the loop
      records, starting with s itself. */
  function ExecutionOf(s: Snapshot, p: Problem): ExecutionResult
    requires WellFormed(s)
  {
    var e := Run(s, |p.variables|, DEFAULT_MAX_ITERATIONS);
    if e.stop == Unbounded then ExecutionFailed(SimplexError(NoAcotada, UnboundedMessage))
    else if |e.history| == DEFAULT_MAX_ITERATIONS then ExecutionFailed(SimplexError(EntradaInvalida, NoConvergenceMessage))
    else Executed(e.final, [s] + e.history)
  }

  /** One turn of execute's loop: the pivot on the most negative column and
      its minimum-ratio row when both exist; otherwise no change, reporting
      whether the missing row came with an objective entry below -EPS among
      the first n columns. */
  method ExecutorStep(t: Tableau, n: nat) returns (pivoted: bool, unbounded: bool)
    requires WellFormed(t.View())
    modifies t
    ensures pivoted == Next(old(t.View())).Some?
    ensures t.View() == if pivoted then Next(old(t.View())).value else old(t.View())
    ensures unbounded <==> !pivoted && PivotColumn(old(t.View()).matrix) != -1 && IsUnbounded(old(t.View()), n)
  {
    var pivotColumn := FindPivotColumn(t);
    if pivotColumn == -1 {
      return false, false;
    }
    var pivotRow := FindPivotRow(t, pivotColumn);
    if pivotRow == -1 {
      return false, IsUnbounded(t.View(), n);
    }
    PivotInPlace(t, pivotRow, pivotColumn);
    return true, false;
  }

  /** SimplexExecutorService.execute: the loop works on the caller's tableau
      itself, which ends as the final tableau of the run whatever the
      outcome. */
  method Execute(startTableau: Tableau, p: Problem) returns (r: ExecutionResult)
    requires WellFormed(startTableau.View())
    modifies startTableau
    ensures r == ExecutionOf(old(startTableau.View()), p)
    ensures startTableau.View() == Run(old(startTableau.View()), |p.variables|, DEFAULT_MAX_ITERATIONS).final
  {
    var current := startTableau;
    var iterationCount := 0;
    ghost var n := |p.variables|;
    ghost var target := Run(current.View(), n, DEFAULT_MAX_ITERATIONS).final;
    ghost var stop := Run(current.View(), n, DEFAULT_MAX_ITERATIONS).stop;
    ghost var history := Run(current.View(), n, DEFAULT_MAX_ITERATIONS).history;
    ghost var done: seq<Snapshot> := [];
    var iterations := [current.View()];
    while iterationCount < DEFAULT_MAX_ITERATIONS
      invariant 0 <= iterationCount <= DEFAULT_MAX_ITERATIONS && current == startTableau
      invariant WellFormed(current.View())
      invariant Run(current.View(), n, DEFAULT_MAX_ITERATIONS - iterationCount).final == target
      invariant Run(current.View(), n, DEFAULT_MAX_ITERATIONS - iterationCount).stop == stop
      invariant iterations == [old(startTableau.View())] + done && |done| == iterationCount
      invariant done + Run(current.View(), n, DEFAULT_MAX_ITERATIONS - iterationCount).history == history
    {
      ghost var before := current.View();
      RunNext(before, n, DEFAULT_MAX_ITERATIONS - iterationCount);
      var pivoted, unbounded := ExecutorStep(current, |p.variables|);
      if unbounded {
        return ExecutionFailed(SimplexError(NoAcotada, UnboundedMessage));
      }
      if !pivoted {
        break;
      }
      ghost var after := current.View();
      AppendShift(done, after, Run(after, n, DEFAULT_MAX_ITERATIONS - iterationCount - 1).history);
      AppendShift([old(startTableau.View())], after, done);
      iterations := iterations + [current.View()];
      done := done + [after];
      iterationCount := iterationCount + 1;
    }
    RunNext(current.View(), n, DEFAULT_MAX_ITERATIONS - iterationCount);
    AppendShift(done, current.View(), []);
    if iterationCount == DEFAULT_MAX_ITERATIONS {
      return ExecutionFailed(SimplexError(EntradaInvalida, NoConvergenceMessage));
    }
    return Executed(current.View(), iterations);
  }

  /** A success carries one snapshot per pivot after the start (fewer than
      the cap), the last one being the returned tableau; the returned tableau
      is either optimal (no negative objective entry) or has a most negative
      column with no eligible row while none of the first n objective
      entries is below -EPS. */
  lemma {:induction false} ExecutionSuccess(s: Snapshot, p: Problem)
    requires WellFormed(s) && ExecutionOf(s, p).Executed?
    ensures var r := ExecutionOf(s, p);
            var f := r.tableau.matrix;
            && 1 <= |r.iterations| <= DEFAULT_MAX_ITERATIONS
            && r.iterations[0] == s && r.iterations[|r.iterations| - 1] == r.tableau
            && WellFormed(r.tableau)
            && ((forall j :: 0 <= j < Width(f) - 1 ==> LastRow(f)[j] >= 0.0)
                || (PivotColumn(f) != -1 && !IsUnbounded(r.tableau, |p.variables|)
                    && forall i :: 0 <= i < |f| - 1 ==> !Eligible(f, i, PivotColumn(f))))
  {
    var n := |p.variables|;
    var e := Run(s, n, DEFAULT_MAX_ITERATIONS);
    RunLength(s, n, DEFAULT_MAX_ITERATIONS);
    RunLast(s, n, DEFAULT_MAX_ITERATIONS);
    RunStopReason(s, n, DEFAULT_MAX_ITERATIONS);
    assert e.stop != Unbounded && |e.history| < DEFAULT_MAX_ITERATIONS;
    var its := [s] + e.history;
    assert ExecutionOf(s, p) == Executed(e.final, its);
    if |e.history| > 0 {
      assert its[|its| - 1] == e.history[|e.history| - 1];
      assert WellFormed(e.history[|e.history| - 1]);
    }
    assert e.stop == Converged || e.stop == NoPivotRow;
  }

  /** NO_ACOTADA exactly when the loop stopped for want of a pivot row while
      one of the first n objective entries is below -EPS. */
  lemma {:induction false} ExecutionUnbounded(s: Snapshot, p: Problem)
    requires WellFormed(s)
    ensures var r := ExecutionOf(s, p);
            (r.ExecutionFailed? && r.error.kind == NoAcotada) <==>
              (Run(s, |p.variables|, DEFAULT_MAX_ITERATIONS).stop == Unbounded)
    ensures var r := ExecutionOf(s, p);
            var f := Run(s, |p.variables|, DEFAULT_MAX_ITERATIONS).final;
            (r.ExecutionFailed? && r.error.kind == NoAcotada) ==>
              && IsUnbounded(f, |p.variables|) && PivotColumn(f.matrix) != -1
              && forall i :: 0 <= i < |f.matrix| - 1 ==> !Eligible(f.matrix, i, PivotColumn(f.matrix))
  {
    RunLength(s, |p.variables|, DEFAULT_MAX_ITERATIONS);
    RunStopReason(s, |p.variables|, DEFAULT_MAX_ITERATIONS);
  }

  /** ENTRADA_INVALIDA exactly when the loop made DEFAULT_MAX_ITERATIONS
      pivots, even when the last of them reached the optimum. */
  lemma {:induction false} ExecutionCap(s: Snapshot, p: Problem)
    requires WellFormed(s)
    ensures var r := ExecutionOf(s, p);
            (r.ExecutionFailed? && r.error.kind == EntradaInvalida) <==>
              |Run(s, |p.variables|, DEFAULT_MAX_ITERATIONS).history| == DEFAULT_MAX_ITERATIONS
  {
    RunLength(s, |p.variables|, DEFAULT_MAX_ITERATIONS);
  }

  /** From a canonical start with a feasible basic solution, a success returns
      a canonical tableau whose basic solution is still feasible and whose
      objective value has not decreased. */
  lemma {:induction false} ExecutionKeepsInvariants(s: Snapshot, p: Problem)
    requires Canonical(s) && RhsNonNegative(s.matrix)
    requires ExecutionOf(s, p).Executed?
    ensures var t := ExecutionOf(s, p).tableau;
            && Canonical(t) && RhsNonNegative(t.matrix)
            && |t.matrix| == |s.matrix|
            && Rhs(t.matrix, |s.matrix| - 1) >= Rhs(s.matrix, |s.matrix| - 1)
  {
    var n := |p.variables|;
    RunKeepsBasis(s, n, DEFAULT_MAX_ITERATIONS);
    RunKeepsFeasible(s, n, DEFAULT_MAX_ITERATIONS);
    RunRaisesObjective(s, n, DEFAULT_MAX_ITERATIONS);
  }
}
