/** Choice and construction of the starting tableau of Phase II
    (lib/core/tableau-preparation.ts): the one-phase slack tableau when the
    normalized problem is in standard form, otherwise Phase I followed by the
    removal of artificial columns from the basis and the Phase II objective
    row, and the slack tableau of the original problem when no artificial
    column is needed. */
module Preparation {
  import opened Types
  import opened Matrix
  import opened SimplexRun
  import opened TableauOps
  import opened Phases
  import opened Normalizers

  const PhaseIInfeasibleMessage := "El problema no tiene solución posible (Fase I)"

  /** TableauPreparation, with the tableau as a deep copy. */
  datatype Prepared = Prepared(tableau: Snapshot, normalized: Problem, phaseIIterations: Option<seq<Snapshot>>)

  /** TableauPreparation or SimplexError. */
  datatype PrepResult = Ready(prepared: Prepared) | PrepFailed(error: SimplexError)

  /** createInitialTableau followed, for 'min', by toMaximizationRow. */
  function StandardStart(q: Problem): (s: Snapshot)
    requires q.Complete()
    ensures WellFormed(s)
  {
    InitialTableauShape(q);
    var s := InitialTableau(q);
    if q.Obj().direction == Min then s.(matrix := NegateLast(s.matrix)) else s
  }

  /** prepareStandardForm and prepareBasic: the slack tableau of q, with its
      objective row negated in place for 'min' (the cached objectiveRow keeps
      the row createInitialTableau built). */
  method PrepareFromInitial(q: Problem) returns (s: Snapshot)
    requires q.Complete()
    ensures s == StandardStart(q)
  {
    var tableau := CreateInitialTableau(q);
    InitialTableauShape(q);
    if q.Obj().direction == Min {
      ToMaximizationRow(tableau);
    }
    return tableau.View();
  }

  /** The Phase I tableau has more columns than there are decision
      variables. */
  lemma {:induction false} PhaseIWidth(p: Problem)
    requires p.constraints.Some?
    ensures |p.variables| < Width(PhaseITableau(p).matrix)
  {
  }

  /** What executePhaseI returns when artificial columns exist: the
      infeasibility error when the objective right-hand side ends below -EPS
      after at most PHASE1_MAX_ITERATIONS pivots, and otherwise the Phase II
      tableau built on the tableau left by pivotOutArtificial, with the
      snapshots of Phase I starting with its first tableau. */
  function PhaseIOutcome(p: Problem): PrepResult
    requires p.Complete()
  {
    var e := PhaseIRun(p);
    if !IsPhaseIFeasible(e.final) then PrepFailed(SimplexError(SinSolucion, PhaseIInfeasibleMessage))
    else
      Ready(Prepared(PhaseIISnapshot(p, PivotedOut(p)), NormalizeToLEAndMax(p), Some([PhaseITableau(p)] + e.history)))
  }

  /** The Phase I pivot loop: at most PHASE1_MAX_ITERATIONS pivots from the
      Phase I tableau, keeping its shape. */
  function PhaseIRun(p: Problem): (e: Execution)
    requires p.constraints.Some?
    ensures WellFormed(e.final) && |e.final.matrix| == |p.Cons()| + 1
    ensures |p.variables| < Width(e.final.matrix) == Width(PhaseITableau(p).matrix)
  {
    PhaseITableauCanonical(p);
    PhaseIWidth(p);
    Run(PhaseITableau(p), 0, PHASE1_MAX_ITERATIONS)
  }

  /** pivotOutArtificial applied to the tableau Phase I ends with. */
  function PivotedOut(p: Problem): (out: Snapshot)
    requires p.constraints.Some?
    ensures WellFormed(out) && |out.matrix| == |p.Cons()| + 1 && |p.variables| < Width(out.matrix)
  {
    PivotOut(PhaseIRun(p).final, AuxiliaryColumns(p).artificialCols)
  }

  /** executePhaseI: null when buildPhaseITableau is. */
  method ExecutePhaseI(p: Problem) returns (r: Option<PrepResult>)
    requires p.Complete()
    ensures r.None? <==> |AuxiliaryColumns(p).artificialCols| == 0
    ensures r.Some? ==> r.value == PhaseIOutcome(p)
  {
    var phaseI := BuildPhaseITableau(p);
    if phaseI.None? {
      return None;
    }
    PhaseITableauCanonical(p);
    PhaseIWidth(p);
    var current := phaseI.value.tableau;
    var phaseIIterations := RunPhaseILoop(current);
    if !IsPhaseIFeasible(current.View()) {
      return Some(PrepFailed(SimplexError(SinSolucion, PhaseIInfeasibleMessage)));
    }
    PivotOutArtificial(current, phaseI.value.artificialCols);
    var normalized := NormalizeToLEAndMax(p);
    var t2 := BuildPhaseIISimplexTableau(p, current);
    return Some(Ready(Prepared(t2.View(), normalized, Some(phaseIIterations))));
  }

  /** executePhaseI's pivot loop: at most PHASE1_MAX_ITERATIONS pivots in
      place, recording the starting tableau and a snapshot after each pivot. */
  method RunPhaseILoop(current: Tableau) returns (phaseIIterations: seq<Snapshot>)
    requires WellFormed(current.View())
    modifies current
    ensures current.View() == Run(old(current.View()), 0, PHASE1_MAX_ITERATIONS).final
    ensures phaseIIterations == [old(current.View())] + Run(old(current.View()), 0, PHASE1_MAX_ITERATIONS).history
  {
    phaseIIterations := [current.View()];
    var iterationCount := 0;
    ghost var start := current.View();
    ghost var e := Run(start, 0, PHASE1_MAX_ITERATIONS);
    ghost var done: seq<Snapshot> := [];
    while iterationCount < PHASE1_MAX_ITERATIONS
      invariant 0 <= iterationCount <= PHASE1_MAX_ITERATIONS
      invariant WellFormed(current.View())
      invariant Run(current.View(), 0, PHASE1_MAX_ITERATIONS - iterationCount).final == e.final
      invariant phaseIIterations == [start] + done && |done| == iterationCount
      invariant done + Run(current.View(), 0, PHASE1_MAX_ITERATIONS - iterationCount).history == e.history
    {
      ghost var before := current.View();
      RunNext(before, 0, PHASE1_MAX_ITERATIONS - iterationCount);
      var pivoted := SimplexStep(current);
      if !pivoted {
        break;
      }
      ghost var after := current.View();
      AppendShift(done, after, Run(after, 0, PHASE1_MAX_ITERATIONS - iterationCount - 1).history);
      AppendShift([start], after, done);
      phaseIIterations := phaseIIterations + [current.View()];
      done := done + [after];
      iterationCount := iterationCount + 1;
    }
    RunNext(current.View(), 0, PHASE1_MAX_ITERATIONS - iterationCount);
    AppendShift(done, current.View(), []);
  }

  /** prepare as a value. */
  function PrepareSpec(p: Problem): PrepResult
    requires p.Complete()
  {
    var q := NormalizeToLEAndMax(p);
    if CanUseStandardForm(q) then Ready(Prepared(StandardStart(q), q, None))
    else if |AuxiliaryColumns(p).artificialCols| == 0 then Ready(Prepared(StandardStart(p), p, None))
    else PhaseIOutcome(p)
  }

  /** TableauPreparationService.prepare, for a problem that passed
      validation. */
  method Prepare(p: Problem) returns (r: PrepResult)
    requires p.Complete()
    ensures r == PrepareSpec(p)
  {
    var normalized := NormalizeToLEAndMax(p);
    if CanUseStandardForm(normalized) {
      var s := PrepareFromInitial(normalized);
      return Ready(Prepared(s, normalized, None));
    }
    var phaseIResult := ExecutePhaseI(p);
    if phaseIResult.Some? {
      return phaseIResult.value;
    }
    var s := PrepareFromInitial(p);
    return Ready(Prepared(s, p, None));
  }

  /** The standard-path objective row holds -c_j at the decision columns and
      0 elsewhere for 'max' and 'min' alike: createInitialTableau writes +c_j
      for 'min' and toMaximizationRow negates it, so both directions start
      from the same row and the pivot loop raises c.x in both. */
  lemma {:induction false} StandardStartMaximizes(q: Problem, j: nat)
    requires q.Complete() && j < |q.variables| + |q.Cons()| + 1
    ensures var s := StandardStart(q);
            LastRow(s.matrix)[j] == if j < |q.variables| then -CoefVec(q.variables, q.Obj().coefficients)[j] else 0.0
  {
    InitialTableauShape(q);
    PlacedOverZeros(q.variables, q.Obj().coefficients, q.Obj().direction == Max, |q.variables| + |q.Cons()| + 1, j);
  }

  /** On the standard path the start is canonical for the slack basis and its
      basic solution is feasible. */
  lemma {:induction false} StandardPathCanonical(p: Problem)
    requires p.Complete() && CanUseStandardForm(NormalizeToLEAndMax(p))
    ensures var s := StandardStart(NormalizeToLEAndMax(p));
            Canonical(s) && RhsNonNegative(s.matrix)
  {
    var q := NormalizeToLEAndMax(p);
    InitialTableauCanonical(q);
    InitialTableauShape(q);
    var s0 := InitialTableau(q);
    if q.Obj().direction == Min {
      NegateLastKeepsIdentity(s0.matrix, s0.basis);
      var m := NegateLast(s0.matrix);
      forall i | 0 <= i < |m| - 1
        ensures Rhs(m, i) >= 0.0
      {
        assert m[i] == s0.matrix[i];
      }
    }
  }

  /** prepareBasic is reached only when every constraint is '<=' and some
      right-hand side is negative, so its start has a negative basic
      variable. */
  lemma {:induction false} BasicPathStartsInfeasible(p: Problem)
    requires p.Complete() && !CanUseStandardForm(NormalizeToLEAndMax(p))
    requires |AuxiliaryColumns(p).artificialCols| == 0
    ensures forall i :: 0 <= i < |p.Cons()| ==> p.Cons()[i].op == Le
    ensures exists i :: 0 <= i < |p.Cons()| && p.Cons()[i].rightSide < 0.0
    ensures !RhsNonNegative(StandardStart(p).matrix)
  {
    PhaseINullIffAllLe(p);
    var q := NormalizeToLEAndMax(p);
    var i :| 0 <= i < |q.Cons()| && !(q.Cons()[i].op == Le && q.Cons()[i].rightSide >= 0.0);
    NormalizeAt(p, i);
    var n, m := |p.variables|, |p.Cons()|;
    InitialTableauShape(p);
    InitialTableauEntries(p, i, n + m);
    var s := StandardStart(p);
    assert s.matrix[i] == InitialTableau(p).matrix[i];
    assert Rhs(s.matrix, i) < 0.0;
  }

  /** Phase I records its first tableau and one snapshot per pivot, at most
      PHASE1_MAX_ITERATIONS of them. */
  lemma {:induction false} PhaseIHistoryBounded(p: Problem)
    requires p.Complete() && PhaseIOutcome(p).Ready?
    ensures var h := PhaseIOutcome(p).prepared.phaseIIterations;
            && h.Some? && 1 <= |h.value| <= PHASE1_MAX_ITERATIONS + 1
            && h.value[0] == PhaseITableau(p)
  {
    PhaseITableauCanonical(p);
    RunLength(PhaseITableau(p), 0, PHASE1_MAX_ITERATIONS);
  }

  /** When the right-hand sides of the '>=' and '=' rows add up to at most
      EPS, Phase I never reports infeasibility. */
  lemma {:induction false} PhaseIFeasibleStart(p: Problem)
    requires p.Complete() && ArtificialRhsSum(p.Cons(), |p.Cons()|) <= EPS
    ensures PhaseIOutcome(p).Ready?
  {
    PhaseITableauCanonical(p);
    PhaseIStartFeasibility(p);
    PhaseIFeasibilityStays(PhaseITableau(p), 0, PHASE1_MAX_ITERATIONS);
  }

  /** The tableau pivotOutArtificial leaves after Phase I is canonical and
      as wide as the Phase I tableau. */
  lemma {:induction false} PivotedOutCanonical(p: Problem)
    requires p.Complete()
    ensures IdentityBasis(PivotedOut(p).matrix, PivotedOut(p).basis) && Partition(PivotedOut(p))
  {
    PhaseITableauCanonical(p);
    PhaseIWidth(p);
    var s := PhaseITableau(p);
    RunKeepsBasis(s, 0, PHASE1_MAX_ITERATIONS);
    PivotOutKeepsBasis(Run(s, 0, PHASE1_MAX_ITERATIONS).final, AuxiliaryColumns(p).artificialCols, 0);
  }

  /** The Phase II tableau built on a canonical tableau keeps its constraint
      rows, basis and nonBasis, so every basic column stays a unit column of
      the constraint rows, and its objective row is within MIN_EPS of 0 at
      every basic column. */
  lemma {:induction false} PhaseIISnapshotCanonical(p: Problem, out: Snapshot)
    requires p.objective.Some? && WellFormed(out) && IdentityBasis(out.matrix, out.basis) && Partition(out)
    requires |p.variables| <= Width(out.matrix)
    ensures var t := PhaseIISnapshot(p, out);
            && WellFormed(t) && Partition(t) && t.objectiveRow == LastRow(t.matrix)
            && |t.matrix| == |out.matrix|
            && (forall r, i :: 0 <= r < |t.basis| && 0 <= i < |t.basis| ==>
                  t.matrix[i][t.basis[r]] == if i == r then 1.0 else 0.0)
            && (forall r :: 0 <= r < |t.basis| ==> Abs(LastRow(t.matrix)[t.basis[r]]) <= MIN_EPS)
  {
    PhaseIIBasicColumns(p, out);
    var t := PhaseIISnapshot(p, out);
    forall r, i | 0 <= r < |t.basis| && 0 <= i < |t.basis|
      ensures t.matrix[i][t.basis[r]] == if i == r then 1.0 else 0.0
    {
      assert t.matrix[i] == out.matrix[i];
      assert UnitColumn(out.matrix, out.basis[r], r);
    }
  }

  /** Hence the tableau Phase I hands to Phase II keeps basis and nonBasis a
      partition of the columns, every basic column is a unit column of the
      constraint rows, and the objective row is within MIN_EPS of 0 at every
      basic column. */
  lemma {:induction false} PhaseIIStartCanonical(p: Problem)
    requires p.Complete() && PhaseIOutcome(p).Ready?
    ensures var t := PhaseIOutcome(p).prepared.tableau;
            && WellFormed(t) && Partition(t) && t.objectiveRow == LastRow(t.matrix)
            && |t.matrix| == |p.Cons()| + 1
            && (forall r, i :: 0 <= r < |t.basis| && 0 <= i < |t.basis| ==>
                  t.matrix[i][t.basis[r]] == if i == r then 1.0 else 0.0)
            && (forall r :: 0 <= r < |t.basis| ==> Abs(LastRow(t.matrix)[t.basis[r]]) <= MIN_EPS)
  {
    PivotedOutCanonical(p);
    PhaseIISnapshotCanonical(p, PivotedOut(p));
  }

  /** prepare fails only in Phase I, with SIN_SOLUCION, when the standard
      form is out of reach and artificial columns were needed. */
  lemma {:induction false} PrepareFailure(p: Problem)
    requires p.Complete() && PrepareSpec(p).PrepFailed?
    ensures PrepareSpec(p).error == SimplexError(SinSolucion, PhaseIInfeasibleMessage)
    ensures !CanUseStandardForm(NormalizeToLEAndMax(p)) && |AuxiliaryColumns(p).artificialCols| > 0
    ensures exists i :: 0 <= i < |p.Cons()| && p.Cons()[i].op != Le
  {
    PhaseINullIffAllLe(p);
  }

  /** The problem prepare hands on as normalized has exactly the feasible
      points of the original, whichever path was taken. */
  lemma {:induction false} PreparedKeepsFeasibleSet(p: Problem, x: seq<real>)
    requires p.Complete() && PrepareSpec(p).Ready?
    ensures Feasible(PrepareSpec(p).prepared.normalized, x) <==> Feasible(p, x)
  {
    NormalizeKeepsFeasible(p, x);
  }

  /** Every tableau prepare hands on is a well-formed tableau: a rectangular
      matrix with one basis entry per constraint row, each naming a column
      left of the right-hand side. */
  lemma {:induction false} PreparedWellFormed(p: Problem)
    requires p.Complete() && PrepareSpec(p).Ready?
    ensures WellFormed(PrepareSpec(p).prepared.tableau)
  {
    if !CanUseStandardForm(NormalizeToLEAndMax(p)) && |AuxiliaryColumns(p).artificialCols| > 0 {
      PhaseIIStartCanonical(p);
    }
  }
}
