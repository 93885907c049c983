/** A worked example on which runSimplex's entering-column lookup goes
    wrong: on the third pivot it reads nonBasis past its end. */
module RunSimplexFinding {
  import opened Types
  import opened Matrix
  import opened SimplexRun
  import opened TableauOps

  /** max 3 x1 + 2 x2 subject to x1 <= 4, 2 x1 + x2 <= 10, x2 <= 6. */
  function ExampleProblem(): Problem {
    Problem("example",
            Some(Objective(Max, [Coefficient("x1", 3.0), Coefficient("x2", 2.0)])),
            Some([Constraint([Coefficient("x1", 1.0)], Le, 4.0),
                  Constraint([Coefficient("x1", 2.0), Coefficient("x2", 1.0)], Le, 10.0),
                  Constraint([Coefficient("x2", 1.0)], Le, 6.0)]),
            ["x1", "x2"])
  }

  /** The example's tableau before any pivot, after one and after two. */
  function M0(): seq<seq<real>> {
    [[1.0, 0.0, 1.0, 0.0, 0.0, 4.0],
     [2.0, 1.0, 0.0, 1.0, 0.0, 10.0],
     [0.0, 1.0, 0.0, 0.0, 1.0, 6.0],
     [-3.0, -2.0, 0.0, 0.0, 0.0, 0.0]]
  }

  function M1(): seq<seq<real>> {
    [[1.0, 0.0, 1.0, 0.0, 0.0, 4.0],
     [0.0, 1.0, -2.0, 1.0, 0.0, 2.0],
     [0.0, 1.0, 0.0, 0.0, 1.0, 6.0],
     [0.0, -2.0, 3.0, 0.0, 0.0, 12.0]]
  }

  function M2(): seq<seq<real>> {
    [[1.0, 0.0, 1.0, 0.0, 0.0, 4.0],
     [0.0, 1.0, -2.0, 1.0, 0.0, 2.0],
     [0.0, 0.0, 2.0, -1.0, 1.0, 4.0],
     [0.0, 0.0, -1.0, 2.0, 0.0, 16.0]]
  }

  /** The objective and constraint rows of the example, placed over the
      declared variables. */
  lemma {:induction false} ExampleRows()
    ensures ConstraintRow(ExampleProblem(), 0) == M0()[0]
    ensures ConstraintRow(ExampleProblem(), 1) == M0()[1]
    ensures ConstraintRow(ExampleProblem(), 2) == M0()[2]
    ensures InitialObjective(ExampleProblem()) == M0()[3]
  {
    var vars := ExampleProblem().variables;
    var x1, x2 := Coefficient("x1", 1.0), Coefficient("x2", 1.0);
    assert "x2" != "x1" by { assert "x2"[1] != "x1"[1]; }
    assert IndexOf(vars, "x1") == 0 && IndexOf(vars, "x2") == 1;
    var c2 := [Coefficient("x1", 2.0), Coefficient("x2", 1.0)];
    var obj := [Coefficient("x1", 3.0), Coefficient("x2", 2.0)];
    assert [x1][..0] == [] && [x2][..0] == [];
    assert c2[..1][..0] == [] && c2[..1] == [c2[0]] && obj[..1][..0] == [] && obj[..1] == [obj[0]];
    assert Placed(Zeros(6), vars, [x1], false) == [1.0, 0.0, 0.0, 0.0, 0.0, 0.0];
    assert Placed(Zeros(6), vars, [x2], false) == [0.0, 1.0, 0.0, 0.0, 0.0, 0.0];
    assert Placed(Zeros(6), vars, c2[..1], false) == [2.0, 0.0, 0.0, 0.0, 0.0, 0.0];
    assert Placed(Zeros(6), vars, c2, false) == [2.0, 1.0, 0.0, 0.0, 0.0, 0.0];
    assert Placed(Zeros(6), vars, obj[..1], true) == [-3.0, 0.0, 0.0, 0.0, 0.0, 0.0];
    assert Placed(Zeros(6), vars, obj, true) == [-3.0, -2.0, 0.0, 0.0, 0.0, 0.0];
  }

  lemma {:induction false} ExampleInitial()
    ensures InitialTableau(ExampleProblem()) == S0()
  {
    ExampleRows();
    var s0 := InitialTableau(ExampleProblem());
    assert s0.matrix == M0();
  }

  lemma {:induction false} ExampleFirstChoice()
    ensures Rect(M0()) && PivotColumn(M0()) == 0 && PivotRow(M0(), 0) == 0
  {
  }

  lemma {:induction false} ExampleFirstRows()
    ensures Rect(M0()) && M0()[0][0] != 0.0
    ensures NormalizedRow(M0(), 0, 0) == M1()[0]
    ensures Eliminated(M0()[1], 2.0, M1()[0]) == M1()[1]
    ensures Eliminated(M0()[2], 0.0, M1()[0]) == M1()[2]
    ensures Eliminated(M0()[3], -3.0, M1()[0]) == M1()[3]
  {
  }

  lemma {:induction false} ExampleFirstPivot()
    ensures Rect(M0()) && PivotColumn(M0()) == 0 && PivotRow(M0(), 0) == 0
    ensures Pivot(M0(), 0, 0) == M1()
  {
    ExampleFirstChoice();
    ExampleFirstRows();
    PivotByRows(M0(), 0, 0, M1());
  }

  lemma {:induction false} ExampleSecondChoice()
    ensures Rect(M1()) && PivotColumn(M1()) == 1 && PivotRow(M1(), 1) == 1
  {
  }

  lemma {:induction false} ExampleSecondRows()
    ensures Rect(M1()) && M1()[1][1] != 0.0
    ensures NormalizedRow(M1(), 1, 1) == M2()[1]
    ensures Eliminated(M1()[0], 0.0, M2()[1]) == M2()[0]
    ensures Eliminated(M1()[2], 1.0, M2()[1]) == M2()[2]
    ensures Eliminated(M1()[3], -2.0, M2()[1]) == M2()[3]
  {
  }

  lemma {:induction false} ExampleSecondPivot()
    ensures Rect(M1()) && PivotColumn(M1()) == 1 && PivotRow(M1(), 1) == 1
    ensures Pivot(M1(), 1, 1) == M2()
  {
    ExampleSecondChoice();
    ExampleSecondRows();
    PivotByRows(M1(), 1, 1, M2());
  }

  lemma {:induction false} ExampleThirdPivot()
    ensures Rect(M2()) && PivotColumn(M2()) == 2 && PivotRow(M2(), 2) == 2
  {
  }

  /** The example's snapshots before any pivot, after one and after two. */
  function S0(): Snapshot {
    Snapshot(M0(), [2, 3, 4], [0, 1], M0()[3])
  }

  function S1(): Snapshot {
    Snapshot(M1(), [0, 3, 4], [2, 1], M0()[3])
  }

  function S2(): Snapshot {
    Snapshot(M2(), [0, 1, 4], [2, 3], M0()[3])
  }

  lemma {:induction false} ExampleWellFormed()
    ensures WellFormed(S0()) && WellFormed(S1())
  {
    assert Width(M0()) == 6 && |M0()| == 4;
    assert Width(M1()) == 6 && |M1()| == 4;
  }

  /** The bookkeeping of the two pivots: the entering column is found in
      nonBasis and swapped for the leaving one, which is also what writing the
      leaving column at the pivot column's position in nonBasis gives. */
  lemma {:induction false} ExampleSwapOne()
    ensures SwapIn(S0().nonBasis, 0, S0().basis[0]) == S1().nonBasis
    ensures S0().basis[0 := 0] == S1().basis
    ensures S1().nonBasis == S0().nonBasis[0 := S0().basis[0]]
  {
    var nb0: seq<nat> := [0, 1];
    assert IndexOf(nb0, 0) == 0;
  }

  lemma {:induction false} ExampleSwapTwo()
    ensures SwapIn(S1().nonBasis, 1, S1().basis[1]) == S2().nonBasis
    ensures S1().basis[1 := 1] == S2().basis
    ensures S2().nonBasis == S1().nonBasis[1 := S1().basis[1]]
  {
    var nb1: seq<nat> := [2, 1];
    assert nb1[0] != 1 && nb1[1..] == [1];
    assert IndexOf(nb1, 1) == 1;
  }

  lemma {:induction false} ExampleStepOne()
    ensures WellFormed(S0()) && PivotStep(S0(), 0, 0) == S1()
  {
    ExampleWellFormed();
    ExampleFirstPivot();
    ExampleSwapOne();
  }

  lemma {:induction false} ExampleStepTwo()
    ensures WellFormed(S1()) && PivotStep(S1(), 1, 1) == S2()
  {
    ExampleWellFormed();
    ExampleSecondPivot();
    ExampleSwapTwo();
  }

  /** On the example, the first two pivots enter x1 and x2, where reading
      nonBasis at the pivot column happens to give the pivot column itself,
      so runSimplex as written reaches the same tableau as the pivot-column
      rule. */
  lemma {:induction false} RunSimplexAsWrittenFirstPivots()
    ensures InitialTableau(ExampleProblem()) == S0()
    ensures WellFormed(S0()) && PivotColumn(M0()) == 0 && PivotRow(M0(), 0) == 0
    ensures EnteringAsWritten(S0().nonBasis, 0) == Some(0) && PivotStep(S0(), 0, 0) == S1()
    ensures S1().nonBasis == S0().nonBasis[0 := S0().basis[0]]
    ensures WellFormed(S1()) && PivotColumn(M1()) == 1 && PivotRow(M1(), 1) == 1
    ensures EnteringAsWritten(S1().nonBasis, 1) == Some(1) && PivotStep(S1(), 1, 1) == S2()
    ensures S2().nonBasis == S1().nonBasis[1 := S1().basis[1]]
  {
    ExampleInitial();
    ExampleStepOne();
    ExampleStepTwo();
    ExampleFirstChoice();
    ExampleSecondChoice();
    ExampleSwapOne();
    ExampleSwapTwo();
  }

  /** The third pivot enters the first slack, column 2, while nonBasis has
      only two entries: runSimplex as written puts undefined into the basis,
      whereas the pivot-column rule enters column 2. */
  lemma {:induction false} RunSimplexAsWrittenLosesEntering()
    ensures Rect(M2()) && PivotColumn(M2()) == 2 && PivotRow(M2(), 2) == 2
    ensures |S2().nonBasis| == 2 && EnteringAsWritten(S2().nonBasis, 2) == None
  {
    ExampleThirdPivot();
  }
}
