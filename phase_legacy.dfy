/** The older two-phase bridge of services/simplex/phase.ts: the same column
    layout, basis and non-basis as the current bridge, an auxiliary objective
    row without the final sign flip, a pivot-out pass with a literal 1e-9
    tolerance, and a Phase II row built by direction and negated back for
    min. */
module PhaseLegacy {
  import opened Types
  import opened Matrix
  import opened SimplexRun
  import opened TableauOps
  import opened Phases

  /** The older auxiliary objective row: -1 at the artificial columns plus
      every artificial-bearing constraint row, with no negation. */
  function LegacyObjective(m: seq<seq<real>>, rowArt: seq<Option<nat>>, art: seq<nat>): (r: seq<real>)
    requires Rect(m) && |rowArt| >= |m| - 1
    ensures |r| == Width(m)
  {
    AddRows(ArtificialBase(LastRow(m), art), m, rowArt, |m| - 1)
  }

  function LegacyPhaseIMatrix(p: Problem): (mat: seq<seq<real>>)
    requires p.constraints.Some?
    ensures Rect(mat) && |mat| == AuxiliaryColumns(p).rows && Width(mat) == AuxiliaryColumns(p).cols
  {
    var l := AuxiliaryColumns(p);
    var c := ConstraintMatrix(p);
    c[|c| - 1 := LegacyObjective(c, l.rowArtificial, l.artificialCols)]
  }

  /** The older buildPhaseITableau's tableau as a value. */
  function LegacyPhaseITableau(p: Problem): (s: Snapshot)
    requires p.constraints.Some?
  {
    var l := AuxiliaryColumns(p);
    StartSnapshot(LegacyPhaseIMatrix(p), l.rowSlack, l.rowArtificial, l.cols)
  }

  /** The objective-row loops of the older buildPhaseITableau: -1 at every
      artificial column, then every artificial-bearing row added in. */
  method AddArtificialRows(matrix: seq<seq<real>>, rows: nat, cols: nat, artificialCols: seq<nat>,
                           rowArtificial: seq<Option<nat>>) returns (result: seq<seq<real>>)
    requires Rect(matrix) && rows == |matrix| && cols == Width(matrix) && |rowArtificial| == rows - 1
    requires forall a :: 0 <= a < |artificialCols| ==> artificialCols[a] < cols
    ensures result == matrix[rows - 1 := LegacyObjective(matrix, rowArtificial, artificialCols)]
  {
    var last := rows - 1;
    result := matrix;
    assert ArtificialBase(matrix[last], artificialCols[..0]) == matrix[last];
    var a := 0;
    while a < |artificialCols|
      invariant 0 <= a <= |artificialCols|
      invariant result == matrix[last := ArtificialBase(matrix[last], artificialCols[..a])]
    {
      result := result[last := result[last][artificialCols[a] := -1.0]];
      assert artificialCols[..a + 1] == artificialCols[..a] + [artificialCols[a]];
      assert result[last] == ArtificialBase(matrix[last], artificialCols[..a + 1]);
      a := a + 1;
    }
    assert artificialCols[..a] == artificialCols;
    ghost var base := result[last];
    var i := 0;
    while i < last
      invariant 0 <= i <= last
      invariant result == matrix[last := AddRows(base, matrix, rowArtificial, i)]
    {
      if rowArtificial[i].Some? {
        ghost var prev := result[last];
        var j := 0;
        while j < cols
          invariant 0 <= j <= cols && |result| == rows && |result[last]| == cols
          invariant forall q :: 0 <= q < rows && q != last ==> result[q] == matrix[q]
          invariant forall k :: 0 <= k < j ==> result[last][k] == prev[k] + matrix[i][k]
          invariant forall k :: j <= k < cols ==> result[last][k] == prev[k]
        {
          result := result[last := result[last][j := result[last][j] + result[i][j]]];
          j := j + 1;
        }
        assert result[last] == AddRows(base, matrix, rowArtificial, i + 1);
      }
      i := i + 1;
    }
  }

  /** The older buildPhaseITableau: None exactly when no artificial column is
      needed, otherwise the tableau with the un-negated auxiliary row. */
  method BuildPhaseITableau(p: Problem) returns (r: Option<PhaseI>)
    requires p.constraints.Some?
    ensures r.None? <==> |AuxiliaryColumns(p).artificialCols| == 0
    ensures r.Some? ==> && fresh(r.value.tableau) && r.value.tableau.View() == LegacyPhaseITableau(p)
                        && r.value.artificialCols == AuxiliaryColumns(p).artificialCols
                        && r.value.rowArtificial == AuxiliaryColumns(p).rowArtificial
  {
    var l := ComputeAuxiliaryColumns(p);
    if |l.artificialCols| == 0 {
      return None;
    }
    var snapshot := BuildPhaseISnapshot(p, l);
    var t := new Tableau(snapshot);
    return Some(PhaseI(t, l.artificialCols, l.rowArtificial));
  }

  /** The matrix, basis and nonBasis buildPhaseITableau assembles once it
      knows the layout. */
  method BuildPhaseISnapshot(p: Problem, l: Layout) returns (snapshot: Snapshot)
    requires p.constraints.Some? && l == AuxiliaryColumns(p)
    ensures snapshot == LegacyPhaseITableau(p)
  {
    assert |l.rowSlack| == |l.rowArtificial| == l.rows - 1 && l.cols >= 1;
    var matrix := BuildConstraintMatrix(p, l.rows, l.cols, l.rowSlack, l.rowSurplus, l.rowArtificial);
    ArtificialColsBound(p);
    matrix := AddArtificialRows(matrix, l.rows, l.cols, l.artificialCols, l.rowArtificial);
    assert matrix == LegacyPhaseIMatrix(p);
    snapshot := BuildStartSnapshot(matrix, l.rowSlack, l.rowArtificial, l.cols);
  }

  lemma {:induction false} NegatedTwice(row: seq<real>)
    ensures Negated(Negated(row)) == row
  {
    assert forall j :: 0 <= j < |row| ==> Negated(Negated(row))[j] == row[j];
  }

  /** The older Phase I matrix is the current one with its last row negated. */
  lemma {:induction false} LegacyMatrixIsNegation(p: Problem)
    requires p.constraints.Some?
    ensures var m := PhaseIMatrix(p);
            LegacyPhaseIMatrix(p) == m[|m| - 1 := Negated(LastRow(m))]
  {
    var l := AuxiliaryColumns(p);
    var c := ConstraintMatrix(p);
    NegatedTwice(LegacyObjective(c, l.rowArtificial, l.artificialCols));
  }

  /** The older auxiliary row holds 0 at every slack and artificial column,
      -1 at every surplus column, +the summed coefficients of the '>=' and
      '=' rows at the decision columns and +the sum of their right-hand sides
      in the corner. */
  lemma {:induction false} LegacyPhaseIObjectiveEntries(p: Problem)
    requires p.constraints.Some?
    ensures var l := AuxiliaryColumns(p);
            var obj := LastRow(LegacyPhaseIMatrix(p));
            && (forall i :: 0 <= i < |p.Cons()| && l.rowSlack[i].Some? ==> obj[l.rowSlack[i].value] == 0.0)
            && (forall i :: 0 <= i < |p.Cons()| && l.rowArtificial[i].Some? ==> obj[l.rowArtificial[i].value] == 0.0)
            && (forall i :: 0 <= i < |p.Cons()| && l.rowSurplus[i].Some? ==> obj[l.rowSurplus[i].value] == -1.0)
            && (forall j :: 0 <= j < |p.variables| ==> obj[j] == ArtificialCoefSum(p.variables, p.Cons(), |p.Cons()|, j))
            && obj[l.cols - 1] == ArtificialRhsSum(p.Cons(), |p.Cons()|)
  {
    LegacyMatrixIsNegation(p);
    PhaseIObjectiveEntries(p);
  }

  /** The older Phase I matrix is the current one with its objective row
      negated, so every basic column is still a unit column. */
  lemma {:induction false} LegacyPhaseIIdentity(p: Problem)
    requires p.constraints.Some?
    ensures var m := PhaseIMatrix(p);
            && LegacyPhaseIMatrix(p) == NegateLast(m)
            && IdentityBasis(LegacyPhaseIMatrix(p), PhaseITableau(p).basis)
  {
    var m := PhaseIMatrix(p);
    LegacyMatrixIsNegation(p);
    PhaseITableauCanonical(p);
    assert LegacyPhaseIMatrix(p) == NegateLast(m) by {
      assert LastRow(LegacyPhaseIMatrix(p)) == LastRow(NegateLast(m));
    }
    NegateLastKeepsIdentity(m, PhaseITableau(p).basis);
  }

  /** The older Phase I tableau has the current one's basis and nonBasis,
      is canonical for that basis, and caches its last row. */
  lemma {:induction false} LegacyPhaseITableauCanonical(p: Problem)
    requires p.constraints.Some?
    ensures var s, cur := LegacyPhaseITableau(p), PhaseITableau(p);
            && s.basis == cur.basis && s.nonBasis == cur.nonBasis
            && WellFormed(s) && IdentityBasis(s.matrix, s.basis) && Partition(s)
            && s.objectiveRow == LastRow(s.matrix)
  {
    var l := AuxiliaryColumns(p);
    assert LegacyPhaseITableau(p).basis == PhaseITableau(p).basis;
    assert LegacyPhaseITableau(p).nonBasis == PhaseITableau(p).nonBasis;
    LegacyPhaseIIdentity(p);
    PhaseIBasisDistinct(p);
    ComplementSnapshotPartition(LegacyPhaseITableau(p), l.cols - 1);
  }

  /** The inner loop of the older pivotOutArtificial: the first column
      before cols that is not artificial and exceeds 1e-9 in absolute value,
      or -1. */
  method ScanEnteringColumn(row: seq<real>, artificialCols: seq<nat>, cols: nat) returns (enterCol: int)
    requires cols <= |row|
    ensures enterCol == EnteringColumnUpTo(row, artificialCols, cols)
  {
    enterCol := -1;
    var j := 0;
    while j < cols
      invariant 0 <= j <= cols
      invariant enterCol == -1 && EnteringColumnUpTo(row, artificialCols, j) == -1
    {
      if j !in artificialCols && Abs(row[j]) > 1e-9 {
        assert EnteringColumnUpTo(row, artificialCols, j + 1) == j;
        EnteringColumnFirst(row, artificialCols, j + 1, cols);
        enterCol := j;
        break;
      }
      j := j + 1;
    }
  }

  /** The older pivotOutArtificial: the same pass as the current one, with
      the entering column searched by an inner loop that breaks on the first
      non-artificial column above the literal tolerance 1e-9. */
  method PivotOutArtificial(tableau: Tableau, artificialCols: seq<nat>)
    requires WellFormed(tableau.View())
    modifies tableau
    ensures tableau.View() == PivotOut(old(tableau.View()), artificialCols)
  {
    var cols := |tableau.matrix[0]| - 1;
    var i := 0;
    while i < |tableau.basis|
      invariant WellFormed(tableau.View()) && 0 <= i <= |tableau.basis| && cols == Width(tableau.matrix) - 1
      invariant PivotOutFrom(tableau.View(), artificialCols, i) == PivotOut(old(tableau.View()), artificialCols)
    {
      ghost var before := tableau.View();
      assert PivotOutFrom(before, artificialCols, i) == PivotOutFrom(PivotOutRow(before, artificialCols, i), artificialCols, i + 1);
      PivotOutRowInPlace(tableau, artificialCols, i, cols);
      i := i + 1;
    }
  }

  /** The body of the older pass's loop, for row i. */
  method PivotOutRowInPlace(tableau: Tableau, artificialCols: seq<nat>, i: nat, cols: nat)
    requires WellFormed(tableau.View()) && i < |tableau.basis| && cols == Width(tableau.matrix) - 1
    modifies tableau
    ensures tableau.View() == PivotOutRow(old(tableau.View()), artificialCols, i)
  {
    var b := tableau.basis[i];
    if b in artificialCols {
      var enterCol := ScanEnteringColumn(tableau.matrix[i], artificialCols, cols);
      assert enterCol == EnteringColumn(tableau.matrix, artificialCols, i);
      if enterCol != -1 {
        PivotInPlace(tableau, i, enterCol);
      }
    }
  }

  /** The older Phase II row before reduction: -c_j for max, +c_j for min. */
  function LegacyPhaseIIStart(p: Problem, w: nat): (row: seq<real>)
    requires p.objective.Some? && |p.variables| <= w
    ensures |row| == w
  {
    Placed(Zeros(w), p.variables, p.Obj().coefficients, p.Obj().direction == Max)
  }

  /** The older buildPhaseIISimplexTableau as a value: the row reduced against
      the basis and then negated for min. */
  function LegacyPhaseIISnapshot(p: Problem, s: Snapshot): (t: Snapshot)
    requires p.objective.Some? && WellFormed(s) && |p.variables| <= Width(s.matrix)
  {
    var reduced := Reduced(LegacyPhaseIIStart(p, Width(s.matrix)), s.matrix, s.basis, |s.basis|);
    var row := if p.Obj().direction == Min then Negated(reduced) else reduced;
    Snapshot(s.matrix[|s.matrix| - 1 := row], s.basis, s.nonBasis, row)
  }

  /** The closing loop of the older buildPhaseIISimplexTableau for min:
      every entry of the row changes sign. */
  method NegateRow(row: seq<real>) returns (r: seq<real>)
    ensures r == Negated(row)
  {
    r := row;
    var j := 0;
    while j < |r|
      invariant 0 <= j <= |r| == |row|
      invariant forall q :: 0 <= q < j ==> r[q] == -row[q]
      invariant forall q :: j <= q < |r| ==> r[q] == row[q]
    {
      r := r[j := -r[j]];
      j := j + 1;
    }
  }

  /** The older buildPhaseIISimplexTableau on a deep copy: the row is
      placed as -c_j for max and +c_j for min, reduced against the basis
      (its literal 1e-12 is MIN_EPS), and negated back for min. */
  method BuildPhaseIISimplexTableau(p: Problem, phaseITableau: Tableau) returns (tableau: Tableau)
    requires p.objective.Some? && WellFormed(phaseITableau.View()) && |p.variables| <= Width(phaseITableau.matrix)
    ensures fresh(tableau) && tableau.View() == LegacyPhaseIISnapshot(p, phaseITableau.View())
  {
    tableau := new Tableau(phaseITableau.View());
    var matrix, basis := tableau.matrix, tableau.basis;
    assert WellFormed(Snapshot(matrix, basis, tableau.nonBasis, tableau.objectiveRow));
    var lastRow := |matrix| - 1;
    var objective := p.Obj();
    var objectiveRow := PlaceCoefficients(Zeros(|matrix[0]|), p.variables, objective.coefficients,
                                          objective.direction == Max);
    objectiveRow := ReduceAgainstBasis(objectiveRow, matrix, basis);
    if objective.direction == Min {
      objectiveRow := NegateRow(objectiveRow);
    }
    tableau.matrix := matrix[lastRow := objectiveRow];
    tableau.objectiveRow := objectiveRow;
  }

  /** Reduction commutes with negation: the eliminated factors change sign
      and are compared by absolute value. */
  lemma {:induction false} ReducedNegated(row: seq<real>, m: seq<seq<real>>, basis: seq<nat>, k: nat)
    requires Rect(m) && |row| == Width(m) && k <= |basis| < |m|
    requires forall i :: 0 <= i < |basis| ==> basis[i] < Width(m)
    ensures Reduced(Negated(row), m, basis, k) == Negated(Reduced(row, m, basis, k))
  {
    if k > 0 {
      ReducedNegated(row, m, basis, k - 1);
      var prev := Reduced(row, m, basis, k - 1);
      var f := prev[basis[k - 1]];
      assert Reduced(Negated(row), m, basis, k - 1)[basis[k - 1]] == -f;
      if Abs(f) > MIN_EPS {
        EliminatedNegated(prev, f, m[k - 1]);
      }
    }
  }

  /** Eliminating with the opposite factor from the opposite row gives the
      opposite result. */
  lemma {:induction false} EliminatedNegated(row: seq<real>, f: real, pr: seq<real>)
    requires |row| == |pr|
    ensures Eliminated(Negated(row), -f, pr) == Negated(Eliminated(row, f, pr))
  {
    var a, b := Eliminated(Negated(row), -f, pr), Negated(Eliminated(row, f, pr));
    forall j | 0 <= j < |row|
      ensures a[j] == b[j]
    {
      assert (-f) * pr[j] == -(f * pr[j]);
    }
  }

  /** The start row with +c_j is the negation of the start row with -c_j. */
  lemma {:induction false} PlacedNegated(p: Problem, w: nat)
    requires p.objective.Some? && |p.variables| <= w
    ensures Placed(Zeros(w), p.variables, p.Obj().coefficients, false)
            == Negated(Placed(Zeros(w), p.variables, p.Obj().coefficients, true))
  {
    var a := Placed(Zeros(w), p.variables, p.Obj().coefficients, false);
    var b := Negated(Placed(Zeros(w), p.variables, p.Obj().coefficients, true));
    forall j | 0 <= j < w
      ensures a[j] == b[j]
    {
      PlacedAt(Zeros(w), p.variables, p.Obj().coefficients, false, j);
      PlacedAt(Zeros(w), p.variables, p.Obj().coefficients, true, j);
    }
  }

  /** The older and the current Phase II tableaux coincide for max and for
      min: building the row as +c_j for min and negating after the reduction
      gives the same row as building -c_j from the start. */
  lemma {:induction false} LegacyPhaseIIAgrees(p: Problem, s: Snapshot)
    requires p.objective.Some? && WellFormed(s) && |p.variables| <= Width(s.matrix)
    ensures LegacyPhaseIISnapshot(p, s) == PhaseIISnapshot(p, s)
  {
    if p.Obj().direction == Min {
      var w := Width(s.matrix);
      var cur := PhaseIIStart(p, w);
      PlacedNegated(p, w);
      ReducedNegated(cur, s.matrix, s.basis, |s.basis|);
      NegatedTwice(Reduced(cur, s.matrix, s.basis, |s.basis|));
    }
  }
}
