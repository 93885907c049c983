/** The tableau primitives of the simplex engine: building the initial
    slack tableau, choosing the pivot column and row, the in-place
    Gauss-Jordan pivot, negating the objective row, and the legacy pivot
    loop. */
module TableauOps {
  import opened Types
  import opened Matrix
  import opened SimplexRun

  /** A tableau object whose fields the engine updates in place. */
  class Tableau {
    var matrix: seq<seq<real>>
    var basis: seq<nat>
    var nonBasis: seq<nat>
    var objectiveRow: seq<real>

    /** A tableau holding the given deep copy. */
    constructor (s: Snapshot)
      ensures View() == s
    {
      matrix := s.matrix;
      basis := s.basis;
      nonBasis := s.nonBasis;
      objectiveRow := s.objectiveRow;
    }

    /** The deep copy of the current state. */
    function View(): Snapshot
      reads this
    {
      Snapshot(matrix, basis, nonBasis, objectiveRow)
    }
  }

  /** Sign of the slack column of a constraint: +1 for '<=', -1 for any
      other operator, '=' included. */
  function SlackSign(op: Operator): real {
    if op == Le then 1.0 else -1.0
  }

  /** Row i of the initial tableau: the constraint's coefficients over the
      declared variables, its slack sign at column n + i, its right-hand side
      in the last column. */
  function ConstraintRow(p: Problem, i: nat): (row: seq<real>)
    requires p.constraints.Some? && i < |p.Cons()|
    ensures |row| == |p.variables| + |p.Cons()| + 1
  {
    var n, m := |p.variables|, |p.Cons()|;
    var c := p.Cons()[i];
    Placed(Zeros(n + m + 1), p.variables, c.coefficients, false)[n + i := SlackSign(c.op)][n + m := c.rightSide]
  }

  /** The initial objective row: -c_j for 'max', +c_j for 'min'. */
  function InitialObjective(p: Problem): (row: seq<real>)
    requires p.Complete()
    ensures |row| == |p.variables| + |p.Cons()| + 1
  {
    var w := |p.variables| + |p.Cons()| + 1;
    Placed(Zeros(w), p.variables, p.Obj().coefficients, p.Obj().direction == Max)
  }

  /** createInitialTableau as a value: one slack column per constraint, the
      slacks basic and the decision variables non-basic. */
  function InitialTableau(p: Problem): (s: Snapshot)
    requires p.Complete()
  {
    var m := |p.Cons()|;
    var matrix := seq(m + 1, i requires 0 <= i <= m => if i < m then ConstraintRow(p, i) else InitialObjective(p));
    Snapshot(matrix, Range(|p.variables|, |p.variables| + m), Range(0, |p.variables|), InitialObjective(p))
  }

  /** The coefficient loop every row builder runs: each coefficient's value,
      negated when negate is set, is written at its variable's position in the
      row (the last write wins, unknown variables are skipped). */
  method PlaceCoefficients(row: seq<real>, vars: seq<string>, coefs: seq<Coefficient>, negate: bool) returns (r: seq<real>)
    requires |vars| <= |row|
    ensures r == Placed(row, vars, coefs, negate)
  {
    r := row;
    var k := 0;
    while k < |coefs|
      invariant 0 <= k <= |coefs| && r == Placed(row, vars, coefs[..k], negate)
    {
      var varIndex := IndexOf(vars, coefs[k].variable);
      assert coefs[..k + 1][..k] == coefs[..k];
      if varIndex != -1 {
        r := r[varIndex := if negate then -coefs[k].value else coefs[k].value];
      }
      k := k + 1;
    }
    assert coefs[..k] == coefs;
  }

  /** createInitialTableau: fills a zero matrix row by row, then the objective
      row, then the basis and non-basis lists. */
  method CreateInitialTableau(p: Problem) returns (t: Tableau)
    requires p.Complete()
    ensures fresh(t) && t.View() == InitialTableau(p)
  {
    var numConstraints := |p.Cons()|;
    var numVars := |p.variables|;
    var totalVars := numVars + numConstraints;

    var matrix: seq<seq<real>> := [];
    var i := 0;
    while i <= numConstraints
      invariant 0 <= i <= numConstraints + 1
      invariant |matrix| == i && forall k :: 0 <= k < i ==> matrix[k] == Zeros(totalVars + 1)
    {
      matrix := matrix + [Zeros(totalVars + 1)];
      i := i + 1;
    }

    i := 0;
    while i < numConstraints
      invariant 0 <= i <= numConstraints && |matrix| == numConstraints + 1
      invariant forall k :: 0 <= k < i ==> matrix[k] == ConstraintRow(p, k)
      invariant forall k :: i <= k <= numConstraints ==> matrix[k] == Zeros(totalVars + 1)
    {
      var constraint := p.Cons()[i];
      var row := PlaceCoefficients(matrix[i], p.variables, constraint.coefficients, false);
      matrix := matrix[i := row];
      matrix := matrix[i := matrix[i][numVars + i := if constraint.op == Le then 1.0 else -1.0]];
      matrix := matrix[i := matrix[i][totalVars := constraint.rightSide]];
      assert matrix[i] == ConstraintRow(p, i);
      i := i + 1;
    }

    var objective := PlaceCoefficients(matrix[numConstraints], p.variables, p.Obj().coefficients, p.Obj().direction == Max);
    matrix := matrix[numConstraints := objective];

    var basis: seq<nat> := [];
    i := 0;
    while i < numConstraints
      invariant 0 <= i <= numConstraints && basis == Range(numVars, numVars + i)
    {
      basis := basis + [numVars + i];
      i := i + 1;
    }

    var nonBasis: seq<nat> := [];
    i := 0;
    while i < numVars
      invariant 0 <= i <= numVars && nonBasis == Range(0, i)
    {
      nonBasis := nonBasis + [i];
      i := i + 1;
    }

    var objectiveRow := matrix[numConstraints];
    assert matrix == InitialTableau(p).matrix by {
      forall q | 0 <= q <= numConstraints
        ensures matrix[q] == InitialTableau(p).matrix[q]
      {
      }
    }
    t := new Tableau(Snapshot(matrix, basis, nonBasis, objectiveRow));
  }

  /** Entry j of a placed row over a zero base is entry j of the coefficient
      vector (negated when negate is set), and 0 past the declared variables. */
  lemma {:induction false} PlacedOverZeros(vars: seq<string>, coefs: seq<Coefficient>, negate: bool, w: nat, j: nat)
    requires |vars| <= w && j < w
    ensures Placed(Zeros(w), vars, coefs, negate)[j] == if j < |vars| then Signed(negate, CoefVec(vars, coefs)[j]) else 0.0
  {
    PlacedAt(Zeros(w), vars, coefs, negate, j);
    if j < |vars| {
      PlacedAt(Zeros(|vars|), vars, coefs, false, j);
    }
  }

  /** The initial tableau has m + 1 rows of n + m + 1 columns; its basis is
      the slack columns n .. n+m-1 and its non-basis the decision columns
      0 .. n-1, disjoint and together covering every non-right-hand-side
      column. */
  lemma {:induction false} InitialTableauShape(p: Problem)
    requires p.Complete()
    ensures var s := InitialTableau(p);
            var n, m := |p.variables|, |p.Cons()|;
            && WellFormed(s) && |s.matrix| == m + 1 && Width(s.matrix) == n + m + 1
            && s.basis == Range(n, n + m) && s.nonBasis == Range(0, n)
            && Partition(s)
            && (forall k :: k in s.basis ==> k !in s.nonBasis)
  {
    var s := InitialTableau(p);
    var n, m := |p.variables|, |p.Cons()|;
    assert s.basis == Range(n, n + m) && s.nonBasis == Range(0, n);
    assert |s.matrix| == m + 1 && Width(s.matrix) == n + m + 1;
    SplitRange(n, m);
  }

  /** n .. n+m-1 and 0 .. n-1 are disjoint and together make 0 .. n+m-1. */
  lemma {:induction false} SplitRange(n: nat, m: nat)
    ensures multiset(Range(n, n + m)) + multiset(Range(0, n)) == multiset(Range(0, n + m))
    ensures forall k :: k in Range(n, n + m) ==> k !in Range(0, n)
  {
    assert Range(0, n) + Range(n, n + m) == Range(0, n + m);
    calc {
      multiset(Range(n, n + m)) + multiset(Range(0, n));
      multiset(Range(0, n) + Range(n, n + m));
      multiset(Range(0, n + m));
    }
  }

  /** Every entry of the initial tableau: row i holds the coefficient vector
      of constraint i, its slack sign at column n + i and zeros at the other
      slack columns, then its right-hand side; the objective row holds -c_j
      ('max') or +c_j ('min') and zeros at the slack columns and the
      right-hand side. */
  lemma {:induction false} InitialTableauEntries(p: Problem, i: nat, j: nat)
    requires p.Complete() && i <= |p.Cons()| && j <= |p.variables| + |p.Cons()|
    ensures var s := InitialTableau(p);
            var n, m := |p.variables|, |p.Cons()|;
            s.matrix[i][j] ==
              if i < m then
                (if j < n then CoefVec(p.variables, p.Cons()[i].coefficients)[j]
                 else if j == n + i then SlackSign(p.Cons()[i].op)
                 else if j < n + m then 0.0
                 else p.Cons()[i].rightSide)
              else if j < n then Signed(p.Obj().direction == Max, CoefVec(p.variables, p.Obj().coefficients)[j])
              else 0.0
  {
    var n, m := |p.variables|, |p.Cons()|;
    if i < m {
      PlacedOverZeros(p.variables, p.Cons()[i].coefficients, false, n + m + 1, j);
    } else {
      PlacedOverZeros(p.variables, p.Obj().coefficients, p.Obj().direction == Max, n + m + 1, j);
    }
  }

  /** When every constraint is '<=' with a non-negative right-hand side, the
      initial tableau is canonical for its slack basis and its basic solution
      is feasible. */
  lemma {:induction false} InitialTableauCanonical(p: Problem)
    requires p.Complete()
    requires forall i :: 0 <= i < |p.Cons()| ==> p.Cons()[i].op == Le && p.Cons()[i].rightSide >= 0.0
    ensures var s := InitialTableau(p);
            WellFormed(s) && IdentityBasis(s.matrix, s.basis) && RhsNonNegative(s.matrix)
  {
    var s := InitialTableau(p);
    var n, m := |p.variables|, |p.Cons()|;
    InitialTableauShape(p);
    forall r | 0 <= r < m
      ensures UnitColumn(s.matrix, s.basis[r], r)
    {
      forall i | 0 <= i <= m
        ensures s.matrix[i][n + r] == if i == r then 1.0 else 0.0
      {
        InitialTableauEntries(p, i, n + r);
      }
    }
    forall i | 0 <= i < m
      ensures Rhs(s.matrix, i) >= 0.0
    {
      InitialTableauEntries(p, i, n + m);
    }
  }

  /** findPivotColumn: the running-minimum scan of the objective row. */
  method FindPivotColumn(t: Tableau) returns (minIndex: int)
    requires Rect(t.matrix)
    ensures minIndex == PivotColumn(t.matrix)
    ensures minIndex == -1 <==> forall j :: 0 <= j < Width(t.matrix) - 1 ==> LastRow(t.matrix)[j] >= 0.0
    ensures minIndex != -1 ==> 0 <= minIndex < Width(t.matrix) - 1 && LastRow(t.matrix)[minIndex] < 0.0
  {
    var objectiveRow := t.matrix[|t.matrix| - 1];
    var lastColIndex := |objectiveRow| - 1;
    var minValue := 0.0;
    minIndex := -1;
    var j := 0;
    while j < lastColIndex
      invariant 0 <= j <= lastColIndex
      invariant minIndex == PivotColumnUpTo(objectiveRow, j)
      invariant minValue == if minIndex == -1 then 0.0 else objectiveRow[minIndex]
    {
      if objectiveRow[j] < minValue {
        minValue := objectiveRow[j];
        minIndex := j;
      }
      j := j + 1;
    }
  }

  /** findPivotRow: the minimum-ratio test. The infinite starting minimum is
      modelled by "no row found yet". */
  method FindPivotRow(t: Tableau, pivotColumn: nat) returns (minIndex: int)
    requires Rect(t.matrix) && pivotColumn < Width(t.matrix)
    ensures minIndex == PivotRow(t.matrix, pivotColumn)
    ensures minIndex == -1 <==> forall i :: 0 <= i < |t.matrix| - 1 ==> !Eligible(t.matrix, i, pivotColumn)
  {
    var m := t.matrix;
    var lastColIndex := |m[0]| - 1;
    var minRatio := 0.0;
    minIndex := -1;
    var i := 0;
    while i < |m| - 1
      invariant 0 <= i <= |m| - 1
      invariant minIndex == PivotRowUpTo(m, pivotColumn, i)
      invariant minIndex != -1 ==> minRatio == Ratio(m, minIndex, pivotColumn)
    {
      ghost var prev := minIndex;
      assert PivotRowUpTo(m, pivotColumn, i + 1)
             == if Eligible(m, i, pivotColumn) && (prev == -1 || Ratio(m, i, pivotColumn) < Ratio(m, prev, pivotColumn)) then i else prev;
      if m[i][pivotColumn] > 0.0 {
        var ratio := m[i][lastColIndex] / m[i][pivotColumn];
        assert ratio == Ratio(m, i, pivotColumn) && (Eligible(m, i, pivotColumn) <==> ratio >= 0.0);
        if ratio >= 0.0 && (minIndex == -1 || ratio < minRatio) {
          minRatio := ratio;
          minIndex := i;
        }
      }
      i := i + 1;
    }
  }

  /** The inner loop of iterate and of the Phase II reduction: the row
      minus factor times another row, entry by entry. */
  method SubtractRow(row: seq<real>, factor: real, pr: seq<real>) returns (e: seq<real>)
    requires |row| == |pr|
    ensures e == Eliminated(row, factor, pr)
  {
    e := row;
    var j := 0;
    while j < |row|
      invariant 0 <= j <= |row| && |e| == |row|
      invariant forall k :: 0 <= k < j ==> e[k] == row[k] - factor * pr[k]
      invariant forall k :: j <= k < |row| ==> e[k] == row[k]
    {
      e := e[j := e[j] - factor * pr[j]];
      j := j + 1;
    }
    assert forall k :: 0 <= k < |row| ==> e[k] == Eliminated(row, factor, pr)[k];
  }

  /** iterate: divides the pivot row by the pivot entry, then subtracts the
      right multiple of it from every other row, in place. */
  method Iterate(t: Tableau, pivotRow: nat, pivotColumn: nat)
    requires Rect(t.matrix) && pivotRow < |t.matrix| && pivotColumn < Width(t.matrix)
    requires t.matrix[pivotRow][pivotColumn] != 0.0
    modifies t
    ensures t.matrix == Pivot(old(t.matrix), pivotRow, pivotColumn)
    ensures t.basis == old(t.basis) && t.nonBasis == old(t.nonBasis) && t.objectiveRow == old(t.objectiveRow)
  {
    var matrix := t.matrix;
    ghost var m0 := matrix;
    ghost var pr := NormalizedRow(m0, pivotRow, pivotColumn);
    var numRows := |matrix|;
    var numCols := |matrix[0]|;
    var pivotValue := matrix[pivotRow][pivotColumn];

    var j := 0;
    while j < numCols
      invariant 0 <= j <= numCols && |matrix| == numRows && |matrix[pivotRow]| == numCols
      invariant forall i :: 0 <= i < numRows && i != pivotRow ==> matrix[i] == m0[i]
      invariant forall k :: 0 <= k < j ==> matrix[pivotRow][k] == pr[k]
      invariant forall k :: j <= k < numCols ==> matrix[pivotRow][k] == m0[pivotRow][k]
    {
      matrix := matrix[pivotRow := matrix[pivotRow][j := matrix[pivotRow][j] / pivotValue]];
      j := j + 1;
    }
    assert matrix[pivotRow] == pr;

    var i := 0;
    while i < numRows
      invariant 0 <= i <= numRows && |matrix| == numRows && matrix[pivotRow] == pr && unchanged(t)
      invariant forall k :: 0 <= k < i && k != pivotRow ==> matrix[k] == Eliminated(m0[k], m0[k][pivotColumn], pr)
      invariant forall k :: i <= k < numRows && k != pivotRow ==> matrix[k] == m0[k]
    {
      if i != pivotRow {
        var factor := matrix[i][pivotColumn];
        assert factor == m0[i][pivotColumn];
        var row := SubtractRow(matrix[i], factor, matrix[pivotRow]);
        matrix := matrix[i := row];
      }
      i := i + 1;
    }
    PivotByRows(m0, pivotRow, pivotColumn, matrix);
    t.matrix := matrix;
  }

  /** toMaximizationRow: negates the objective row in place. */
  method ToMaximizationRow(t: Tableau)
    requires Rect(t.matrix)
    modifies t
    ensures t.matrix == NegateLast(old(t.matrix))
    ensures t.basis == old(t.basis) && t.nonBasis == old(t.nonBasis) && t.objectiveRow == old(t.objectiveRow)
  {
    ghost var m0 := t.matrix;
    var lastRow := |t.matrix| - 1;
    var j := 0;
    while j < |t.matrix[0]|
      invariant |t.matrix| == |m0| && Rect(t.matrix) && Width(t.matrix) == Width(m0) && 0 <= j <= Width(m0)
      invariant forall i :: 0 <= i < lastRow ==> t.matrix[i] == m0[i]
      invariant forall k :: 0 <= k < j ==> t.matrix[lastRow][k] == -m0[lastRow][k]
      invariant forall k :: j <= k < Width(m0) ==> t.matrix[lastRow][k] == m0[lastRow][k]
      invariant t.basis == old(t.basis) && t.nonBasis == old(t.nonBasis) && t.objectiveRow == old(t.objectiveRow)
    {
      t.matrix := t.matrix[lastRow := t.matrix[lastRow][j := -t.matrix[lastRow][j]]];
      j := j + 1;
    }
    assert t.matrix[lastRow] == NegateLast(m0)[lastRow];
  }

  /** The basis bookkeeping of a pivot as the executor and Phase I write it:
      the entering column takes the basis slot of the row, and when it is
      listed in nonBasis the leaving column takes its place there. */
  method EnterBasis(t: Tableau, pivotRow: nat, entering: nat)
    requires pivotRow < |t.basis|
    modifies t
    ensures t.basis == old(t.basis)[pivotRow := entering]
    ensures t.nonBasis == SwapIn(old(t.nonBasis), entering, old(t.basis)[pivotRow])
    ensures t.matrix == old(t.matrix) && t.objectiveRow == old(t.objectiveRow)
  {
    var leaving := t.basis[pivotRow];
    t.basis := t.basis[pivotRow := entering];
    var nbIdx := IndexOf(t.nonBasis, entering);
    if nbIdx != -1 {
      t.nonBasis := t.nonBasis[nbIdx := leaving];
    }
  }

  /** Bookkeeping followed by the matrix pivot is one PivotStep. */
  method PivotInPlace(t: Tableau, pivotRow: nat, pivotColumn: nat)
    requires WellFormed(t.View()) && pivotRow < |t.basis| && pivotColumn < Width(t.matrix) - 1
    requires t.matrix[pivotRow][pivotColumn] != 0.0
    modifies t
    ensures t.View() == PivotStep(old(t.View()), pivotRow, pivotColumn)
  {
    EnterBasis(t, pivotRow, pivotColumn);
    Iterate(t, pivotRow, pivotColumn);
  }

  /** One turn of runSimplex's loop: find the pivot column, then the pivot
      row, and pivot in place; false when either search comes back empty. */
  method SimplexStep(t: Tableau) returns (pivoted: bool)
    requires WellFormed(t.View())
    modifies t
    ensures pivoted == Next(old(t.View())).Some?
    ensures t.View() == if pivoted then Next(old(t.View())).value else old(t.View())
  {
    var pivotColumn := FindPivotColumn(t);
    if pivotColumn == -1 {
      return false;
    }
    var pivotRow := FindPivotRow(t, pivotColumn);
    if pivotRow == -1 {
      return false;
    }
    PivotInPlace(t, pivotRow, pivotColumn);
    return true;
  }

  /** The number of pivots a cap allows (a non-positive cap allows none). */
  function Budget(maxIterations: int): (b: nat)
    ensures b <= maxIterations || maxIterations <= 0
    ensures maxIterations > 0 ==> b == maxIterations
  {
    if maxIterations > 0 then maxIterations else 0
  }

  /** runSimplex on a deep copy of start, with the entering column taken to
      be the pivot column itself (the executor's rule): at most maxIterations
      pivots, stopping when no column or no row qualifies. */
  method RunSimplex(start: Tableau, maxIterations: int) returns (tableau: Tableau)
    requires WellFormed(start.View())
    ensures fresh(tableau)
    ensures tableau.View() == Run(start.View(), 0, Budget(maxIterations)).final
  {
    tableau := new Tableau(start.View());
    PivotLoop(tableau, maxIterations);
  }

  /** runSimplex's loop on the copy: at most maxIterations pivots. */
  method PivotLoop(tableau: Tableau, maxIterations: int)
    requires WellFormed(tableau.View())
    modifies tableau
    ensures tableau.View() == Run(old(tableau.View()), 0, Budget(maxIterations)).final
  {
    ghost var budget := Budget(maxIterations);
    ghost var target := Run(tableau.View(), 0, budget).final;
    var it := 0;
    while it < maxIterations
      invariant WellFormed(tableau.View()) && 0 <= it <= budget
      invariant Run(tableau.View(), 0, budget - it).final == target
    {
      RunFinal(tableau.View(), 0, budget - it);
      var pivoted := SimplexStep(tableau);
      if !pivoted {
        break;
      }
      it := it + 1;
    }
    RunFinal(tableau.View(), 0, budget - it);
  }

  /** runSimplexWithHistory: the start and the final tableau, as deep copies. */
  method RunSimplexWithHistory(start: Tableau, maxIterations: int := DEFAULT_MAX_ITERATIONS as int)
    returns (tableau: Tableau, history: seq<Snapshot>)
    requires WellFormed(start.View())
    ensures fresh(tableau)
    ensures tableau.View() == Run(start.View(), 0, Budget(maxIterations)).final
    ensures history == [start.View(), tableau.View()]
  {
    history := [start.View()];
    tableau := RunSimplex(start, maxIterations);
    history := history + [tableau.View()];
  }

  /** runSimplex as written reads the entering column at position
      pivotColumn of nonBasis; past its end JavaScript yields undefined
      (None here). */
  function EnteringAsWritten(nonBasis: seq<nat>, pivotColumn: nat): (e: Option<nat>)
    ensures e.Some? <==> pivotColumn < |nonBasis|
  {
    if pivotColumn < |nonBasis| then Some(nonBasis[pivotColumn]) else None
  }
}
