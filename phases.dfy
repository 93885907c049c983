/** The two-phase bridge: the column layout of slack, surplus and artificial
    variables, the Phase I tableau with its auxiliary objective row, the
    Phase I feasibility test, driving artificial variables out of the basis,
    and the Phase II tableau with its reduced objective row. */
module Phases {
  import opened Types
  import opened Matrix
  import opened SimplexRun
  import opened TableauOps

  /** Result of the column allocation: the tableau size, the helper columns
      of every constraint row (None where the row has none) and the list of
      artificial columns in allocation order. */
  datatype Layout = Layout(rows: nat, cols: nat, rowSlack: seq<Option<nat>>, rowArtificial: seq<Option<nat>>,
                           rowSurplus: seq<Option<nat>>, artificialCols: seq<nat>)

  /** Number of helper columns a constraint takes: two for '>=' (surplus and
      artificial), one otherwise. */
  function Span(op: Operator): nat {
    if op == Ge then 2 else 1
  }

  /** The first helper column of constraint i: columns are handed out left to
      right, starting right after the n decision columns. */
  function ColStart(cs: seq<Constraint>, n: nat, i: nat): (c: nat)
    requires i <= |cs|
    ensures c >= n + i
  {
    if i == 0 then n else ColStart(cs, n, i - 1) + Span(cs[i - 1].op)
  }

  function SlackOf(cs: seq<Constraint>, n: nat, i: nat): Option<nat>
    requires i < |cs|
  {
    if cs[i].op == Le then Some(ColStart(cs, n, i)) else None
  }

  function SurplusOf(cs: seq<Constraint>, n: nat, i: nat): Option<nat>
    requires i < |cs|
  {
    if cs[i].op == Ge then Some(ColStart(cs, n, i)) else None
  }

  function ArtificialOf(cs: seq<Constraint>, n: nat, i: nat): Option<nat>
    requires i < |cs|
  {
    match cs[i].op
    case Le => None
    case Ge => Some(ColStart(cs, n, i) + 1)
    case Eq => Some(ColStart(cs, n, i))
  }

  /** The artificial columns of the first k constraints, in order. */
  function ArtificialCols(cs: seq<Constraint>, n: nat, k: nat): seq<nat>
    requires k <= |cs|
  {
    if k == 0 then []
    else ArtificialCols(cs, n, k - 1) + (if ArtificialOf(cs, n, k - 1).Some? then [ArtificialOf(cs, n, k - 1).value] else [])
  }

  /** computeAuxiliaryColumns as a value. */
  function AuxiliaryColumns(p: Problem): (l: Layout)
    requires p.constraints.Some?
    ensures |l.rowSlack| == |l.rowArtificial| == |l.rowSurplus| == |p.Cons()| && l.rows == |p.Cons()| + 1
    ensures forall i :: 0 <= i < |p.Cons()| ==>
              && (l.rowSlack[i].Some? ==> |p.variables| <= l.rowSlack[i].value < l.cols - 1)
              && (l.rowSurplus[i].Some? ==> |p.variables| <= l.rowSurplus[i].value < l.cols - 1)
              && (l.rowArtificial[i].Some? ==> |p.variables| <= l.rowArtificial[i].value < l.cols - 1)
  {
    var cs, n, m := p.Cons(), |p.variables|, |p.Cons()|;
    ColStartBound(cs, n);
    Layout(m + 1, ColStart(cs, n, m) + 1,
           seq(m, i => if 0 <= i < m then SlackOf(cs, n, i) else None),
           seq(m, i => if 0 <= i < m then ArtificialOf(cs, n, i) else None),
           seq(m, i => if 0 <= i < m then SurplusOf(cs, n, i) else None),
           ArtificialCols(cs, n, m))
  }

  /** computeAuxiliaryColumns: one pass over the constraints bumping the next
      free column. */
  method ComputeAuxiliaryColumns(p: Problem) returns (l: Layout)
    requires p.constraints.Some?
    ensures l == AuxiliaryColumns(p)
  {
    var cs := p.Cons();
    var n := |p.variables|;
    var m := |cs|;
    var rowSlack: seq<Option<nat>> := seq(m, _ => None);
    var rowArtificial: seq<Option<nat>> := seq(m, _ => None);
    var rowSurplus: seq<Option<nat>> := seq(m, _ => None);
    var artificialCols: seq<nat> := [];
    var colIndex := n;
    var i := 0;
    while i < m
      invariant 0 <= i <= m && |rowSlack| == m && |rowArtificial| == m && |rowSurplus| == m
      invariant colIndex == ColStart(cs, n, i) && artificialCols == ArtificialCols(cs, n, i)
      invariant forall k :: 0 <= k < i ==> rowSlack[k] == SlackOf(cs, n, k)
      invariant forall k :: 0 <= k < i ==> rowArtificial[k] == ArtificialOf(cs, n, k)
      invariant forall k :: 0 <= k < i ==> rowSurplus[k] == SurplusOf(cs, n, k)
      invariant forall k :: i <= k < m ==> rowSlack[k].None? && rowArtificial[k].None? && rowSurplus[k].None?
    {
      var op := cs[i].op;
      if op == Le {
        rowSlack := rowSlack[i := Some(colIndex)];
        colIndex := colIndex + 1;
      } else if op == Ge {
        rowSurplus := rowSurplus[i := Some(colIndex)];
        colIndex := colIndex + 1;
        rowArtificial := rowArtificial[i := Some(colIndex)];
        artificialCols := artificialCols + [colIndex];
        colIndex := colIndex + 1;
      } else {
        rowArtificial := rowArtificial[i := Some(colIndex)];
        artificialCols := artificialCols + [colIndex];
        colIndex := colIndex + 1;
      }
      i := i + 1;
    }
    l := Layout(m + 1, colIndex + 1, rowSlack, rowArtificial, rowSurplus, artificialCols);
  }

  /** Later constraints get later columns. */
  lemma {:induction false} ColStartGrows(cs: seq<Constraint>, n: nat, i: nat, j: nat)
    requires i < j <= |cs|
    ensures ColStart(cs, n, i) + Span(cs[i].op) <= ColStart(cs, n, j)
    decreases j
  {
    if j > i + 1 {
      ColStartGrows(cs, n, i, j - 1);
    }
  }

  /** Every helper column comes before the column count of all constraints. */
  lemma {:induction false} ColStartBound(cs: seq<Constraint>, n: nat)
    ensures forall i :: 0 <= i < |cs| ==> ColStart(cs, n, i) + Span(cs[i].op) <= ColStart(cs, n, |cs|)
  {
    forall i | 0 <= i < |cs|
      ensures ColStart(cs, n, i) + Span(cs[i].op) <= ColStart(cs, n, |cs|)
    {
      ColStartGrows(cs, n, i, |cs|);
    }
  }

  /** Column j is a helper column (slack, surplus or artificial) of row i. */
  predicate Owns(l: Layout, i: nat, j: nat)
    requires i < |l.rowSlack| && i < |l.rowSurplus| && i < |l.rowArtificial|
  {
    l.rowSlack[i] == Some(j) || l.rowSurplus[i] == Some(j) || l.rowArtificial[i] == Some(j)
  }

  /** The layout: a '<=' row has a slack and nothing else, a '>=' row a
      surplus followed by an artificial, an '=' row an artificial only; every
      helper column lies strictly between the decision columns and the
      right-hand side, and no two rows share a helper column. */
  lemma {:induction false} LayoutOfRow(p: Problem, i: nat)
    requires p.constraints.Some? && i < |p.Cons()|
    ensures var l := AuxiliaryColumns(p);
            var op := p.Cons()[i].op;
            && l.rows == |p.Cons()| + 1
            && (op == Le <==> l.rowSlack[i].Some?)
            && (op == Ge <==> l.rowSurplus[i].Some?)
            && (op != Le <==> l.rowArtificial[i].Some?)
            && (op == Ge ==> l.rowArtificial[i].value == l.rowSurplus[i].value + 1)
            && (forall j: nat :: Owns(l, i, j) ==> |p.variables| <= j < l.cols - 1)
            && (forall k: nat, j: nat :: k < |p.Cons()| && k != i && Owns(l, i, j) ==> !Owns(l, k, j))
  {
    var cs, n, m := p.Cons(), |p.variables|, |p.Cons()|;
    var l := AuxiliaryColumns(p);
    ColStartGrows(cs, n, i, m);
    forall k, j | 0 <= k < m && k != i && Owns(l, i, j)
      ensures !Owns(l, k, j)
    {
      if k < i {
        ColStartGrows(cs, n, k, i);
      } else {
        ColStartGrows(cs, n, i, k);
      }
    }
  }

  /** A column is artificial exactly when some row owns it as its artificial. */
  lemma {:induction false} ArtificialColsMembers(cs: seq<Constraint>, n: nat, k: nat, c: nat)
    requires k <= |cs|
    ensures c in ArtificialCols(cs, n, k) <==> exists i :: 0 <= i < k && ArtificialOf(cs, n, i) == Some(c)
  {
    if k > 0 {
      ArtificialColsMembers(cs, n, k - 1, c);
    }
  }

  /** There is no artificial column exactly when every constraint is '<='. */
  lemma {:induction false} NoArtificialIffAllLe(cs: seq<Constraint>, n: nat, k: nat)
    requires k <= |cs|
    ensures |ArtificialCols(cs, n, k)| == 0 <==> forall i :: 0 <= i < k ==> cs[i].op == Le
  {
    if k > 0 {
      NoArtificialIffAllLe(cs, n, k - 1);
    }
  }

  /** Constraint row i of the Phase I tableau: the coefficients over the
      declared variables, +1 at the slack, -1 at the surplus, +1 at the
      artificial column, and the right-hand side last. */
  function PhaseIRow(p: Problem, i: nat): (row: seq<real>)
    requires p.constraints.Some? && i < |p.Cons()|
    ensures |row| == AuxiliaryColumns(p).cols
  {
    var l := AuxiliaryColumns(p);
    var c := p.Cons()[i];
    var placed := Placed(Zeros(l.cols), p.variables, c.coefficients, false);
    seq(l.cols, j =>
      if !(0 <= j < l.cols - 1) then c.rightSide
      else if l.rowArtificial[i] == Some(j) then 1.0
      else if l.rowSurplus[i] == Some(j) then -1.0
      else if l.rowSlack[i] == Some(j) then 1.0
      else placed[j])
  }

  /** buildConstraintMatrix as a value: the constraint rows over a zero
      objective row. */
  function ConstraintMatrix(p: Problem): (mat: seq<seq<real>>)
    requires p.constraints.Some?
    ensures Rect(mat) && |mat| == AuxiliaryColumns(p).rows && Width(mat) == AuxiliaryColumns(p).cols
  {
    var l := AuxiliaryColumns(p);
    var mat := seq(l.rows, i => if 0 <= i < |p.Cons()| then PhaseIRow(p, i) else Zeros(l.cols));
    forall i | 0 <= i < |mat|
      ensures |mat[i]| == l.cols
    {
      if i < |p.Cons()| {
        assert mat[i] == PhaseIRow(p, i);
        assert |PhaseIRow(p, i)| == l.cols;
      } else {
        assert mat[i] == Zeros(l.cols);
      }
    }
    mat
  }

  /** buildConstraintMatrix: a zero matrix, then every constraint row written
      entry by entry. */
  method BuildConstraintMatrix(p: Problem, rows: nat, cols: nat, rowSlack: seq<Option<nat>>,
                               rowSurplus: seq<Option<nat>>, rowArtificial: seq<Option<nat>>)
    returns (matrix: seq<seq<real>>)
    requires p.constraints.Some?
    requires var l := AuxiliaryColumns(p);
             rows == l.rows && cols == l.cols && rowSlack == l.rowSlack && rowSurplus == l.rowSurplus
             && rowArtificial == l.rowArtificial
    ensures matrix == ConstraintMatrix(p)
  {
    matrix := seq(rows, _ => Zeros(cols));
    var m := |p.Cons()|;
    var i := 0;
    while i < m
      invariant 0 <= i <= m && |matrix| == rows
      invariant forall k :: 0 <= k < i ==> matrix[k] == PhaseIRow(p, k)
      invariant forall k :: i <= k < rows ==> matrix[k] == Zeros(cols)
    {
      var row := FillConstraintRow(p, i, rows, cols, rowSlack, rowSurplus, rowArtificial);
      matrix := matrix[i := row];
      i := i + 1;
    }
  }

  /** One pass of buildPhaseITableau's constraint loop: the row's
      coefficients, its +1 slack, -1 surplus and +1 artificial entries and
      its right-hand side written into a row of zeros. */
  method FillConstraintRow(p: Problem, i: nat, rows: nat, cols: nat, rowSlack: seq<Option<nat>>,
                           rowSurplus: seq<Option<nat>>, rowArtificial: seq<Option<nat>>)
    returns (row: seq<real>)
    requires p.constraints.Some? && i < |p.Cons()|
    requires var l := AuxiliaryColumns(p);
             rows == l.rows && cols == l.cols && rowSlack == l.rowSlack && rowSurplus == l.rowSurplus
             && rowArtificial == l.rowArtificial
    ensures row == PhaseIRow(p, i)
  {
    var cons := p.Cons()[i];
    row := PlaceCoefficients(Zeros(cols), p.variables, cons.coefficients, false);
    LayoutOfRow(p, i);
    ghost var l := AuxiliaryColumns(p);
    if rowSlack[i].Some? {
      assert Owns(l, i, rowSlack[i].value);
      row := row[rowSlack[i].value := 1.0];
    }
    if rowSurplus[i].Some? {
      assert Owns(l, i, rowSurplus[i].value);
      row := row[rowSurplus[i].value := -1.0];
    }
    if rowArtificial[i].Some? {
      assert Owns(l, i, rowArtificial[i].value);
      row := row[rowArtificial[i].value := 1.0];
    }
    row := row[cols - 1 := cons.rightSide];
  }

  /** Entry j of constraint row i for a helper column j: +1 at the row's own
      slack or artificial column, -1 at its surplus column, 0 at any other
      helper column (in particular at the helper columns of other rows). */
  lemma {:induction false} HelperEntry(p: Problem, i: nat, j: nat)
    requires p.constraints.Some? && i < |p.Cons()|
    requires |p.variables| <= j < AuxiliaryColumns(p).cols - 1
    ensures var l := AuxiliaryColumns(p);
            ConstraintMatrix(p)[i][j]
              == if l.rowArtificial[i] == Some(j) || l.rowSlack[i] == Some(j) then 1.0
                 else if l.rowSurplus[i] == Some(j) then -1.0
                 else 0.0
  {
    var l := AuxiliaryColumns(p);
    PlacedOverZeros(p.variables, p.Cons()[i].coefficients, false, l.cols, j);
    LayoutOfRow(p, i);
  }

  /** Entry j of constraint row i at a decision column is the row's dense
      coefficient for that variable. */
  lemma {:induction false} DecisionEntry(p: Problem, i: nat, j: nat)
    requires p.constraints.Some? && i < |p.Cons()| && j < |p.variables|
    ensures ConstraintMatrix(p)[i][j] == CoefVec(p.variables, p.Cons()[i].coefficients)[j]
  {
    var l := AuxiliaryColumns(p);
    var c := p.Cons()[i];
    var placed := Placed(Zeros(l.cols), p.variables, c.coefficients, false);
    PlacedOverZeros(p.variables, c.coefficients, false, l.cols, j);
    assert j != l.cols - 1;
    assert l.rowArtificial[i] != Some(j) && l.rowSurplus[i] != Some(j) && l.rowSlack[i] != Some(j);
    assert PhaseIRow(p, i)[j] == placed[j];
  }

  /** Every artificial column lies among the helper columns. */
  lemma {:induction false} ArtificialColsBound(p: Problem)
    requires p.constraints.Some?
    ensures var l := AuxiliaryColumns(p);
            forall a :: 0 <= a < |l.artificialCols| ==> |p.variables| <= l.artificialCols[a] < l.cols - 1
  {
    var l := AuxiliaryColumns(p);
    forall a | 0 <= a < |l.artificialCols|
      ensures |p.variables| <= l.artificialCols[a] < l.cols - 1
    {
      var c := l.artificialCols[a];
      ArtificialColsMembers(p.Cons(), |p.variables|, |p.Cons()|, c);
      var i :| 0 <= i < |p.Cons()| && ArtificialOf(p.Cons(), |p.variables|, i) == Some(c);
      LayoutOfRow(p, i);
      assert Owns(l, i, c);
    }
  }

  /** A helper column of row i is artificial exactly when it is row i's
      artificial column. */
  lemma {:induction false} ArtificialColumnOfRow(p: Problem, i: nat, j: nat)
    requires p.constraints.Some? && i < |p.Cons()|
    requires Owns(AuxiliaryColumns(p), i, j)
    ensures j in AuxiliaryColumns(p).artificialCols <==> AuxiliaryColumns(p).rowArtificial[i] == Some(j)
  {
    var l := AuxiliaryColumns(p);
    var cs, n := p.Cons(), |p.variables|;
    ArtificialColsMembers(cs, n, |cs|, j);
    LayoutOfRow(p, i);
    if j in l.artificialCols {
      var k :| 0 <= k < |cs| && ArtificialOf(cs, n, k) == Some(j);
      assert Owns(l, k, j);
    } else {
      assert ArtificialOf(cs, n, i) != Some(j);
    }
  }

  /** The objective row with -1 written at every artificial column. */
  function ArtificialBase(row: seq<real>, art: seq<nat>): (r: seq<real>)
    ensures |r| == |row|
  {
    seq(|row|, j requires 0 <= j < |row| => if j in art then -1.0 else row[j])
  }

  /** Sum of column j over the first k rows that carry an artificial column. */
  function ColumnSum(m: seq<seq<real>>, rowArt: seq<Option<nat>>, k: nat, j: nat): real
    requires k <= |m| && k <= |rowArt| && forall i :: 0 <= i < k ==> j < |m[i]|
  {
    if k == 0 then 0.0 else ColumnSum(m, rowArt, k - 1, j) + (if rowArt[k - 1].Some? then m[k - 1][j] else 0.0)
  }

  /** The accumulator plus, one after the other, every one of the first k rows
      that carries an artificial column. */
  function AddRows(acc: seq<real>, m: seq<seq<real>>, rowArt: seq<Option<nat>>, k: nat): (r: seq<real>)
    requires k <= |m| && k <= |rowArt| && forall i :: 0 <= i < k ==> |m[i]| == |acc|
    ensures |r| == |acc|
    ensures forall j :: 0 <= j < |acc| ==> r[j] == acc[j] + ColumnSum(m, rowArt, k, j)
  {
    if k == 0 then acc
    else
      var prev := AddRows(acc, m, rowArt, k - 1);
      if rowArt[k - 1].Some? then seq(|acc|, j requires 0 <= j < |acc| => prev[j] + m[k - 1][j]) else prev
  }

  function Negated(row: seq<real>): (r: seq<real>)
    ensures |r| == |row| && forall j :: 0 <= j < |row| ==> r[j] == -row[j]
  {
    seq(|row|, j requires 0 <= j < |row| => -row[j])
  }

  /** The Phase I objective row: -1 at the artificial columns plus every
      artificial-bearing constraint row, the whole row negated so that it
      stands for -w. */
  function PhaseIObjective(m: seq<seq<real>>, rowArt: seq<Option<nat>>, art: seq<nat>): (r: seq<real>)
    requires Rect(m) && |rowArt| >= |m| - 1
    ensures |r| == Width(m)
  {
    Negated(AddRows(ArtificialBase(LastRow(m), art), m, rowArt, |m| - 1))
  }

  /** Entry j of the Phase I objective row: minus the sum of the base entry
      (-1 at an artificial column) and column j over the artificial-bearing
      rows. */
  lemma {:induction false} PhaseIObjectiveAt(m: seq<seq<real>>, rowArt: seq<Option<nat>>, art: seq<nat>, j: nat)
    requires Rect(m) && |rowArt| >= |m| - 1 && j < Width(m)
    ensures PhaseIObjective(m, rowArt, art)[j]
            == -((if j in art then -1.0 else LastRow(m)[j]) + ColumnSum(m, rowArt, |m| - 1, j))
  {
  }

  /** buildPhaseIObjectiveRow: writes the -1 entries, adds the artificial
      rows and negates, all in the last row of the matrix it is given. */
  method BuildPhaseIObjectiveRow(matrix: seq<seq<real>>, rows: nat, cols: nat, artificialCols: seq<nat>,
                                 rowArtificial: seq<Option<nat>>) returns (result: seq<seq<real>>)
    requires Rect(matrix) && rows == |matrix| && cols == Width(matrix) && |rowArtificial| == rows - 1
    requires forall a :: 0 <= a < |artificialCols| ==> artificialCols[a] < cols
    ensures result == matrix[rows - 1 := PhaseIObjective(matrix, rowArtificial, artificialCols)]
  {
    var last := rows - 1;
    result := matrix;
    assert ArtificialBase(matrix[last], artificialCols[..0]) == matrix[last];
    var a := 0;
    while a < |artificialCols|
      invariant 0 <= a <= |artificialCols|
      invariant result == matrix[last := ArtificialBase(matrix[last], artificialCols[..a])]
    {
      result := result[last := result[last][artificialCols[a] := -1.0]];
      assert artificialCols[..a + 1] == artificialCols[..a] + [artificialCols[a]];
      assert result[last] == ArtificialBase(matrix[last], artificialCols[..a + 1]);
      a := a + 1;
    }
    assert artificialCols[..a] == artificialCols;
    ghost var base := result[last];
    var i := 0;
    while i < last
      invariant 0 <= i <= last
      invariant result == matrix[last := AddRows(base, matrix, rowArtificial, i)]
    {
      if rowArtificial[i].Some? {
        ghost var prev := result[last];
        var j := 0;
        while j < cols
          invariant 0 <= j <= cols && |result| == rows && |result[last]| == cols
          invariant forall q :: 0 <= q < rows && q != last ==> result[q] == matrix[q]
          invariant forall k :: 0 <= k < j ==> result[last][k] == prev[k] + matrix[i][k]
          invariant forall k :: j <= k < cols ==> result[last][k] == prev[k]
        {
          result := result[last := result[last][j := result[last][j] + result[i][j]]];
          j := j + 1;
        }
        assert result[last] == AddRows(base, matrix, rowArtificial, i + 1);
      }
      i := i + 1;
    }
    ghost var summed := result[last];
    var j := 0;
    while j < cols
      invariant 0 <= j <= cols && |result| == rows && |result[last]| == cols
      invariant forall q :: 0 <= q < rows && q != last ==> result[q] == matrix[q]
      invariant forall k :: 0 <= k < j ==> result[last][k] == -summed[k]
      invariant forall k :: j <= k < cols ==> result[last][k] == summed[k]
    {
      result := result[last := result[last][j := -result[last][j]]];
      j := j + 1;
    }
    assert result[last] == PhaseIObjective(matrix, rowArtificial, artificialCols);
  }

  /** buildInitialBasis as a value: the slack column of each row, else its
      artificial column, else 0. */
  function InitialBasis(rowSlack: seq<Option<nat>>, rowArtificial: seq<Option<nat>>): (basis: seq<nat>)
    requires |rowSlack| == |rowArtificial|
    ensures |basis| == |rowSlack|
  {
    seq(|rowSlack|, i requires 0 <= i < |rowSlack| =>
      if rowSlack[i].Some? then rowSlack[i].value else if rowArtificial[i].Some? then rowArtificial[i].value else 0)
  }

  method BuildInitialBasis(rowSlack: seq<Option<nat>>, rowArtificial: seq<Option<nat>>) returns (basis: seq<nat>)
    requires |rowSlack| == |rowArtificial|
    ensures basis == InitialBasis(rowSlack, rowArtificial)
  {
    basis := [];
    var i := 0;
    while i < |rowSlack|
      invariant 0 <= i <= |rowSlack| && basis == InitialBasis(rowSlack, rowArtificial)[..i]
    {
      if rowSlack[i].Some? {
        basis := basis + [rowSlack[i].value];
      } else if rowArtificial[i].Some? {
        basis := basis + [rowArtificial[i].value];
      } else {
        basis := basis + [0];
      }
      i := i + 1;
    }
  }

  /** buildNonBasis as a value: the columns below k that are not basic, in
      increasing order. */
  function Complement(k: nat, basis: seq<nat>): seq<nat>
  {
    if k == 0 then [] else Complement(k - 1, basis) + (if k - 1 in basis then [] else [k - 1])
  }

  /** The non-basic list holds exactly the non-basic columns below k, each
      once and in increasing order. */
  lemma {:induction false} ComplementMembers(k: nat, basis: seq<nat>)
    ensures var nb := Complement(k, basis);
            && (forall x: nat :: x in nb <==> x < k && x !in basis)
            && (forall a, b :: 0 <= a < b < |nb| ==> nb[a] < nb[b])
  {
    if k > 0 {
      ComplementMembers(k - 1, basis);
      var prev := Complement(k - 1, basis);
      assert forall a :: 0 <= a < |prev| ==> prev[a] in prev;
    }
  }

  method BuildNonBasis(cols: nat, basis: seq<nat>) returns (nonBasis: seq<nat>)
    requires cols >= 1
    ensures nonBasis == Complement(cols - 1, basis)
  {
    nonBasis := [];
    var j := 0;
    while j < cols - 1
      invariant 0 <= j <= cols - 1 && nonBasis == Complement(j, basis)
    {
      if j !in basis {
        nonBasis := nonBasis + [j];
      }
      j := j + 1;
    }
  }

  predicate Distinct<T(==)>(s: seq<T>) {
    forall a, b :: 0 <= a < b < |s| ==> s[a] != s[b]
  }

  lemma {:induction false} DistinctCount<T>(s: seq<T>, x: T)
    requires Distinct(s)
    ensures multiset(s)[x] == if x in s then 1 else 0
  {
    if |s| > 0 {
      var init := s[..|s| - 1];
      assert s == init + [s[|s| - 1]];
      DistinctCount(init, x);
      assert x in s <==> x in init || x == s[|s| - 1];
    }
  }

  lemma {:induction false} RangeCount(hi: nat, x: nat)
    ensures multiset(Range(0, hi))[x] == if x < hi then 1 else 0
  {
    if hi > 0 {
      assert Range(0, hi) == Range(0, hi - 1) + [hi - 1];
      RangeCount(hi - 1, x);
    }
  }

  /** A duplicate-free basis below k and its complement together list every
      column below k exactly once. */
  lemma {:induction false} ComplementPartition(k: nat, basis: seq<nat>)
    requires Distinct(basis) && forall r :: 0 <= r < |basis| ==> basis[r] < k
    ensures multiset(basis) + multiset(Complement(k, basis)) == multiset(Range(0, k))
  {
    var nb: seq<nat> := Complement(k, basis);
    ComplementMembers(k, basis);
    forall x: nat
      ensures (multiset(basis) + multiset(nb))[x] == multiset(Range(0, k))[x]
    {
      DistinctCount(basis, x);
      DistinctCount(nb, x);
      RangeCount(k, x);
    }
  }

  /** The Phase I matrix: the constraint rows with the Phase I objective row
      last. */
  function PhaseIMatrix(p: Problem): (mat: seq<seq<real>>)
    requires p.constraints.Some?
    ensures Rect(mat) && |mat| == AuxiliaryColumns(p).rows && Width(mat) == AuxiliaryColumns(p).cols
  {
    var l := AuxiliaryColumns(p);
    var c := ConstraintMatrix(p);
    c[|c| - 1 := PhaseIObjective(c, l.rowArtificial, l.artificialCols)]
  }

  /** buildPhaseITableau's tableau as a value. */
  function PhaseITableau(p: Problem): (s: Snapshot)
    requires p.constraints.Some?
  {
    var l := AuxiliaryColumns(p);
    StartSnapshot(PhaseIMatrix(p), l.rowSlack, l.rowArtificial, l.cols)
  }

  /** A starting tableau over a filled matrix: slack or artificial columns
      basic, every other column non-basic, the last row as objective row. */
  function StartSnapshot(mat: seq<seq<real>>, rowSlack: seq<Option<nat>>, rowArtificial: seq<Option<nat>>,
                         cols: nat): Snapshot
    requires |mat| >= 1 && |rowSlack| == |rowArtificial| && cols >= 1
  {
    var basis := InitialBasis(rowSlack, rowArtificial);
    Snapshot(mat, basis, Complement(cols - 1, basis), mat[|mat| - 1])
  }

  /** What buildPhaseITableau returns when artificial columns exist. */
  datatype PhaseI = PhaseI(tableau: Tableau, artificialCols: seq<nat>, rowArtificial: seq<Option<nat>>)

  /** buildPhaseITableau: None exactly when no artificial column is needed. */
  method BuildPhaseITableau(p: Problem) returns (r: Option<PhaseI>)
    requires p.constraints.Some?
    ensures r.None? <==> |AuxiliaryColumns(p).artificialCols| == 0
    ensures r.Some? ==> && fresh(r.value.tableau) && r.value.tableau.View() == PhaseITableau(p)
                        && r.value.artificialCols == AuxiliaryColumns(p).artificialCols
                        && r.value.rowArtificial == AuxiliaryColumns(p).rowArtificial
  {
    var l := ComputeAuxiliaryColumns(p);
    if |l.artificialCols| == 0 {
      return None;
    }
    var snapshot := BuildPhaseISnapshot(p, l);
    var t := new Tableau(snapshot);
    return Some(PhaseI(t, l.artificialCols, l.rowArtificial));
  }

  /** The matrix, basis and nonBasis buildPhaseITableau assembles once it
      knows the layout. */
  method BuildPhaseISnapshot(p: Problem, l: Layout) returns (snapshot: Snapshot)
    requires p.constraints.Some? && l == AuxiliaryColumns(p)
    ensures snapshot == PhaseITableau(p)
  {
    var matrix := BuildPhaseIMatrix(p, l);
    snapshot := BuildStartSnapshot(matrix, l.rowSlack, l.rowArtificial, l.cols);
  }

  /** The basis and nonBasis arrays buildPhaseITableau fills around its
      matrix. */
  method BuildStartSnapshot(mat: seq<seq<real>>, rowSlack: seq<Option<nat>>, rowArtificial: seq<Option<nat>>,
                            cols: nat) returns (snapshot: Snapshot)
    requires |mat| >= 1 && |rowSlack| == |rowArtificial| && cols >= 1
    ensures snapshot == StartSnapshot(mat, rowSlack, rowArtificial, cols)
  {
    var basis := BuildInitialBasis(rowSlack, rowArtificial);
    var nonBasis := BuildNonBasis(cols, basis);
    snapshot := Snapshot(mat, basis, nonBasis, mat[|mat| - 1]);
  }

  /** The matrix buildPhaseITableau fills: the constraint rows, then the
      Phase I objective row in place of the last one. */
  method BuildPhaseIMatrix(p: Problem, l: Layout) returns (matrix: seq<seq<real>>)
    requires p.constraints.Some? && l == AuxiliaryColumns(p)
    ensures matrix == PhaseIMatrix(p)
  {
    assert |l.rowSlack| == |l.rowArtificial| == l.rows - 1 && l.cols >= 1;
    matrix := BuildConstraintMatrix(p, l.rows, l.cols, l.rowSlack, l.rowSurplus, l.rowArtificial);
    ArtificialColsBound(p);
    matrix := BuildPhaseIObjectiveRow(matrix, l.rows, l.cols, l.artificialCols, l.rowArtificial);
  }

  /** buildPhaseITableau answers null exactly when every constraint is '<='. */
  lemma {:induction false} PhaseINullIffAllLe(p: Problem)
    requires p.constraints.Some?
    ensures |AuxiliaryColumns(p).artificialCols| == 0 <==> forall i :: 0 <= i < |p.Cons()| ==> p.Cons()[i].op == Le
  {
    NoArtificialIffAllLe(p.Cons(), |p.variables|, |p.Cons()|);
  }

  /** When every row but i0 is 0 in column j, the column sum is row i0's
      entry if that row carries an artificial column, and 0 otherwise. */
  lemma {:induction false} ColumnSumSingle(m: seq<seq<real>>, rowArt: seq<Option<nat>>, k: nat, j: nat, i0: nat)
    requires k <= |m| && k <= |rowArt| && forall i :: 0 <= i < k ==> j < |m[i]|
    requires forall i :: 0 <= i < k && i != i0 ==> m[i][j] == 0.0
    ensures ColumnSum(m, rowArt, k, j) == if i0 < k && rowArt[i0].Some? then m[i0][j] else 0.0
  {
    if k > 0 {
      ColumnSumSingle(m, rowArt, k - 1, j, i0);
    }
  }

  /** Sum of the right-hand sides of the first k constraints that are not '<='. */
  function ArtificialRhsSum(cs: seq<Constraint>, k: nat): real
    requires k <= |cs|
  {
    if k == 0 then 0.0 else ArtificialRhsSum(cs, k - 1) + (if cs[k - 1].op != Le then cs[k - 1].rightSide else 0.0)
  }

  /** Sum of the j-th dense coefficients of the first k constraints that are
      not '<='. */
  function ArtificialCoefSum(vars: seq<string>, cs: seq<Constraint>, k: nat, j: nat): real
    requires k <= |cs| && j < |vars|
  {
    if k == 0 then 0.0
    else ArtificialCoefSum(vars, cs, k - 1, j) + (if cs[k - 1].op != Le then CoefVec(vars, cs[k - 1].coefficients)[j] else 0.0)
  }

  /** Column j summed over the artificial-bearing rows equals the right-hand
      sides summed over the constraints that are not '<=', when the rows
      carrying an artificial column are exactly those constraints and column
      j holds their right-hand sides. */
  lemma {:induction false} ColumnSumOfRhs(m: seq<seq<real>>, rowArt: seq<Option<nat>>, cs: seq<Constraint>, k: nat, j: nat)
    requires k <= |m| && k <= |rowArt| && k <= |cs| && forall i :: 0 <= i < k ==> j < |m[i]|
    requires forall i :: 0 <= i < k ==> (rowArt[i].Some? <==> cs[i].op != Le) && m[i][j] == cs[i].rightSide
    ensures ColumnSum(m, rowArt, k, j) == ArtificialRhsSum(cs, k)
  {
    if k > 0 {
      ColumnSumOfRhs(m, rowArt, cs, k - 1, j);
    }
  }

  /** The same for a decision column j holding the constraints' dense
      coefficients. */
  lemma {:induction false} ColumnSumOfCoefs(m: seq<seq<real>>, rowArt: seq<Option<nat>>, vars: seq<string>,
                                            cs: seq<Constraint>, k: nat, j: nat)
    requires k <= |m| && k <= |rowArt| && k <= |cs| && j < |vars| && forall i :: 0 <= i < k ==> j < |m[i]|
    requires forall i :: 0 <= i < k ==>
               (rowArt[i].Some? <==> cs[i].op != Le) && m[i][j] == CoefVec(vars, cs[i].coefficients)[j]
    ensures ColumnSum(m, rowArt, k, j) == ArtificialCoefSum(vars, cs, k, j)
  {
    if k > 0 {
      ColumnSumOfCoefs(m, rowArt, vars, cs, k - 1, j);
    }
  }

  /** Summed over the artificial-bearing rows, the right-hand-side column of
      the constraint matrix gives the right-hand sides of the '>=' and '='
      constraints. */
  lemma ColumnSumRhs(p: Problem, k: nat)
    requires p.constraints.Some? && k <= |p.Cons()|
    ensures ColumnSum(ConstraintMatrix(p), AuxiliaryColumns(p).rowArtificial, k, AuxiliaryColumns(p).cols - 1)
            == ArtificialRhsSum(p.Cons(), k)
  {
    var l := AuxiliaryColumns(p);
    var c := ConstraintMatrix(p);
    forall i | 0 <= i < k
      ensures (l.rowArtificial[i].Some? <==> p.Cons()[i].op != Le) && c[i][l.cols - 1] == p.Cons()[i].rightSide
    {
      LayoutOfRow(p, i);
      assert c[i] == PhaseIRow(p, i);
    }
    ColumnSumOfRhs(c, l.rowArtificial, p.Cons(), k, l.cols - 1);
  }

  /** Summed over the artificial-bearing rows, decision column j of the
      constraint matrix gives the j-th coefficients of the '>=' and '='
      constraints. */
  lemma {:induction false} ColumnSumDecision(p: Problem, k: nat, j: nat)
    requires p.constraints.Some? && k <= |p.Cons()| && j < |p.variables|
    ensures ColumnSum(ConstraintMatrix(p), AuxiliaryColumns(p).rowArtificial, k, j)
            == ArtificialCoefSum(p.variables, p.Cons(), k, j)
  {
    var l := AuxiliaryColumns(p);
    var c := ConstraintMatrix(p);
    forall i | 0 <= i < k
      ensures (l.rowArtificial[i].Some? <==> p.Cons()[i].op != Le)
      ensures c[i][j] == CoefVec(p.variables, p.Cons()[i].coefficients)[j]
    {
      LayoutOfRow(p, i);
      DecisionEntry(p, i, j);
    }
    ColumnSumOfCoefs(c, l.rowArtificial, p.variables, p.Cons(), k, j);
  }

  /** The Phase I objective entry at a helper column of row i0: +1 at a
      surplus column, 0 at a slack or an artificial column. */
  lemma {:induction false} HelperObjective(p: Problem, i0: nat, j: nat)
    requires p.constraints.Some? && i0 < |p.Cons()| && Owns(AuxiliaryColumns(p), i0, j)
    ensures LastRow(PhaseIMatrix(p))[j] == if AuxiliaryColumns(p).rowSurplus[i0] == Some(j) then 1.0 else 0.0
  {
    var l := AuxiliaryColumns(p);
    var art := l.rowArtificial;
    var e := ConstraintMatrix(p)[i0][j];
    LayoutOfRow(p, i0);
    HelperObjectiveOfEntry(p, i0, j);
    assert e == if art[i0] == Some(j) || l.rowSlack[i0] == Some(j) then 1.0
               else if l.rowSurplus[i0] == Some(j) then -1.0 else 0.0 by {
      HelperEntry(p, i0, j);
    }
  }

  /** The Phase I objective entry at a helper column of row i0, in terms of
      row i0's own entry there. */
  lemma {:induction false} HelperObjectiveOfEntry(p: Problem, i0: nat, j: nat)
    requires p.constraints.Some? && i0 < |p.Cons()| && Owns(AuxiliaryColumns(p), i0, j)
    ensures var art := AuxiliaryColumns(p).rowArtificial;
            LastRow(PhaseIMatrix(p))[j]
              == -((if art[i0] == Some(j) then -1.0 else 0.0) + (if art[i0].Some? then ConstraintMatrix(p)[i0][j] else 0.0))
  {
    LayoutOfRow(p, i0);
    PhaseIObjectiveColumn(p, j);
    ArtificialColumnOfRow(p, i0, j);
    HelperColumnSum(p, i0, j);
  }

  /** The Phase I objective entry at a column before the right-hand side:
      minus the sum of -1 (at an artificial column) and the column over the
      artificial-bearing rows. */
  lemma {:induction false} PhaseIObjectiveColumn(p: Problem, j: nat)
    requires p.constraints.Some? && j < AuxiliaryColumns(p).cols - 1
    ensures var l := AuxiliaryColumns(p);
            LastRow(PhaseIMatrix(p))[j]
              == -((if j in l.artificialCols then -1.0 else 0.0) + ColumnSum(ConstraintMatrix(p), l.rowArtificial, |p.Cons()|, j))
  {
    var l := AuxiliaryColumns(p);
    var c := ConstraintMatrix(p);
    assert |c| - 1 == |p.Cons()|;
    assert LastRow(c)[j] == 0.0;
    PhaseIObjectiveAt(c, l.rowArtificial, l.artificialCols, j);
  }

  /** Only row i0 contributes to the column sum at one of its helper
      columns. */
  lemma {:induction false} HelperColumnSum(p: Problem, i0: nat, j: nat)
    requires p.constraints.Some? && i0 < |p.Cons()| && Owns(AuxiliaryColumns(p), i0, j)
    ensures var l := AuxiliaryColumns(p);
            var c := ConstraintMatrix(p);
            ColumnSum(c, l.rowArtificial, |p.Cons()|, j) == if l.rowArtificial[i0].Some? then c[i0][j] else 0.0
  {
    var l := AuxiliaryColumns(p);
    var c := ConstraintMatrix(p);
    var m := |p.Cons()|;
    forall i | 0 <= i < m && i != i0
      ensures c[i][j] == 0.0
    {
      OtherRowHelperZero(p, i0, i, j);
    }
    ColumnSumSingle(c, l.rowArtificial, m, j, i0);
  }

  /** A helper column of row i0 is 0 in every other constraint row. */
  lemma {:induction false} OtherRowHelperZero(p: Problem, i0: nat, i: nat, j: nat)
    requires p.constraints.Some? && i0 < |p.Cons()| && i < |p.Cons()| && i != i0
    requires Owns(AuxiliaryColumns(p), i0, j)
    ensures ConstraintMatrix(p)[i][j] == 0.0
  {
    LayoutOfRow(p, i0);
    assert !Owns(AuxiliaryColumns(p), i, j);
    HelperEntry(p, i, j);
  }

  /** The Phase I objective row stands for -w: 0 at every slack and every
      artificial column, +1 at every surplus column, and minus the sum over
      the '>=' and '=' rows at every decision column and at the right-hand
      side. */
  lemma {:induction false} PhaseIObjectiveEntries(p: Problem)
    requires p.constraints.Some?
    ensures var l := AuxiliaryColumns(p);
            var obj := LastRow(PhaseIMatrix(p));
            && (forall i :: 0 <= i < |p.Cons()| && l.rowSlack[i].Some? ==> obj[l.rowSlack[i].value] == 0.0)
            && (forall i :: 0 <= i < |p.Cons()| && l.rowArtificial[i].Some? ==> obj[l.rowArtificial[i].value] == 0.0)
            && (forall i :: 0 <= i < |p.Cons()| && l.rowSurplus[i].Some? ==> obj[l.rowSurplus[i].value] == 1.0)
            && (forall j :: 0 <= j < |p.variables| ==> obj[j] == -ArtificialCoefSum(p.variables, p.Cons(), |p.Cons()|, j))
            && obj[l.cols - 1] == -ArtificialRhsSum(p.Cons(), |p.Cons()|)
  {
    var l := AuxiliaryColumns(p);
    var obj := LastRow(PhaseIMatrix(p));
    var m := |p.Cons()|;
    forall i | 0 <= i < m
      ensures l.rowSlack[i].Some? ==> obj[l.rowSlack[i].value] == 0.0
      ensures l.rowArtificial[i].Some? ==> obj[l.rowArtificial[i].value] == 0.0
      ensures l.rowSurplus[i].Some? ==> obj[l.rowSurplus[i].value] == 1.0
    {
      LayoutOfRow(p, i);
      if l.rowSlack[i].Some? {
        HelperObjective(p, i, l.rowSlack[i].value);
      }
      if l.rowArtificial[i].Some? {
        HelperObjective(p, i, l.rowArtificial[i].value);
      }
      if l.rowSurplus[i].Some? {
        HelperObjective(p, i, l.rowSurplus[i].value);
      }
    }
    ArtificialColsBound(p);
    var c := ConstraintMatrix(p);
    var base := ArtificialBase(LastRow(c), l.artificialCols);
    assert LastRow(c) == c[m] == Zeros(l.cols);
    forall j | 0 <= j < |p.variables|
      ensures obj[j] == -ArtificialCoefSum(p.variables, p.Cons(), m, j)
    {
      ColumnSumDecision(p, m, j);
      assert j !in l.artificialCols;
      assert base[j] == 0.0;
      assert obj[j] == -(base[j] + ColumnSum(c, l.rowArtificial, m, j));
    }
    ColumnSumRhs(p, m);
    assert l.cols - 1 !in l.artificialCols;
    assert base[l.cols - 1] == 0.0;
    assert obj[l.cols - 1] == -(base[l.cols - 1] + ColumnSum(c, l.rowArtificial, m, l.cols - 1));
  }

  /** The basic column of row r is its slack for a '<=' row and its
      artificial column otherwise, and it is a unit column of the Phase I
      matrix. */
  lemma {:induction false} BasisColumn(p: Problem, r: nat)
    requires p.constraints.Some? && r < |p.Cons()|
    ensures var l := AuxiliaryColumns(p);
            var b := InitialBasis(l.rowSlack, l.rowArtificial)[r];
            && Owns(l, r, b) && b < l.cols - 1
            && (b in l.artificialCols <==> p.Cons()[r].op != Le)
            && UnitColumn(PhaseIMatrix(p), b, r)
  {
    var l := AuxiliaryColumns(p);
    var b := InitialBasis(l.rowSlack, l.rowArtificial)[r];
    var mat := PhaseIMatrix(p);
    var m := |p.Cons()|;
    LayoutOfRow(p, r);
    assert Owns(l, r, b);
    ArtificialColumnOfRow(p, r, b);
    forall i | 0 <= i < |mat|
      ensures mat[i][b] == if i == r then 1.0 else 0.0
    {
      if i < m {
        assert i != r ==> !Owns(l, i, b);
        HelperEntry(p, i, b);
      } else {
        HelperObjective(p, r, b);
      }
    }
  }

  /** Every basic column of the Phase I tableau is a unit column for its
      row, below the right-hand side, and artificial exactly when its row is
      not '<='. */
  lemma {:induction false} PhaseIBasisColumns(p: Problem)
    requires p.constraints.Some?
    ensures var l := AuxiliaryColumns(p);
            var basis := InitialBasis(l.rowSlack, l.rowArtificial);
            var mat := PhaseIMatrix(p);
            && |basis| == |mat| - 1
            && forall r :: 0 <= r < |basis| ==>
                 && basis[r] < Width(mat) - 1 && UnitColumn(mat, basis[r], r)
                 && (basis[r] in l.artificialCols <==> p.Cons()[r].op != Le)
  {
    var l := AuxiliaryColumns(p);
    var basis := InitialBasis(l.rowSlack, l.rowArtificial);
    forall r | 0 <= r < |basis|
      ensures basis[r] < l.cols - 1 && UnitColumn(PhaseIMatrix(p), basis[r], r)
      ensures basis[r] in l.artificialCols <==> p.Cons()[r].op != Le
    {
      BasisColumn(p, r);
    }
  }

  /** No two rows of the Phase I tableau share a basic column. */
  lemma {:induction false} PhaseIBasisDistinct(p: Problem)
    requires p.constraints.Some?
    ensures var l := AuxiliaryColumns(p);
            var basis := InitialBasis(l.rowSlack, l.rowArtificial);
            && Distinct(basis) && forall r :: 0 <= r < |basis| ==> basis[r] < l.cols - 1
  {
    var l := AuxiliaryColumns(p);
    var basis := InitialBasis(l.rowSlack, l.rowArtificial);
    forall r | 0 <= r < |basis|
      ensures Owns(l, r, basis[r]) && basis[r] < l.cols - 1
    {
      LayoutOfRow(p, r);
    }
    forall a, b | 0 <= a < b < |basis|
      ensures basis[a] != basis[b]
    {
      LayoutOfRow(p, a);
    }
  }

  /** A snapshot whose nonBasis is the complement of a repetition-free basis
      below the right-hand side column is partitioned. */
  lemma {:induction false} ComplementSnapshotPartition(s: Snapshot, k: nat)
    requires Rect(s.matrix) && Width(s.matrix) - 1 == k && s.nonBasis == Complement(k, s.basis)
    requires Distinct(s.basis) && forall r :: 0 <= r < |s.basis| ==> s.basis[r] < k
    ensures Partition(s)
  {
    ComplementPartition(k, s.basis);
  }

  /** basis and nonBasis of the Phase I tableau partition its non-RHS columns. */
  lemma {:induction false} PhaseITableauPartition(p: Problem)
    requires p.constraints.Some?
    ensures Rect(PhaseITableau(p).matrix) && Partition(PhaseITableau(p))
  {
    var l := AuxiliaryColumns(p);
    var s := PhaseITableau(p);
    var basis := InitialBasis(l.rowSlack, l.rowArtificial);
    PhaseIBasisDistinct(p);
    assert s.basis == basis && s.nonBasis == Complement(l.cols - 1, basis);
    assert Rect(s.matrix) && Width(s.matrix) - 1 == l.cols - 1;
    ComplementSnapshotPartition(s, l.cols - 1);
  }

  /** The Phase I tableau is in canonical form: well formed, every basic
      column a unit column, basis and nonBasis partition the non-RHS columns,
      the cached objective row is the last row, and a row's basic column is
      artificial exactly when the row is not '<='. */
  lemma {:induction false} PhaseITableauCanonical(p: Problem)
    requires p.constraints.Some?
    ensures var s := PhaseITableau(p);
            && WellFormed(s) && IdentityBasis(s.matrix, s.basis) && Partition(s)
            && s.objectiveRow == LastRow(s.matrix)
            && forall r :: 0 <= r < |s.basis| ==> (s.basis[r] in AuxiliaryColumns(p).artificialCols <==> p.Cons()[r].op != Le)
  {
    PhaseIBasisColumns(p);
    PhaseITableauPartition(p);
  }

  /** isPhaseIFeasible: the objective right-hand side is at least -EPS. */
  predicate IsPhaseIFeasible(s: Snapshot)
    requires Rect(s.matrix)
  {
    Rhs(s.matrix, |s.matrix| - 1) >= -EPS
  }

  /** Before any pivot, Phase I is feasible exactly when the right-hand sides
      of the '>=' and '=' rows add up to at most EPS. */
  lemma {:induction false} PhaseIStartFeasibility(p: Problem)
    requires p.constraints.Some?
    ensures IsPhaseIFeasible(PhaseITableau(p)) <==> ArtificialRhsSum(p.Cons(), |p.Cons()|) <= EPS
  {
    PhaseIObjectiveEntries(p);
  }

  /** The pivot loop never makes a feasible Phase I tableau infeasible. */
  lemma {:induction false} PhaseIFeasibilityStays(s: Snapshot, n: nat, budget: nat)
    requires WellFormed(s) && IsPhaseIFeasible(s)
    ensures IsPhaseIFeasible(Run(s, n, budget).final)
  {
    RunRaisesObjective(s, n, budget);
  }

  /** findEnteringCol as a value: among the first k columns, the first one
      that is not artificial and whose entry exceeds EPS in absolute value,
      or -1. */
  function EnteringColumnUpTo(row: seq<real>, art: seq<nat>, k: nat): (c: int)
    requires k <= |row|
    ensures c == -1 <==> forall j :: 0 <= j < k ==> j in art || Abs(row[j]) <= EPS
    ensures c != -1 ==> && 0 <= c < k && c !in art && Abs(row[c]) > EPS
                        && forall j :: 0 <= j < c ==> j in art || Abs(row[j]) <= EPS
  {
    if k == 0 then -1
    else
      var c := EnteringColumnUpTo(row, art, k - 1);
      if c != -1 then c else if k - 1 !in art && Abs(row[k - 1]) > EPS then k - 1 else -1
  }

  /** The entering column for constraint row i: the scan over every non-RHS
      column. */
  function EnteringColumn(m: seq<seq<real>>, art: seq<nat>, i: nat): int
    requires Rect(m) && i < |m|
  {
    EnteringColumnUpTo(m[i], art, Width(m) - 1)
  }

  /** findEnteringCol: the first qualifying column, scanning left to right. */
  method FindEnteringCol(t: Tableau, artificialCols: seq<nat>, rowIdx: nat) returns (col: int)
    requires Rect(t.matrix) && rowIdx < |t.matrix|
    ensures col == EnteringColumn(t.matrix, artificialCols, rowIdx)
    ensures col != -1 ==> 0 <= col < Width(t.matrix) - 1 && col !in artificialCols && Abs(t.matrix[rowIdx][col]) > EPS
  {
    var cols := |t.matrix[0]| - 1;
    var j := 0;
    while j < cols
      invariant 0 <= j <= cols && EnteringColumnUpTo(t.matrix[rowIdx], artificialCols, j) == -1
    {
      if j !in artificialCols && Abs(t.matrix[rowIdx][j]) > EPS {
        assert EnteringColumnUpTo(t.matrix[rowIdx], artificialCols, j + 1) == j;
        EnteringColumnFirst(t.matrix[rowIdx], artificialCols, j + 1, cols);
        return j;
      }
      j := j + 1;
    }
    return -1;
  }

  /** Once the scan has found a column, scanning further does not change it. */
  lemma {:induction false} EnteringColumnFirst(row: seq<real>, art: seq<nat>, k: nat, k': nat)
    requires k <= k' <= |row| && EnteringColumnUpTo(row, art, k) != -1
    ensures EnteringColumnUpTo(row, art, k') == EnteringColumnUpTo(row, art, k)
    decreases k' - k
  {
    if k < k' {
      EnteringColumnFirst(row, art, k, k' - 1);
    }
  }

  /** One row of pivotOutArtificial: a row whose basic column is artificial
      gets the entering column in its basis slot, the usual nonBasis swap and
      a pivot; other rows, and rows with no entering column, are left as
      they are. */
  function PivotOutRow(s: Snapshot, art: seq<nat>, i: nat): (t: Snapshot)
    requires WellFormed(s) && i < |s.basis|
    ensures WellFormed(t) && |t.matrix| == |s.matrix| && Width(t.matrix) == Width(s.matrix) && |t.basis| == |s.basis|
  {
    if s.basis[i] in art && EnteringColumn(s.matrix, art, i) != -1 then PivotStep(s, i, EnteringColumn(s.matrix, art, i))
    else s
  }

  /** pivotOutArtificial as a value, from row i on. */
  function PivotOutFrom(s: Snapshot, art: seq<nat>, i: nat): (t: Snapshot)
    requires WellFormed(s) && i <= |s.basis|
    ensures WellFormed(t) && |t.matrix| == |s.matrix| && Width(t.matrix) == Width(s.matrix)
    decreases |s.basis| - i
  {
    if i == |s.basis| then s else PivotOutFrom(PivotOutRow(s, art, i), art, i + 1)
  }

  function PivotOut(s: Snapshot, art: seq<nat>): (t: Snapshot)
    requires WellFormed(s)
  {
    PivotOutFrom(s, art, 0)
  }

  /** pivotOutArtificial: one pass over the rows, in place. */
  method PivotOutArtificial(tableau: Tableau, artificialCols: seq<nat>)
    requires WellFormed(tableau.View())
    modifies tableau
    ensures tableau.View() == PivotOut(old(tableau.View()), artificialCols)
  {
    ghost var goal := PivotOut(tableau.View(), artificialCols);
    var i := 0;
    while i < |tableau.basis|
      invariant WellFormed(tableau.View()) && 0 <= i <= |tableau.basis|
      invariant PivotOutFrom(tableau.View(), artificialCols, i) == goal
    {
      ghost var before := tableau.View();
      assert PivotOutFrom(before, artificialCols, i) == PivotOutFrom(PivotOutRow(before, artificialCols, i), artificialCols, i + 1);
      PivotOutRowInPlace(tableau, artificialCols, i);
      i := i + 1;
    }
  }

  /** The body of pivotOutArtificial's loop, for row i. */
  method PivotOutRowInPlace(tableau: Tableau, artificialCols: seq<nat>, i: nat)
    requires WellFormed(tableau.View()) && i < |tableau.basis|
    modifies tableau
    ensures tableau.View() == PivotOutRow(old(tableau.View()), artificialCols, i)
  {
    var b := tableau.basis[i];
    if b in artificialCols {
      var enterCol := FindEnteringCol(tableau, artificialCols, i);
      if enterCol != -1 {
        PivotInPlace(tableau, i, enterCol);
      }
    }
  }

  /** In a canonical tableau the entering column of an artificial row is
      never basic: every other basic column is 0 in that row. */
  lemma {:induction false} EnteringNotBasic(s: Snapshot, art: seq<nat>, i: nat)
    requires WellFormed(s) && IdentityBasis(s.matrix, s.basis) && i < |s.basis| && s.basis[i] in art
    requires EnteringColumn(s.matrix, art, i) != -1
    ensures EnteringColumn(s.matrix, art, i) !in s.basis
  {
    var e := EnteringColumn(s.matrix, art, i);
    forall k | 0 <= k < |s.basis|
      ensures s.basis[k] != e
    {
      if k != i {
        assert s.matrix[i][s.basis[k]] == 0.0;
      }
    }
  }

  /** Driving artificials out keeps the tableau canonical and keeps basis and
      nonBasis a partition of the columns. */
  lemma {:induction false} PivotOutKeepsBasis(s: Snapshot, art: seq<nat>, i: nat)
    requires Canonical(s) && i <= |s.basis|
    ensures Canonical(PivotOutFrom(s, art, i))
    decreases |s.basis| - i
  {
    if i < |s.basis| {
      if s.basis[i] in art && EnteringColumn(s.matrix, art, i) != -1 {
        EnteringNotBasic(s, art, i);
        StepKeepsBasis(s, i, EnteringColumn(s.matrix, art, i));
      }
      PivotOutKeepsBasis(PivotOutRow(s, art, i), art, i + 1);
    }
  }

  /** A basic column is only ever replaced when it is artificial, and then by
      a column that is not; the rows before i are not touched. */
  lemma {:induction false} PivotOutBasis(s: Snapshot, art: seq<nat>, i: nat)
    requires WellFormed(s) && i <= |s.basis|
    ensures var t := PivotOutFrom(s, art, i);
            && |t.basis| == |s.basis|
            && forall r :: 0 <= r < |s.basis| ==>
                 t.basis[r] == s.basis[r] || (i <= r && s.basis[r] in art && t.basis[r] !in art)
    decreases |s.basis| - i
  {
    if i < |s.basis| {
      var next := PivotOutRow(s, art, i);
      PivotOutRowBasis(s, art, i);
      PivotOutBasis(next, art, i + 1);
      var t := PivotOutFrom(next, art, i + 1);
      assert PivotOutFrom(s, art, i) == t;
      forall r | 0 <= r < |s.basis|
        ensures t.basis[r] == s.basis[r] || (i <= r && s.basis[r] in art && t.basis[r] !in art)
      {
        if r != i {
          assert next.basis[r] == s.basis[r];
        }
      }
    }
  }

  /** One row's step changes at most that row's basic column, and only an
      artificial one, for a column that is not artificial. */
  lemma {:induction false} PivotOutRowBasis(s: Snapshot, art: seq<nat>, i: nat)
    requires WellFormed(s) && i < |s.basis|
    ensures var next := PivotOutRow(s, art, i);
            && |next.basis| == |s.basis|
            && (forall r :: 0 <= r < |s.basis| && r != i ==> next.basis[r] == s.basis[r])
            && (next.basis[i] == s.basis[i] || (s.basis[i] in art && next.basis[i] !in art))
  {
    if s.basis[i] in art && EnteringColumn(s.matrix, art, i) != -1 {
      var c := EnteringColumn(s.matrix, art, i);
      assert PivotOutRow(s, art, i).basis == s.basis[i := c];
    }
  }

  /** When every artificial basic variable sits at 0 (as after a Phase I
      that reached w = 0), driving artificials out changes no right-hand
      side: the basic solution and the objective value stay put. */
  lemma {:induction false} PivotOutKeepsRhs(s: Snapshot, art: seq<nat>, i: nat)
    requires WellFormed(s) && i <= |s.basis|
    requires forall r :: i <= r < |s.basis| && s.basis[r] in art ==> Rhs(s.matrix, r) == 0.0
    ensures var t := PivotOutFrom(s, art, i);
            forall k :: 0 <= k < |s.matrix| ==> Rhs(t.matrix, k) == Rhs(s.matrix, k)
    decreases |s.basis| - i
  {
    if i < |s.basis| {
      if s.basis[i] in art && EnteringColumn(s.matrix, art, i) != -1 {
        PivotOnZeroRhs(s.matrix, i, EnteringColumn(s.matrix, art, i));
      }
      PivotOutKeepsRhs(PivotOutRow(s, art, i), art, i + 1);
    }
  }

  /** The objective row reduced against the first k basic rows: the entry of
      each basic column is eliminated with that column's row whenever it
      exceeds MIN_EPS in absolute value. */
  function Reduced(row: seq<real>, m: seq<seq<real>>, basis: seq<nat>, k: nat): (r: seq<real>)
    requires Rect(m) && |row| == Width(m) && k <= |basis| < |m|
    requires forall i :: 0 <= i < |basis| ==> basis[i] < Width(m)
    ensures |r| == |row|
  {
    if k == 0 then row
    else
      var prev := Reduced(row, m, basis, k - 1);
      var factor := prev[basis[k - 1]];
      if Abs(factor) > MIN_EPS then Eliminated(prev, factor, m[k - 1]) else prev
  }

  /** The Phase II objective row before reduction: -c_j at every declared
      variable whatever the direction. */
  function PhaseIIStart(p: Problem, w: nat): (row: seq<real>)
    requires p.objective.Some? && |p.variables| <= w
    ensures |row| == w
  {
    Placed(Zeros(w), p.variables, p.Obj().coefficients, true)
  }

  /** buildPhaseIISimplexTableau as a value: the Phase I tableau with its last
      row and cached objective row replaced by the reduced Phase II row. */
  function PhaseIISnapshot(p: Problem, s: Snapshot): (t: Snapshot)
    requires p.objective.Some? && WellFormed(s) && |p.variables| <= Width(s.matrix)
  {
    var row := Reduced(PhaseIIStart(p, Width(s.matrix)), s.matrix, s.basis, |s.basis|);
    Snapshot(s.matrix[|s.matrix| - 1 := row], s.basis, s.nonBasis, row)
  }

  /** The reduction loop of buildPhaseIISimplexTableau: for each basic
      column in turn, a factor above MIN_EPS in absolute value is eliminated
      with that constraint row. */
  method ReduceAgainstBasis(start: seq<real>, matrix: seq<seq<real>>, basis: seq<nat>) returns (objectiveRow: seq<real>)
    requires Rect(matrix) && |start| == Width(matrix) && |basis| < |matrix|
    requires forall i :: 0 <= i < |basis| ==> basis[i] < Width(matrix)
    ensures objectiveRow == Reduced(start, matrix, basis, |basis|)
  {
    objectiveRow := start;
    var i := 0;
    while i < |basis|
      invariant 0 <= i <= |basis| && objectiveRow == Reduced(start, matrix, basis, i)
    {
      var b := basis[i];
      var factor := objectiveRow[b];
      if Abs(factor) > MIN_EPS {
        objectiveRow := SubtractRow(objectiveRow, factor, matrix[i]);
      }
      i := i + 1;
    }
  }

  /** buildPhaseIISimplexTableau: a deep copy whose objective row is rebuilt
      from the original objective as -c_j and reduced against the basis. */
  method BuildPhaseIISimplexTableau(p: Problem, phaseITableau: Tableau) returns (tableau: Tableau)
    requires p.objective.Some? && WellFormed(phaseITableau.View()) && |p.variables| <= Width(phaseITableau.matrix)
    ensures fresh(tableau) && tableau.View() == PhaseIISnapshot(p, phaseITableau.View())
  {
    tableau := new Tableau(phaseITableau.View());
    var matrix, basis := tableau.matrix, tableau.basis;
    assert WellFormed(Snapshot(matrix, basis, tableau.nonBasis, tableau.objectiveRow));
    var lastRow := |matrix| - 1;
    var objectiveRow := PlaceCoefficients(Zeros(|matrix[0]|), p.variables, p.Obj().coefficients, true);
    objectiveRow := ReduceAgainstBasis(objectiveRow, matrix, basis);
    tableau.matrix := matrix[lastRow := objectiveRow];
    tableau.objectiveRow := objectiveRow;
  }

  /** The Phase II row starts at -c_j at the declared variables and 0
      elsewhere, for max and min alike. */
  lemma {:induction false} PhaseIIStartEntries(p: Problem, w: nat, j: nat)
    requires p.objective.Some? && |p.variables| <= w && j < w
    ensures PhaseIIStart(p, w)[j] == if j < |p.variables| then -CoefVec(p.variables, p.Obj().coefficients)[j] else 0.0
  {
    PlacedOverZeros(p.variables, p.Obj().coefficients, true, w, j);
  }

  /** With unit basic columns, the reduction leaves every one of the first k
      basic columns at most MIN_EPS in absolute value. */
  lemma {:induction false} ReducedBasicSmall(row: seq<real>, m: seq<seq<real>>, basis: seq<nat>, k: nat)
    requires Rect(m) && |row| == Width(m) && IdentityBasis(m, basis) && k <= |basis|
    ensures forall r :: 0 <= r < k ==> Abs(Reduced(row, m, basis, k)[basis[r]]) <= MIN_EPS
  {
    if k > 0 {
      ReducedBasicSmall(row, m, basis, k - 1);
      var prev := Reduced(row, m, basis, k - 1);
      var cur := Reduced(row, m, basis, k);
      var b := basis[k - 1];
      forall r | 0 <= r < k
        ensures Abs(cur[basis[r]]) <= MIN_EPS
      {
        if Abs(prev[b]) > MIN_EPS {
          assert m[k - 1][basis[r]] == if r == k - 1 then 1.0 else 0.0;
        }
      }
    }
  }

  /** buildPhaseIISimplexTableau leaves every constraint row, the basis and
      nonBasis alone, and when the basic columns are unit columns every basic
      column of the new objective row is within MIN_EPS of 0. */
  lemma {:induction false} PhaseIIBasicColumns(p: Problem, s: Snapshot)
    requires p.objective.Some? && WellFormed(s) && |p.variables| <= Width(s.matrix)
    ensures var t := PhaseIISnapshot(p, s);
            && WellFormed(t) && t.basis == s.basis && t.nonBasis == s.nonBasis
            && (forall i :: 0 <= i < |s.matrix| - 1 ==> t.matrix[i] == s.matrix[i])
            && t.objectiveRow == LastRow(t.matrix)
            && (IdentityBasis(s.matrix, s.basis) ==>
                  forall r :: 0 <= r < |s.basis| ==> Abs(LastRow(t.matrix)[s.basis[r]]) <= MIN_EPS)
  {
    if IdentityBasis(s.matrix, s.basis) {
      ReducedBasicSmall(PhaseIIStart(p, Width(s.matrix)), s.matrix, s.basis, |s.basis|);
    }
  }
}
