/** Pure matrix-level semantics of the tableau primitives: the most-negative
    pivot column, the minimum-ratio pivot row and the Gauss-Jordan pivot, with
    the invariants a pivot preserves. */
module Matrix {
  import opened Types

  /** A dense matrix: at least one row, every row of the same positive length. */
  predicate Rect(m: seq<seq<real>>) {
    |m| >= 1 && |m[0]| >= 1 && forall i :: 0 <= i < |m| ==> |m[i]| == |m[0]|
  }

  function Width(m: seq<seq<real>>): nat
    requires Rect(m)
  {
    |m[0]|
  }

  /** The objective row is the last row. */
  function LastRow(m: seq<seq<real>>): seq<real>
    requires Rect(m)
  {
    m[|m| - 1]
  }

  /** The right-hand side of row i is its last entry. */
  function Rhs(m: seq<seq<real>>, i: nat): real
    requires Rect(m) && i < |m|
  {
    m[i][Width(m) - 1]
  }

  /** Scan of the first k entries of the objective row keeping the running
      minimum (started at 0): the first position of the most negative entry,
      or -1 when none is negative. */
  function PivotColumnUpTo(row: seq<real>, k: nat): (c: int)
    requires k <= |row|
    ensures c == -1 <==> forall j :: 0 <= j < k ==> row[j] >= 0.0
    ensures c != -1 ==> && 0 <= c < k && row[c] < 0.0
                        && (forall j :: 0 <= j < k ==> row[c] <= row[j])
                        && (forall j :: 0 <= j < c ==> row[c] < row[j])
  {
    if k == 0 then -1
    else
      var c := PivotColumnUpTo(row, k - 1);
      if row[k - 1] < (if c == -1 then 0.0 else row[c]) then k - 1 else c
  }

  /** findPivotColumn: the scan over every column of the objective row except
      the right-hand side. */
  function PivotColumn(m: seq<seq<real>>): int
    requires Rect(m)
  {
    PivotColumnUpTo(LastRow(m), Width(m) - 1)
  }

  function Ratio(m: seq<seq<real>>, i: nat, c: nat): real
    requires Rect(m) && i < |m| && c < Width(m) && m[i][c] != 0.0
  {
    Rhs(m, i) / m[i][c]
  }

  /** A constraint row may leave the basis for column c when its entry there is
      positive and its ratio is not negative. */
  predicate Eligible(m: seq<seq<real>>, i: nat, c: nat)
    requires Rect(m) && i < |m| && c < Width(m)
  {
    m[i][c] > 0.0 && Ratio(m, i, c) >= 0.0
  }

  /** Scan of the first k constraint rows for the minimum ratio among eligible
      rows, keeping the first row on ties; -1 when no row is eligible. */
  function PivotRowUpTo(m: seq<seq<real>>, c: nat, k: nat): (r: int)
    requires Rect(m) && c < Width(m) && k <= |m| - 1
    ensures r == -1 <==> forall i :: 0 <= i < k ==> !Eligible(m, i, c)
    ensures r != -1 ==> && 0 <= r < k && Eligible(m, r, c)
                        && (forall i :: 0 <= i < k && Eligible(m, i, c) ==> Ratio(m, r, c) <= Ratio(m, i, c))
                        && (forall i :: 0 <= i < r && Eligible(m, i, c) ==> Ratio(m, r, c) < Ratio(m, i, c))
  {
    if k == 0 then -1
    else
      var r := PivotRowUpTo(m, c, k - 1);
      if Eligible(m, k - 1, c) && (r == -1 || Ratio(m, k - 1, c) < Ratio(m, r, c)) then k - 1 else r
  }

  /** findPivotRow: the minimum-ratio test over every constraint row. */
  function PivotRow(m: seq<seq<real>>, c: nat): int
    requires Rect(m) && c < Width(m)
  {
    PivotRowUpTo(m, c, |m| - 1)
  }

  /** The pivot row divided by the pivot entry. */
  function NormalizedRow(m: seq<seq<real>>, r: nat, c: nat): (pr: seq<real>)
    requires Rect(m) && r < |m| && c < Width(m) && m[r][c] != 0.0
    ensures |pr| == Width(m)
  {
    seq(|m[r]|, j requires 0 <= j < |m[r]| => m[r][j] / m[r][c])
  }

  /** Row i minus f times the normalized pivot row. */
  function Eliminated(row: seq<real>, f: real, pr: seq<real>): (e: seq<real>)
    requires |row| == |pr|
    ensures |e| == |row|
  {
    seq(|row|, j requires 0 <= j < |row| => row[j] - f * pr[j])
  }

  /** Entry (i, j) of the Gauss-Jordan pivot on (r, c): the pivot row is
      divided by the pivot entry, every other row loses its column-c multiple
      of that normalized row. */
  function PivotEntry(m: seq<seq<real>>, r: nat, c: nat, i: nat, j: nat): real
    requires Rect(m) && r < |m| && c < Width(m) && m[r][c] != 0.0 && i < |m| && j < Width(m)
  {
    if i == r then m[r][j] / m[r][c] else m[i][j] - m[i][c] * (m[r][j] / m[r][c])
  }

  /** The first k entries of row i of the pivot on (r, c). */
  function PivotRowPrefix(m: seq<seq<real>>, r: nat, c: nat, i: nat, k: nat): (row: seq<real>)
    requires Rect(m) && r < |m| && c < Width(m) && m[r][c] != 0.0 && i < |m| && k <= Width(m)
    ensures |row| == k
  {
    if k == 0 then [] else PivotRowPrefix(m, r, c, i, k - 1) + [PivotEntry(m, r, c, i, k - 1)]
  }

  /** The first k rows of the pivot on (r, c). */
  function PivotRows(m: seq<seq<real>>, r: nat, c: nat, k: nat): (p: seq<seq<real>>)
    requires Rect(m) && r < |m| && c < Width(m) && m[r][c] != 0.0 && k <= |m|
    ensures |p| == k && forall i :: 0 <= i < k ==> |p[i]| == Width(m)
  {
    if k == 0 then [] else PivotRows(m, r, c, k - 1) + [PivotRowPrefix(m, r, c, k - 1, Width(m))]
  }

  lemma {:induction false} PivotRowPrefixAt(m: seq<seq<real>>, r: nat, c: nat, i: nat, k: nat, j: nat)
    requires Rect(m) && r < |m| && c < Width(m) && m[r][c] != 0.0 && i < |m| && j < k <= Width(m)
    ensures PivotRowPrefix(m, r, c, i, k)[j] == PivotEntry(m, r, c, i, j)
  {
    if j < k - 1 {
      PivotRowPrefixAt(m, r, c, i, k - 1, j);
    }
  }

  lemma {:induction false} PivotRowsAt(m: seq<seq<real>>, r: nat, c: nat, k: nat, i: nat, j: nat)
    requires Rect(m) && r < |m| && c < Width(m) && m[r][c] != 0.0 && i < k <= |m| && j < Width(m)
    ensures PivotRows(m, r, c, k)[i][j] == PivotEntry(m, r, c, i, j)
  {
    if i < k - 1 {
      PivotRowsAt(m, r, c, k - 1, i, j);
    } else {
      PivotRowPrefixAt(m, r, c, i, Width(m), j);
    }
  }

  /** Column c of the pivoted rows is the unit column of row r. */
  lemma {:induction false} PivotRowsColumn(m: seq<seq<real>>, r: nat, c: nat)
    requires Rect(m) && r < |m| && c < Width(m) && m[r][c] != 0.0
    ensures forall i :: 0 <= i < |m| ==> PivotRows(m, r, c, |m|)[i][c] == if i == r then 1.0 else 0.0
  {
    forall i | 0 <= i < |m|
      ensures PivotRows(m, r, c, |m|)[i][c] == if i == r then 1.0 else 0.0
    {
      PivotRowsAt(m, r, c, |m|, i, c);
    }
  }

  /** Gauss-Jordan pivot on (r, c): the result has the same shape and column c
      becomes the unit column of row r. */
  function Pivot(m: seq<seq<real>>, r: nat, c: nat): (p: seq<seq<real>>)
    requires Rect(m) && r < |m| && c < Width(m) && m[r][c] != 0.0
    ensures Rect(p) && |p| == |m| && Width(p) == Width(m)
    ensures p[r][c] == 1.0 && forall i :: 0 <= i < |p| && i != r ==> p[i][c] == 0.0
  {
    PivotRowsColumn(m, r, c);
    PivotRows(m, r, c, |m|)
  }

  /** Row i of a pivoted matrix: the normalized pivot row, or row i with its
      column-c multiple of the normalized pivot row eliminated. */
  lemma {:induction false} PivotRowAt(m: seq<seq<real>>, r: nat, c: nat, i: nat)
    requires Rect(m) && r < |m| && c < Width(m) && m[r][c] != 0.0 && i < |m|
    ensures Pivot(m, r, c)[i] == if i == r then NormalizedRow(m, r, c) else Eliminated(m[i], m[i][c], NormalizedRow(m, r, c))
  {
    var pr := NormalizedRow(m, r, c);
    var want := if i == r then pr else Eliminated(m[i], m[i][c], pr);
    forall j | 0 <= j < Width(m)
      ensures Pivot(m, r, c)[i][j] == want[j]
    {
      PivotRowsAt(m, r, c, |m|, i, j);
    }
  }

  /** A matrix whose row r is the normalized pivot row and whose every other
      row has its column-c multiple of it eliminated is the pivot on (r, c). */
  lemma {:induction false} PivotByRows(m: seq<seq<real>>, r: nat, c: nat, p: seq<seq<real>>)
    requires Rect(m) && r < |m| && c < Width(m) && m[r][c] != 0.0 && |p| == |m|
    requires forall i :: 0 <= i < |m| ==> p[i] == if i == r then NormalizedRow(m, r, c) else Eliminated(m[i], m[i][c], NormalizedRow(m, r, c))
    ensures p == Pivot(m, r, c)
  {
    forall i | 0 <= i < |m|
      ensures p[i] == Pivot(m, r, c)[i]
    {
      PivotRowAt(m, r, c, i);
    }
  }

  /** Every entry of the objective row negated, every other row untouched. */
  function NegateLast(m: seq<seq<real>>): (n: seq<seq<real>>)
    requires Rect(m)
    ensures Rect(n) && |n| == |m| && Width(n) == Width(m)
    ensures forall i :: 0 <= i < |m| - 1 ==> n[i] == m[i]
    ensures forall j :: 0 <= j < Width(m) ==> LastRow(n)[j] == -LastRow(m)[j]
  {
    m[|m| - 1 := seq(Width(m), j requires 0 <= j < Width(m) => -m[|m| - 1][j])]
  }

  lemma {:induction false} NegateLastTwice(m: seq<seq<real>>)
    requires Rect(m)
    ensures NegateLast(NegateLast(m)) == m
  {
    var n := NegateLast(NegateLast(m));
    assert n[|m| - 1] == m[|m| - 1];
    assert forall i :: 0 <= i < |m| ==> n[i] == m[i];
  }

  /** Column col is the unit vector of row row (objective row included). */
  predicate UnitColumn(m: seq<seq<real>>, col: nat, row: nat)
    requires Rect(m) && col < Width(m)
  {
    forall i :: 0 <= i < |m| ==> m[i][col] == if i == row then 1.0 else 0.0
  }

  /** One basic column per constraint row, each an identity column of the whole
      matrix: the tableau is in canonical form for its basis. */
  predicate IdentityBasis(m: seq<seq<real>>, basis: seq<nat>)
    requires Rect(m)
  {
    && |basis| == |m| - 1
    && forall r :: 0 <= r < |basis| ==> basis[r] < Width(m) - 1 && UnitColumn(m, basis[r], r)
  }

  /** Negating the objective row keeps every basic column a unit column: a
      basic column's objective entry is 0, and -0 is 0. */
  lemma {:induction false} NegateLastKeepsIdentity(m: seq<seq<real>>, basis: seq<nat>)
    requires Rect(m) && IdentityBasis(m, basis)
    ensures IdentityBasis(NegateLast(m), basis)
  {
    var n := NegateLast(m);
    forall r | 0 <= r < |basis|
      ensures UnitColumn(n, basis[r], r)
    {
      assert UnitColumn(m, basis[r], r);
      forall i | 0 <= i < |n|
        ensures n[i][basis[r]] == if i == r then 1.0 else 0.0
      {
        if i < |m| - 1 {
          assert n[i] == m[i];
        } else {
          assert n[i][basis[r]] == -m[i][basis[r]];
        }
      }
    }
  }

  /** Every constraint row has a non-negative right-hand side: the basic
      solution is feasible. */
  predicate RhsNonNegative(m: seq<seq<real>>)
    requires Rect(m)
  {
    forall i :: 0 <= i < |m| - 1 ==> Rhs(m, i) >= 0.0
  }

  /** Entries of a pivoted matrix, row by row. */
  lemma {:induction false} PivotAt(m: seq<seq<real>>, r: nat, c: nat, i: nat, j: nat)
    requires Rect(m) && r < |m| && c < Width(m) && m[r][c] != 0.0 && i < |m| && j < Width(m)
    ensures Pivot(m, r, c)[i][j] == if i == r then m[r][j] / m[r][c] else m[i][j] - m[i][c] * (m[r][j] / m[r][c])
  {
    PivotRowsAt(m, r, c, |m|, i, j);
  }

  /** A pivot on a non-basic column of a canonical tableau gives a canonical
      tableau for the basis in which column c replaces the basic column of row r. */
  lemma {:induction false} PivotKeepsIdentityBasis(m: seq<seq<real>>, basis: seq<nat>, r: nat, c: nat)
    requires Rect(m) && IdentityBasis(m, basis)
    requires r < |basis| && c < Width(m) - 1 && m[r][c] != 0.0 && c !in basis
    ensures IdentityBasis(Pivot(m, r, c), basis[r := c])
  {
    var p := Pivot(m, r, c);
    var nb := basis[r := c];
    forall k | 0 <= k < |nb|
      ensures nb[k] < Width(p) - 1 && UnitColumn(p, nb[k], k)
    {
      if k != r {
        var b := basis[k];
        assert b != c;
        assert m[r][b] == 0.0;
        forall i | 0 <= i < |p|
          ensures p[i][b] == if i == k then 1.0 else 0.0
        {
          PivotAt(m, r, c, i, b);
          if i == r {
            assert p[i][b] == 0.0 / m[r][c];
          } else {
            assert p[i][b] == m[i][b] - m[i][c] * (0.0 / m[r][c]);
          }
        }
      }
    }
  }

  /** The minimum-ratio rule keeps every constraint right-hand side non-negative. */
  lemma {:induction false} PivotKeepsRhsNonNegative(m: seq<seq<real>>, c: nat)
    requires Rect(m) && c < Width(m) && RhsNonNegative(m)
    requires PivotRow(m, c) != -1
    ensures var r := PivotRow(m, c); RhsNonNegative(Pivot(m, r, c))
  {
    var r := PivotRow(m, c);
    var p := Pivot(m, r, c);
    forall i | 0 <= i < |p| - 1
      ensures Rhs(p, i) >= 0.0
    {
      PivotRowRhs(m, c, r, i);
    }
  }

  /** One constraint row of the minimum-ratio argument. */
  lemma {:induction false} PivotRowRhs(m: seq<seq<real>>, c: nat, r: nat, i: nat)
    requires Rect(m) && c < Width(m) && RhsNonNegative(m)
    requires r == PivotRow(m, c) && r != -1 && i < |m| - 1
    ensures Rhs(Pivot(m, r, c), i) >= 0.0
  {
    var w := Width(m) - 1;
    PivotAt(m, r, c, i, w);
    var a := m[i][c];
    var b := Rhs(m, i);
    assert a > 0.0 ==> Eligible(m, i, c) by {
      if a > 0.0 { DivNonNegative(b, a); }
    }
    RatioStep(b, a, Rhs(m, r), m[r][c]);
  }

  /** b - a * (br / ar) >= 0 whenever the ratio br / ar is not above b / a. */
  lemma {:induction false} RatioStep(b: real, a: real, br: real, ar: real)
    requires b >= 0.0 && br >= 0.0 && ar > 0.0
    requires a > 0.0 ==> br / ar <= b / a
    ensures b - a * (br / ar) >= 0.0
    ensures br / ar >= 0.0
  {
    DivNonNegative(br, ar);
    if a > 0.0 {
      MulDivBound(a, b, br / ar);
    } else {
      MulSign(a, br / ar);
    }
  }

  /** A pivot on a column with a negative objective entry, chosen by the
      minimum-ratio rule, never decreases the objective right-hand side. */
  lemma {:induction false} PivotRaisesObjective(m: seq<seq<real>>, c: nat)
    requires Rect(m) && c < Width(m) && LastRow(m)[c] < 0.0
    requires PivotRow(m, c) != -1
    ensures var r := PivotRow(m, c);
            Rhs(Pivot(m, r, c), |m| - 1) == Rhs(m, |m| - 1) - LastRow(m)[c] * Ratio(m, r, c)
            && Rhs(Pivot(m, r, c), |m| - 1) >= Rhs(m, |m| - 1)
  {
    var r := PivotRow(m, c);
    PivotAt(m, r, c, |m| - 1, Width(m) - 1);
    MulSign(LastRow(m)[c], Ratio(m, r, c));
  }

  /** A pivot on a row whose right-hand side is 0 (a degenerate basic
      variable) leaves every right-hand side, the objective's included, as
      it was. */
  lemma {:induction false} PivotOnZeroRhs(m: seq<seq<real>>, r: nat, c: nat)
    requires Rect(m) && r < |m| && c < Width(m) && m[r][c] != 0.0 && Rhs(m, r) == 0.0
    ensures forall i :: 0 <= i < |m| ==> Rhs(Pivot(m, r, c), i) == Rhs(m, i)
  {
    forall i | 0 <= i < |m|
      ensures Rhs(Pivot(m, r, c), i) == Rhs(m, i)
    {
      PivotAt(m, r, c, i, Width(m) - 1);
    }
  }

  lemma {:induction false} DivNonNegative(b: real, a: real)
    requires a > 0.0 && b >= 0.0
    ensures b / a >= 0.0
  {
  }

  lemma {:induction false} MulSign(a: real, t: real)
    requires a <= 0.0 && t >= 0.0
    ensures a * t <= 0.0
  {
  }

  /** a * t <= b when 0 < a and t <= b / a. */
  lemma {:induction false} MulDivBound(a: real, b: real, t: real)
    requires a > 0.0 && t <= b / a
    ensures a * t <= b
  {
    assert a * t <= a * (b / a);
    assert a * (b / a) == b;
  }
}
