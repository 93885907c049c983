/** The record-building part of services/iteration.service.ts: the fields
    saveIterations computes for each snapshot before writing it, the basic
    variables of a snapshot, the naming of columns and the entering and
    leaving variables between two consecutive snapshots. */
module IterationRecords {
  import opened Types
  import opened Matrix
  import opened SimplexRun

  /** A snapshot as the service receives it: basis and labels may be absent. */
  datatype Iteration = Iteration(matrix: seq<seq<real>>, basis: Option<seq<nat>>, labels: Option<seq<string>>)

  /** The solver's snapshots carry a basis and no labels. */
  function FromSnapshot(s: Snapshot): Iteration {
    Iteration(s.matrix, Some(s.basis), None)
  }

  /** The character of a decimal digit. */
  function DigitChar(d: nat): (c: char)
    requires d < 10
    ensures '0' <= c <= '9' && c as int - '0' as int == d
  {
    ('0' as int + d) as char
  }

  /** n in decimal, most significant digit first, as a template string
      renders it. */
  function Digits(n: nat): (s: string)
    ensures |s| > 0 && forall k :: 0 <= k < |s| ==> '0' <= s[k] <= '9'
  {
    if n < 10 then [DigitChar(n)] else Digits(n / 10) + [DigitChar(n % 10)]
  }

  /** The number a string of decimal digits stands for. */
  function ParseDigits(s: string): nat
    requires forall k :: 0 <= k < |s| ==> '0' <= s[k] <= '9'
  {
    if |s| == 0 then 0 else 10 * ParseDigits(s[..|s| - 1]) + (s[|s| - 1] as int - '0' as int)
  }

  /** Reading back the digits of n gives n. */
  lemma {:induction false} ParseDigitsOf(n: nat)
    ensures ParseDigits(Digits(n)) == n
  {
    if n >= 10 {
      ParseDigitsOf(n / 10);
      var s := Digits(n);
      assert s[..|s| - 1] == Digits(n / 10);
    }
  }

  /** getVariableName: the label at the index when labels exist and hold one
      there, otherwise "x" followed by the index; an undefined index (None,
      read past the end of a basis) gives "xundefined". */
  function VariableName(labels: Option<seq<string>>, i: Option<nat>): string {
    if i.Some? && labels.Some? && i.value < |labels.value| then labels.value[i.value]
    else if i.Some? then "x" + Digits(i.value)
    else "xundefined"
  }

  /** Without labels, two indices get the same name exactly when they are
      the same, and no index is named like an undefined one. */
  lemma {:induction false} DefaultNamesDistinct(i: nat, j: nat)
    ensures VariableName(None, Some(i)) == VariableName(None, Some(j)) <==> i == j
    ensures VariableName(None, Some(i)) != VariableName(None, None)
  {
    var a, b := VariableName(None, Some(i)), VariableName(None, Some(j));
    if a == b {
      assert a[1..] == Digits(i) && b[1..] == Digits(j);
      ParseDigitsOf(i);
      ParseDigitsOf(j);
    }
    assert a[1] == Digits(i)[0] && '0' <= a[1] <= '9';
    assert VariableName(None, None)[1] == 'u';
  }

  /** The snapshot has a rectangular matrix, so that its first row gives the
      right-hand-side column. */
  predicate Shaped(it: Iteration) {
    Rect(it.matrix)
  }

  /** How many basis rows are read: those below the objective row. */
  function BasisRows(it: Iteration): nat
    requires Shaped(it) && it.basis.Some?
  {
    if |it.basis.value| < |it.matrix| - 1 then |it.basis.value| else |it.matrix| - 1
  }

  /** The record after the first k rows of the basis loop: each row below the
      objective row writes its right-hand side under the name of its basic
      column, a later row overwriting an earlier one of the same name. */
  function BasicUpTo(it: Iteration, k: nat): map<string, real>
    requires Shaped(it) && it.basis.Some? && k <= |it.basis.value|
  {
    if k == 0 then map[]
    else if k - 1 >= |it.matrix| - 1 then BasicUpTo(it, k - 1)
    else BasicUpTo(it, k - 1)[VariableName(it.labels, Some(it.basis.value[k - 1])) := Rhs(it.matrix, k - 1)]
  }

  /** extractBasicVariables as a value: empty without a basis. */
  function BasicVariablesOf(it: Iteration): map<string, real>
    requires Shaped(it)
  {
    if it.basis.None? then map[] else BasicUpTo(it, |it.basis.value|)
  }

  /** extractBasicVariables. */
  method ExtractBasicVariables(it: Iteration) returns (basicVariables: map<string, real>)
    requires Shaped(it)
    ensures basicVariables == BasicVariablesOf(it)
  {
    basicVariables := map[];
    var matrix := it.matrix;
    var lastRow := |matrix| - 1;
    var lastCol := |matrix[0]| - 1;
    if it.basis.None? {
      return;
    }
    var basis := it.basis.value;
    var rowIndex := 0;
    while rowIndex < |basis|
      invariant 0 <= rowIndex <= |basis| && basicVariables == BasicUpTo(it, rowIndex)
    {
      if rowIndex >= lastRow {
        rowIndex := rowIndex + 1;
        continue;
      }
      var varIndex := basis[rowIndex];
      var varName := VariableName(it.labels, Some(varIndex));
      basicVariables := basicVariables[varName := matrix[rowIndex][lastCol]];
      rowIndex := rowIndex + 1;
    }
  }

  /** The name of row r's basic column. */
  function RowName(it: Iteration, r: nat): string
    requires it.basis.Some? && r < |it.basis.value|
  {
    VariableName(it.labels, Some(it.basis.value[r]))
  }

  /** How many of the first k basis rows lie below the objective row. */
  function ReadRows(it: Iteration, k: nat): nat
    requires Shaped(it)
  {
    if k < |it.matrix| - 1 then k else |it.matrix| - 1
  }

  /** After k rows, the record names exactly the basic columns of the rows
      read so far. */
  lemma {:induction false} BasicUpToKeys(it: Iteration, k: nat, x: string)
    requires Shaped(it) && it.basis.Some? && k <= |it.basis.value|
    ensures x in BasicUpTo(it, k) <==> exists r :: 0 <= r < ReadRows(it, k) && RowName(it, r) == x
  {
    if k > 0 {
      BasicUpToKeys(it, k - 1, x);
      if k - 1 < |it.matrix| - 1 && RowName(it, k - 1) == x {
        assert 0 <= k - 1 < ReadRows(it, k);
      }
      if exists r :: 0 <= r < ReadRows(it, k) && RowName(it, r) == x {
        var r :| 0 <= r < ReadRows(it, k) && RowName(it, r) == x;
        if r < ReadRows(it, k - 1) {
          assert x in BasicUpTo(it, k - 1);
        }
      }
    }
  }

  /** After k rows, a name holds the right-hand side of the last row read so
      far whose basic column carries it. */
  lemma {:induction false} BasicUpToValue(it: Iteration, k: nat, r: nat)
    requires Shaped(it) && it.basis.Some? && k <= |it.basis.value| && r < ReadRows(it, k)
    requires forall q :: r < q < ReadRows(it, k) ==> RowName(it, q) != RowName(it, r)
    ensures RowName(it, r) in BasicUpTo(it, k) && BasicUpTo(it, k)[RowName(it, r)] == Rhs(it.matrix, r)
  {
    if r < k - 1 {
      BasicUpToValue(it, k - 1, r);
      if k - 1 < |it.matrix| - 1 {
        assert RowName(it, k - 1) != RowName(it, r);
      }
    }
  }

  /** The basic variables name exactly the basic columns of the rows below
      the objective row, and a name holds the right-hand side of the last
      such row whose basic column carries it; without a basis there are
      none. */
  lemma {:induction false} BasicVariablesFacts(it: Iteration)
    requires Shaped(it)
    ensures it.basis.None? ==> BasicVariablesOf(it) == map[]
    ensures it.basis.Some? ==>
              && (forall x :: x in BasicVariablesOf(it) <==> exists r :: 0 <= r < BasisRows(it) && RowName(it, r) == x)
              && forall r :: 0 <= r < BasisRows(it) && (forall q :: r < q < BasisRows(it) ==> RowName(it, q) != RowName(it, r)) ==>
                   RowName(it, r) in BasicVariablesOf(it) && BasicVariablesOf(it)[RowName(it, r)] == Rhs(it.matrix, r)
  {
    if it.basis.Some? {
      var k := |it.basis.value|;
      assert ReadRows(it, k) == BasisRows(it);
      forall x
        ensures x in BasicVariablesOf(it) <==> exists r :: 0 <= r < BasisRows(it) && RowName(it, r) == x
      {
        BasicUpToKeys(it, k, x);
      }
      forall r | 0 <= r < BasisRows(it) && (forall q :: r < q < BasisRows(it) ==> RowName(it, q) != RowName(it, r))
        ensures RowName(it, r) in BasicVariablesOf(it) && BasicVariablesOf(it)[RowName(it, r)] == Rhs(it.matrix, r)
      {
        BasicUpToValue(it, k, r);
      }
    }
  }

  /** For a snapshot of the solver, whose basis has one distinct column per
      constraint row, every basic column appears as "x" and its index with
      its row's right-hand side, and nothing else appears. */
  lemma {:induction false} SnapshotBasicVariables(s: Snapshot)
    requires WellFormed(s)
    requires forall a, b :: 0 <= a < b < |s.basis| ==> s.basis[a] != s.basis[b]
    ensures var bv := BasicVariablesOf(FromSnapshot(s));
            && (forall x :: x in bv <==> exists r :: 0 <= r < |s.basis| && x == "x" + Digits(s.basis[r]))
            && forall r :: 0 <= r < |s.basis| ==> "x" + Digits(s.basis[r]) in bv && bv["x" + Digits(s.basis[r])] == Rhs(s.matrix, r)
  {
    var it := FromSnapshot(s);
    BasicVariablesFacts(it);
    assert BasisRows(it) == |s.basis|;
    assert forall r :: 0 <= r < |s.basis| ==> RowName(it, r) == "x" + Digits(s.basis[r]);
    forall r, q | 0 <= r < q < |s.basis|
      ensures RowName(it, q) != RowName(it, r)
    {
      DefaultNamesDistinct(s.basis[q], s.basis[r]);
    }
  }

  /** prev reaches position k and holds there what cur holds. */
  predicate SameAt(cur: seq<nat>, prev: seq<nat>, k: nat)
    requires k < |cur|
  {
    k < |prev| && prev[k] == cur[k]
  }

  /** The first position from j on where cur differs from prev; a position
      prev does not reach counts as different. */
  function FirstDifference(cur: seq<nat>, prev: seq<nat>, j: nat): (d: Option<nat>)
    requires j <= |cur|
    ensures d.Some? ==> && j <= d.value < |cur| && !SameAt(cur, prev, d.value)
                        && forall k :: j <= k < d.value ==> SameAt(cur, prev, k)
    ensures d.None? ==> forall k :: j <= k < |cur| ==> SameAt(cur, prev, k)
    decreases |cur| - j
  {
    if j == |cur| then None
    else if !SameAt(cur, prev, j) then Some(j)
    else FirstDifference(cur, prev, j + 1)
  }

  /** The entering and leaving variable names; both absent or both present. */
  datatype Change = Change(enteringVar: Option<string>, leavingVar: Option<string>)

  /** detectEnteringAndLeavingVars: nothing when either basis is missing or
      when the current basis agrees with the previous one at every position;
      otherwise, at the first position that differs, the current basic
      column enters and the previous one leaves. */
  function DetectEnteringAndLeaving(cur: Iteration, prev: Iteration): (c: Change)
    ensures c.enteringVar.None? <==> c.leavingVar.None?
    ensures c.enteringVar.None? <==>
              || cur.basis.None? || prev.basis.None?
              || forall k :: 0 <= k < |cur.basis.value| ==> SameAt(cur.basis.value, prev.basis.value, k)
  {
    if prev.basis.None? || cur.basis.None? then Change(None, None)
    else
      var cb, pb := cur.basis.value, prev.basis.value;
      match FirstDifference(cb, pb, 0)
      case None => Change(None, None)
      case Some(j) =>
        Change(Some(VariableName(cur.labels, Some(cb[j]))),
               Some(VariableName(prev.labels, if j < |pb| then Some(pb[j]) else None)))
  }

  /** Between two consecutive snapshots of a run, where column c replaced
      the basic column of row r, the entering variable is c and the leaving
      one is the column it replaced. */
  lemma {:induction false} DetectPivot(s: Snapshot, r: nat, c: nat)
    requires WellFormed(s) && r < |s.basis| && c < Width(s.matrix) - 1 && s.matrix[r][c] != 0.0
    requires c != s.basis[r]
    ensures DetectEnteringAndLeaving(FromSnapshot(PivotStep(s, r, c)), FromSnapshot(s))
            == Change(Some("x" + Digits(c)), Some("x" + Digits(s.basis[r])))
  {
    var t := PivotStep(s, r, c);
    var d := FirstDifference(t.basis, s.basis, 0);
    assert !SameAt(t.basis, s.basis, r);
    assert d.Some? && d.value <= r;
    assert d == Some(r);
    assert VariableName(None, Some(t.basis[r])) == "x" + Digits(c);
  }

  /** What saveIterations writes for one snapshot, less the problem id. */
  datatype IterationRecord = IterationRecord(iterationNumber: nat, tableau: seq<seq<real>>,
                                             basicVariables: map<string, real>, objectiveValue: real,
                                             enteringVar: Option<string>, leavingVar: Option<string>,
                                             isOptimal: bool)

  /** The bottom-right cell: the objective row's right-hand side. */
  function Corner(m: seq<seq<real>>): real
    requires Rect(m)
  {
    Rhs(m, |m| - 1)
  }

  /** saveIterations' loop, without the database writes: records numbered
      from 1 in input order, each with its snapshot's matrix, basic variables
      and bottom-right cell; the first has no entering or leaving variable,
      each later one is compared with its predecessor, and only the last is
      marked optimal. */
  method BuildRecords(iterations: seq<Iteration>) returns (records: seq<IterationRecord>)
    requires forall i :: 0 <= i < |iterations| ==> Shaped(iterations[i])
    ensures |records| == |iterations|
    ensures forall i :: 0 <= i < |records| ==>
              && records[i].iterationNumber == i + 1
              && records[i].tableau == iterations[i].matrix
              && records[i].basicVariables == BasicVariablesOf(iterations[i])
              && records[i].objectiveValue == Corner(iterations[i].matrix)
              && (records[i].isOptimal <==> i == |iterations| - 1)
    ensures |records| > 0 ==> records[0].enteringVar.None? && records[0].leavingVar.None?
    ensures forall i :: 0 < i < |records| ==>
              Change(records[i].enteringVar, records[i].leavingVar) == DetectEnteringAndLeaving(iterations[i], iterations[i - 1])
  {
    records := [];
    var i := 0;
    while i < |iterations|
      invariant 0 <= i <= |iterations| && |records| == i
      invariant forall k :: 0 <= k < i ==>
                  && records[k].iterationNumber == k + 1
                  && records[k].tableau == iterations[k].matrix
                  && records[k].basicVariables == BasicVariablesOf(iterations[k])
                  && records[k].objectiveValue == Corner(iterations[k].matrix)
                  && (records[k].isOptimal <==> k == |iterations| - 1)
      invariant i > 0 ==> records[0].enteringVar.None? && records[0].leavingVar.None?
      invariant forall k :: 0 < k < i ==>
                  Change(records[k].enteringVar, records[k].leavingVar) == DetectEnteringAndLeaving(iterations[k], iterations[k - 1])
    {
      var iteration := iterations[i];
      var basicVariables := ExtractBasicVariables(iteration);
      var matrix := iteration.matrix;
      var lastRow := |matrix| - 1;
      var lastCol := |matrix[0]| - 1;
      var objectiveValue := matrix[lastRow][lastCol];
      var change := if i > 0 then DetectEnteringAndLeaving(iteration, iterations[i - 1]) else Change(None, None);
      var isOptimal := i == |iterations| - 1;
      records := records + [IterationRecord(i + 1, matrix, basicVariables, objectiveValue,
                                            change.enteringVar, change.leavingVar, isOptimal)];
      i := i + 1;
    }
  }
}
