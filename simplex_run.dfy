/** Snapshot-level semantics of one simplex pivot with its basis bookkeeping,
    and of the capped pivot loop that both the Phase II executor and the
    Phase I loop run. */
module SimplexRun {
  import opened Types
  import opened Matrix

  /** A rectangular tableau with one basic column per constraint row, every
      basic column a non-right-hand-side column. */
  predicate WellFormed(s: Snapshot) {
    && Rect(s.matrix)
    && |s.basis| == |s.matrix| - 1
    && forall r :: 0 <= r < |s.basis| ==> s.basis[r] < Width(s.matrix) - 1
  }

  /** basis and nonBasis together list every non-right-hand-side column once. */
  predicate Partition(s: Snapshot)
    requires Rect(s.matrix)
  {
    multiset(s.basis) + multiset(s.nonBasis) == multiset(Range(0, Width(s.matrix) - 1))
  }

  /** The entering column is replaced in nonBasis by the leaving column when it
      is listed there; otherwise nonBasis is left as it is. */
  function SwapIn(nonBasis: seq<nat>, entering: nat, leaving: nat): (nb: seq<nat>)
    ensures entering in nonBasis ==> multiset(nb) == multiset(nonBasis) - multiset{entering} + multiset{leaving}
    ensures entering !in nonBasis ==> nb == nonBasis
  {
    var idx := IndexOf(nonBasis, entering);
    if idx != -1 then nonBasis[idx := leaving] else nonBasis
  }

  /** One pivot with its bookkeeping: column c enters the basis at row r, the
      leaving column takes c's place in nonBasis, and the matrix is pivoted on
      (r, c). The cached objective row is not touched. */
  function PivotStep(s: Snapshot, r: nat, c: nat): (t: Snapshot)
    requires WellFormed(s) && r < |s.basis| && c < Width(s.matrix) - 1 && s.matrix[r][c] != 0.0
    ensures WellFormed(t) && |t.matrix| == |s.matrix| && Width(t.matrix) == Width(s.matrix)
    ensures t.basis == s.basis[r := c] && t.objectiveRow == s.objectiveRow
    ensures t.matrix[r][c] == 1.0 && forall i :: 0 <= i < |t.matrix| && i != r ==> t.matrix[i][c] == 0.0
  {
    Snapshot(Pivot(s.matrix, r, c), s.basis[r := c], SwapIn(s.nonBasis, c, s.basis[r]), s.objectiveRow)
  }

  /** A well-formed tableau whose basic columns are unit columns and whose
      basis and nonBasis partition the columns. */
  predicate Canonical(s: Snapshot) {
    WellFormed(s) && IdentityBasis(s.matrix, s.basis) && Partition(s)
  }

  /** isUnbounded: some of the first n objective entries is below -EPS. */
  predicate IsUnbounded(s: Snapshot, n: nat)
    requires Rect(s.matrix)
  {
    exists j :: 0 <= j < n && j < Width(s.matrix) && LastRow(s.matrix)[j] < -EPS
  }

  /** Why the pivot loop stopped. */
  datatype Stop = Converged | NoPivotRow | Unbounded | CapReached

  /** The final tableau, the snapshot taken after each pivot, and the stop reason. */
  datatype Execution = Execution(final: Snapshot, history: seq<Snapshot>, stop: Stop)

  /** The pivot loop: at most budget pivots; stop when no objective entry is
      negative, or when no row passes the ratio test (labelled Unbounded when
      one of the first n objective entries is below -EPS); stop with
      CapReached once the budget is spent. */
  function Loop(s: Snapshot, n: nat, budget: nat): (e: Execution)
    requires WellFormed(s)
    ensures WellFormed(e.final)
    ensures |e.final.matrix| == |s.matrix| && Width(e.final.matrix) == Width(s.matrix)
    decreases budget
  {
    if budget == 0 then Execution(s, [], CapReached)
    else
      var c := PivotColumn(s.matrix);
      if c == -1 then Execution(s, [], Converged)
      else
        var r := PivotRow(s.matrix, c);
        if r == -1 then Execution(s, [], if IsUnbounded(s, n) then Unbounded else NoPivotRow)
        else
          var next := PivotStep(s, r, c);
          var rest := Loop(next, n, budget - 1);
          Execution(rest.final, [next] + rest.history, rest.stop)
  }

  /** The execution of the pivot loop from s; the properties below are
      stated about it and proved one loop step at a time. */
  function Run(s: Snapshot, n: nat, budget: nat): (e: Execution)
    requires WellFormed(s)
    ensures WellFormed(e.final)
    ensures |e.final.matrix| == |s.matrix| && Width(e.final.matrix) == Width(s.matrix)
  {
    Loop(s, n, budget)
  }

  /** One turn of the loop: the pivot on the most negative column and its
      minimum-ratio row, or None when either is missing. */
  function Next(s: Snapshot): (t: Option<Snapshot>)
    requires WellFormed(s)
    ensures t.Some? ==> WellFormed(t.value) && |t.value.matrix| == |s.matrix| && Width(t.value.matrix) == Width(s.matrix)
  {
    var c := PivotColumn(s.matrix);
    if c == -1 then None
    else
      var r := PivotRow(s.matrix, c);
      if r == -1 then None else Some(PivotStep(s, r, c))
  }

  /** One turn of the run: it ends at s when the budget is spent or no pivot
      is possible, and otherwise records the next tableau and goes on from
      there with one pivot less. */
  lemma {:induction false} RunNext(s: Snapshot, n: nat, budget: nat)
    requires WellFormed(s)
    ensures budget == 0 ==> Run(s, n, budget) == Execution(s, [], CapReached)
    ensures budget > 0 && Next(s).None? ==>
              Run(s, n, budget) == Execution(s, [], if PivotColumn(s.matrix) == -1 then Converged
                                                    else if IsUnbounded(s, n) then Unbounded else NoPivotRow)
    ensures budget > 0 && Next(s).Some? ==>
              var rest := Run(Next(s).value, n, budget - 1);
              Run(s, n, budget) == Execution(rest.final, [Next(s).value] + rest.history, rest.stop)
  {
  }

  /** Where the run ends: at s when the budget is spent or no pivot is
      possible, and otherwise where the run from the next tableau ends. */
  lemma {:induction false} RunFinal(s: Snapshot, n: nat, budget: nat)
    requires WellFormed(s)
    ensures budget == 0 ==> Run(s, n, budget).final == s
    ensures budget > 0 ==> Run(s, n, budget).final == if Next(s).Some? then Run(Next(s).value, n, budget - 1).final else s
  {
    RunNext(s, n, budget);
  }

  /** One snapshot per pivot, never more than the budget, and exactly the
      budget when the cap is what stopped the loop. */
  lemma {:induction false} RunLength(s: Snapshot, n: nat, budget: nat)
    requires WellFormed(s)
    ensures var e := Run(s, n, budget);
            && |e.history| <= budget
            && (e.stop == CapReached <==> |e.history| == budget)
    decreases budget
  {
    if budget > 0 {
      var c := PivotColumn(s.matrix);
      if c != -1 {
        var r := PivotRow(s.matrix, c);
        if r != -1 {
          RunLength(PivotStep(s, r, c), n, budget - 1);
        }
      }
    }
  }

  /** The last snapshot is the final tableau (the start when no pivot was made),
      and every snapshot is well formed. */
  lemma {:induction false} RunLast(s: Snapshot, n: nat, budget: nat)
    requires WellFormed(s)
    ensures var e := Run(s, n, budget);
            && (|e.history| > 0 ==> e.history[|e.history| - 1] == e.final)
            && (|e.history| == 0 ==> e.final == s)
            && forall k :: 0 <= k < |e.history| ==> WellFormed(e.history[k])
    decreases budget
  {
    if budget > 0 {
      var c := PivotColumn(s.matrix);
      if c != -1 {
        var r := PivotRow(s.matrix, c);
        if r != -1 {
          var next := PivotStep(s, r, c);
          RunLast(next, n, budget - 1);
          var rest := Run(next, n, budget - 1);
          assert Run(s, n, budget).history == [next] + rest.history;
        }
      }
    }
  }

  /** The stop reason tells what the final tableau looks like: Converged means
      no non-right-hand-side objective entry is negative; Unbounded and
      NoPivotRow mean the most negative column has no eligible row, Unbounded
      exactly when one of the first n objective entries is below -EPS. */
  lemma {:induction false} RunStopReason(s: Snapshot, n: nat, budget: nat)
    requires WellFormed(s)
    ensures var e := Run(s, n, budget);
            var f := e.final.matrix;
            && (e.stop == Converged ==> forall j :: 0 <= j < Width(f) - 1 ==> LastRow(f)[j] >= 0.0)
            && (e.stop in {Unbounded, NoPivotRow} ==>
                  PivotColumn(f) != -1 && LastRow(f)[PivotColumn(f)] < 0.0
                  && forall i :: 0 <= i < |f| - 1 ==> !Eligible(f, i, PivotColumn(f)))
            && (e.stop == Unbounded ==> IsUnbounded(e.final, n))
            && (e.stop == NoPivotRow ==> !IsUnbounded(e.final, n))
    decreases budget
  {
    if budget > 0 {
      var c := PivotColumn(s.matrix);
      if c != -1 {
        var r := PivotRow(s.matrix, c);
        if r != -1 {
          RunStopReason(PivotStep(s, r, c), n, budget - 1);
        }
      }
    }
  }

  /** Swapping a column that is not basic into the basis, with the leaving
      column taking its place in nonBasis, keeps the two lists a partition of
      0..k-1. */
  lemma {:induction false} SwapKeepsPartition(basis: seq<nat>, nonBasis: seq<nat>, r: nat, c: nat, k: nat)
    requires multiset(basis) + multiset(nonBasis) == multiset(Range(0, k))
    requires r < |basis| && c < k && c !in basis
    ensures multiset(basis[r := c]) + multiset(SwapIn(nonBasis, c, basis[r])) == multiset(Range(0, k))
  {
    assert Range(0, k)[c] == c;
    assert c in multiset(Range(0, k));
    assert c in nonBasis by {
      assert c !in multiset(basis);
    }
    assert multiset(basis[r := c]) == multiset(basis) - multiset{basis[r]} + multiset{c};
  }

  /** A pivot on a non-basic column keeps the tableau canonical for the
      updated basis, and basis and nonBasis still partition the columns. */
  lemma {:induction false} StepKeepsBasis(s: Snapshot, r: nat, c: nat)
    requires Canonical(s)
    requires r < |s.basis| && c < Width(s.matrix) - 1 && s.matrix[r][c] != 0.0 && c !in s.basis
    ensures Canonical(PivotStep(s, r, c))
  {
    PivotKeepsIdentityBasis(s.matrix, s.basis, r, c);
    SwapKeepsPartition(s.basis, s.nonBasis, r, c, Width(s.matrix) - 1);
  }

  /** The column the executor chooses is never basic in a canonical
      tableau: basic columns have a zero objective entry. */
  lemma {:induction false} PivotColumnNotBasic(s: Snapshot)
    requires WellFormed(s) && IdentityBasis(s.matrix, s.basis) && PivotColumn(s.matrix) != -1
    ensures PivotColumn(s.matrix) !in s.basis
  {
    var m := s.matrix;
    forall k | 0 <= k < |s.basis|
      ensures s.basis[k] != PivotColumn(m)
    {
      assert m[|m| - 1][s.basis[k]] == 0.0;
    }
  }

  /** The pivot the loop makes keeps the tableau canonical and the partition. */
  lemma {:induction false} NextKeepsBasis(s: Snapshot)
    requires Canonical(s)
    ensures Next(s).Some? ==> Canonical(Next(s).value)
  {
    var c := PivotColumn(s.matrix);
    if c != -1 {
      var r := PivotRow(s.matrix, c);
      if r != -1 {
        PivotColumnNotBasic(s);
        StepKeepsBasis(s, r, c);
      }
    }
  }

  /** A property of tableaux that every pivot of the loop preserves holds of
      the tableau the loop ends with. */
  lemma {:induction false} RunPreserves(P: Snapshot -> bool, s: Snapshot, n: nat, budget: nat)
    requires WellFormed(s) && P(s)
    requires forall t :: WellFormed(t) && P(t) && Next(t).Some? ==> P(Next(t).value)
    ensures P(Run(s, n, budget).final)
    decreases budget
  {
    RunFinal(s, n, budget);
    if budget > 0 && Next(s).Some? {
      RunPreserves(P, Next(s).value, n, budget - 1);
    }
  }

  /** Starting from a canonical tableau whose basis and nonBasis partition the
      columns, every tableau the loop reaches is canonical for its basis and
      keeps the partition. */
  lemma {:induction false} RunKeepsBasis(s: Snapshot, n: nat, budget: nat)
    requires Canonical(s)
    ensures Canonical(Run(s, n, budget).final)
  {
    forall t | WellFormed(t) && Canonical(t) && Next(t).Some?
      ensures Canonical(Next(t).value)
    {
      NextKeepsBasis(t);
    }
    RunPreserves(Canonical, s, n, budget);
  }

  /** The minimum-ratio rule keeps every constraint right-hand side
      non-negative along the whole loop. */
  lemma {:induction false} RunKeepsFeasible(s: Snapshot, n: nat, budget: nat)
    requires WellFormed(s) && RhsNonNegative(s.matrix)
    ensures RhsNonNegative(Run(s, n, budget).final.matrix)
  {
    var P := (t: Snapshot) => WellFormed(t) && RhsNonNegative(t.matrix);
    forall t | WellFormed(t) && P(t) && Next(t).Some?
      ensures P(Next(t).value)
    {
      var c := PivotColumn(t.matrix);
      PivotKeepsRhsNonNegative(t.matrix, c);
    }
    RunPreserves(P, s, n, budget);
  }

  /** The objective right-hand side never decreases along the loop. */
  lemma {:induction false} RunRaisesObjective(s: Snapshot, n: nat, budget: nat)
    requires WellFormed(s)
    ensures Rhs(Run(s, n, budget).final.matrix, |s.matrix| - 1) >= Rhs(s.matrix, |s.matrix| - 1)
  {
    var k := |s.matrix|;
    var v := Rhs(s.matrix, k - 1);
    var P := (t: Snapshot) => WellFormed(t) && |t.matrix| == k && Rhs(t.matrix, k - 1) >= v;
    forall t | WellFormed(t) && P(t) && Next(t).Some?
      ensures P(Next(t).value)
    {
      var c := PivotColumn(t.matrix);
      PivotRaisesObjective(t.matrix, c);
    }
    RunPreserves(P, s, n, budget);
  }

  /** Regrouping of appends, for the loops that record one snapshot per
      pivot. */
  lemma {:induction false} AppendShift<T>(done: seq<T>, x: T, rest: seq<T>)
    ensures done + ([x] + rest) == (done + [x]) + rest
    ensures (done + rest) + [x] == done + (rest + [x])
    ensures done + [] == done
  {
  }
}
