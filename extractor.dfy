/** Reading the solution off the final tableau (lib/core/solution-extractor.ts):
    every declared variable starts at 0, each basic decision column takes the
    right-hand side of its row, and the objective value is recomputed from
    those values and the problem's objective coefficients. */
module Extractor {
  import opened Types
  import opened Matrix
  import opened SimplexRun
  import opened Rounding

  /** The variable map after the first k basis rows: every declared
      variable at 0, then, row by row, the basic decision column's variable
      set to that row's right-hand side (a later row overwriting an earlier
      one that names the same variable). */
  function Assigned(s: Snapshot, vars: seq<string>, k: nat): (m: map<string, real>)
    requires WellFormed(s) && k <= |s.basis|
    ensures m.Keys == set v | v in vars
  {
    if k == 0 then map v | v in vars :: 0.0
    else
      var m := Assigned(s, vars, k - 1);
      if s.basis[k - 1] < |vars| then m[vars[s.basis[k - 1]] := Rhs(s.matrix, k - 1)] else m
  }

  /** The last of the first k constraint rows whose basic column is a
      decision column naming x, or -1. */
  function LastRowNaming(s: Snapshot, vars: seq<string>, x: string, k: nat): (r: int)
    requires WellFormed(s) && k <= |s.basis|
    ensures r == -1 <==> forall i :: 0 <= i < k ==> !(s.basis[i] < |vars| && vars[s.basis[i]] == x)
    ensures r != -1 ==> && 0 <= r < k && s.basis[r] < |vars| && vars[s.basis[r]] == x
                        && forall i :: r < i < k ==> !(s.basis[i] < |vars| && vars[s.basis[i]] == x)
  {
    if k == 0 then -1
    else if s.basis[k - 1] < |vars| && vars[s.basis[k - 1]] == x then k - 1
    else LastRowNaming(s, vars, x, k - 1)
  }

  /** extractVariables: a declared variable is the right-hand side of the
      last row whose basic column is that variable, and 0 when no row's is. */
  lemma {:induction false} AssignedValue(s: Snapshot, vars: seq<string>, x: string, k: nat)
    requires WellFormed(s) && k <= |s.basis| && x in vars
    ensures var r := LastRowNaming(s, vars, x, k);
            Assigned(s, vars, k)[x] == if r == -1 then 0.0 else Rhs(s.matrix, r)
  {
    if k > 0 {
      AssignedValue(s, vars, x, k - 1);
    }
  }

  predicate Distinct<T(==)>(s: seq<T>) {
    forall i, j :: 0 <= i < j < |s| ==> s[i] != s[j]
  }

  /** With distinct variable names and a basis listing no column twice, as
      in every tableau the engine produces: a basic decision variable reads
      its own row's right-hand side and a non-basic one reads 0. */
  lemma {:induction false} BasicAndNonBasicValues(s: Snapshot, vars: seq<string>, j: nat)
    requires WellFormed(s) && Distinct(vars) && Distinct(s.basis) && j < |vars|
    ensures var m := Assigned(s, vars, |s.basis|);
            && (j in s.basis ==> m[vars[j]] == Rhs(s.matrix, IndexOf(s.basis, j)))
            && (j !in s.basis ==> m[vars[j]] == 0.0)
  {
    AssignedValue(s, vars, vars[j], |s.basis|);
    var r := LastRowNaming(s, vars, vars[j], |s.basis|);
    if j in s.basis {
      var i := IndexOf(s.basis, j);
      assert r == i;
    } else {
      assert r == -1;
    }
  }

  /** extractVariables, loop by loop. */
  method ExtractVariables(s: Snapshot, vars: seq<string>) returns (variables: map<string, real>)
    requires WellFormed(s)
    ensures variables == Assigned(s, vars, |s.basis|)
  {
    variables := map[];
    var numVars := |vars|;
    var k := 0;
    while k < |vars|
      invariant 0 <= k <= |vars|
      invariant variables == map v | v in vars[..k] :: 0.0
    {
      variables := variables[vars[k] := 0.0];
      assert vars[..k + 1] == vars[..k] + [vars[k]];
      k := k + 1;
    }
    assert vars[..k] == vars;
    var i := 0;
    while i < |s.basis|
      invariant 0 <= i <= |s.basis|
      invariant variables == Assigned(s, vars, i)
    {
      var varIndex := s.basis[i];
      if varIndex < numVars {
        var rhs := s.matrix[i][|s.matrix[0]| - 1];
        variables := variables[vars[varIndex] := rhs];
      }
      i := i + 1;
    }
  }

  /** The value a map gives a name, 0 when the name is absent. */
  function Get(m: map<string, real>, x: string): real {
    if x in m then m[x] else 0.0
  }

  /** The sum, over the first k objective coefficients, of the coefficient
      times its variable's value. */
  function ObjectiveSum(coefs: seq<Coefficient>, m: map<string, real>): real
    decreases |coefs|
  {
    if |coefs| == 0 then 0.0
    else ObjectiveSum(coefs[..|coefs| - 1], m) + coefs[|coefs| - 1].value * Get(m, coefs[|coefs| - 1].variable)
  }

  /** calculateObjectiveValue, accumulating term by term. */
  method CalculateObjectiveValue(coefs: seq<Coefficient>, variables: map<string, real>) returns (value: real)
    ensures value == ObjectiveSum(coefs, variables)
  {
    value := 0.0;
    var k := 0;
    while k < |coefs|
      invariant 0 <= k <= |coefs|
      invariant value == ObjectiveSum(coefs[..k], variables)
    {
      assert coefs[..k + 1][..k] == coefs[..k];
      value := value + coefs[k].value * Get(variables, coefs[k].variable);
      k := k + 1;
    }
    assert coefs[..k] == coefs;
  }

  /** The map holding x[j] under the j-th declared name. */
  predicate AtPoint(m: map<string, real>, vars: seq<string>, x: seq<real>)
    requires |x| == |vars|
  {
    m.Keys == (set v | v in vars) && forall j :: 0 <= j < |vars| ==> m[vars[j]] == x[j]
  }

  /** Changing one entry of a changes a . x by the change times x_i. */
  lemma {:induction false} DotUpdate(a: seq<real>, x: seq<real>, i: nat, v: real)
    requires |a| == |x| && i < |a|
    ensures Dot(a[i := v], x) == Dot(a, x) - a[i] * x[i] + v * x[i]
    decreases |a|
  {
    var n := |a|;
    if i == n - 1 {
      assert a[i := v][..n - 1] == a[..n - 1];
    } else {
      assert a[i := v][..n - 1] == a[..n - 1][i := v];
      DotUpdate(a[..n - 1], x[..n - 1], i, v);
    }
  }

  lemma {:induction false} DotZeros(x: seq<real>)
    ensures Dot(Zeros(|x|), x) == 0.0
    decreases |x|
  {
    if |x| > 0 {
      assert Zeros(|x|)[..|x| - 1] == Zeros(|x| - 1);
      DotZeros(x[..|x| - 1]);
    }
  }

  /** The last objective coefficient, when it names a declared variable,
      adds its value times that variable's value to c . x, its column being
      still 0 before it. */
  lemma {:induction false} NamedTerm(coefs: seq<Coefficient>, m: map<string, real>, vars: seq<string>, x: seq<real>, idx: nat)
    requires |x| == |vars| && Distinct(vars) && AtPoint(m, vars, x) && |coefs| > 0
    requires forall i, j :: 0 <= i < j < |coefs| ==> coefs[i].variable != coefs[j].variable
    requires idx < |vars| && vars[idx] == coefs[|coefs| - 1].variable && IndexOf(vars, vars[idx]) == idx
    ensures Get(m, vars[idx]) == x[idx]
    ensures Dot(CoefVec(vars, coefs), x) == Dot(CoefVec(vars, coefs[..|coefs| - 1]), x) + coefs[|coefs| - 1].value * x[idx]
  {
    var init, c := coefs[..|coefs| - 1], coefs[|coefs| - 1];
    var prev := CoefVec(vars, init);
    assert CoefVec(vars, coefs) == prev[idx := c.value];
    PlacedAt(Zeros(|vars|), vars, init, false, idx);
    assert LastWriter(vars, init, idx) == -1;
    DotUpdate(prev, x, idx, c.value);
    MulZero(prev[idx], x[idx]);
  }

  lemma {:induction false} MulZero(a: real, b: real)
    requires a == 0.0
    ensures a * b == 0.0
  {
  }

  /** One more objective coefficient keeps the running sum equal to c . x. */
  lemma {:induction false} ObjectiveSumStep(coefs: seq<Coefficient>, m: map<string, real>, vars: seq<string>, x: seq<real>)
    requires |x| == |vars| && Distinct(vars) && AtPoint(m, vars, x) && |coefs| > 0
    requires forall i, j :: 0 <= i < j < |coefs| ==> coefs[i].variable != coefs[j].variable
    requires ObjectiveSum(coefs[..|coefs| - 1], m) == Dot(CoefVec(vars, coefs[..|coefs| - 1]), x)
    ensures ObjectiveSum(coefs, m) == Dot(CoefVec(vars, coefs), x)
  {
    var init, c := coefs[..|coefs| - 1], coefs[|coefs| - 1];
    var idx := IndexOf(vars, c.variable);
    var g := Get(m, c.variable);
    assert ObjectiveSum(coefs, m) == ObjectiveSum(init, m) + c.value * g;
    if idx != -1 {
      NamedTerm(coefs, m, vars, x, idx);
      assert c.value * g == c.value * x[idx];
    } else {
      assert CoefVec(vars, coefs) == CoefVec(vars, init);
      assert g == 0.0;
      MulZero(g, c.value);
    }
  }

  /** With distinct declared names and no objective variable named twice, the
      recomputed objective value at the extracted point is the objective
      c . x of the problem at that point. */
  lemma {:induction false} ObjectiveSumIsDot(coefs: seq<Coefficient>, m: map<string, real>, vars: seq<string>, x: seq<real>)
    requires |x| == |vars| && Distinct(vars) && AtPoint(m, vars, x)
    requires forall i, j :: 0 <= i < j < |coefs| ==> coefs[i].variable != coefs[j].variable
    ensures ObjectiveSum(coefs, m) == Dot(CoefVec(vars, coefs), x)
    decreases |coefs|
  {
    if |coefs| == 0 {
      DotZeros(x);
    } else {
      ObjectiveSumIsDot(coefs[..|coefs| - 1], m, vars, x);
      ObjectiveSumStep(coefs, m, vars, x);
    }
  }

  /** extract as a value: the extracted variables, the objective recomputed
      from them, both flags set, the given iterations, rounded to
      DEFAULT_DECIMALS. */
  function ExtractionOf(s: Snapshot, p: Problem, iterations: seq<Snapshot>): Solution
    requires WellFormed(s) && p.objective.Some?
  {
    var variables := Assigned(s, p.variables, |s.basis|);
    var objective := ObjectiveSum(p.Obj().coefficients, variables);
    RoundSolution(Solved(Solution(true, true, variables, objective, iterations)), DEFAULT_DECIMALS).solution
  }

  /** SolutionExtractorService.extract. */
  method Extract(s: Snapshot, p: Problem, iterations: seq<Snapshot>) returns (r: Solution)
    requires WellFormed(s) && p.objective.Some?
    ensures r == ExtractionOf(s, p, iterations)
  {
    var variables := ExtractVariables(s, p.variables);
    var objectiveValue := CalculateObjectiveValue(p.Obj().coefficients, variables);
    var rounded := RoundSolution(Solved(Solution(true, true, variables, objectiveValue, iterations)), DEFAULT_DECIMALS);
    return rounded.solution;
  }

  /** An extracted solution is optimal and bounded, carries the iterations it
      was given, names exactly the declared variables, and holds each
      variable's row value and the objective value at those values, rounded
      to DEFAULT_DECIMALS. */
  lemma {:induction false} ExtractionFacts(s: Snapshot, p: Problem, iterations: seq<Snapshot>)
    requires WellFormed(s) && p.objective.Some?
    ensures var r := ExtractionOf(s, p, iterations);
            var m := Assigned(s, p.variables, |s.basis|);
            && r.optimal && r.bounded && r.iterations == iterations
            && r.variables.Keys == set v | v in p.variables
            && (forall x :: x in p.variables ==>
                  var i := LastRowNaming(s, p.variables, x, |s.basis|);
                  r.variables[x] == Round(if i == -1 then 0.0 else Rhs(s.matrix, i), DEFAULT_DECIMALS))
            && r.objectiveValue == Round(ObjectiveSum(p.Obj().coefficients, m), DEFAULT_DECIMALS)
  {
    forall x | x in p.variables {
      AssignedValue(s, p.variables, x, |s.basis|);
    }
  }
}
