/** lib/core/solution-optimizer.ts: the two-variable enumeration as a
    fallback when the simplex run fails, and as a cross-check that replaces
    a simplex solution the enumeration beats by more than EPS. */
module Optimizer {
  import opened Types
  import opened Rounding
  import opened VertexEnumeration

  /** tryVertexEnumeration as a value: nothing unless there are exactly two
      variables and the enumeration succeeds; then its solution, rounded once
      more to DEFAULT_DECIMALS. */
  function TryEnumerationOf(p: Problem): Option<Solution>
    requires p.Complete()
  {
    if |p.variables| != 2 then None
    else
      var e := EnumerationOf(p, EPS);
      if e.Failed? then None else Some(RoundSolution(e, DEFAULT_DECIMALS).solution)
  }

  /** SolutionOptimizerService.tryVertexEnumeration. */
  method TryVertexEnumeration(p: Problem) returns (r: Option<Solution>)
    requires p.Complete()
    ensures r == TryEnumerationOf(p)
  {
    if |p.variables| != 2 {
      return None;
    }
    var enumResult := SolveByVertexEnumeration(p);
    if enumResult.Solved? {
      return Some(RoundSolution(enumResult, DEFAULT_DECIMALS).solution);
    }
    return None;
  }

  /** The fallback yields a solution exactly when the problem has two
      variables and the enumeration succeeds, and the extra rounding leaves
      the enumeration's solution as it was. */
  lemma {:induction false} TryEnumerationFacts(p: Problem)
    requires p.Complete()
    ensures TryEnumerationOf(p).Some? <==> |p.variables| == 2 && EnumerationOf(p, EPS).Solved?
    ensures TryEnumerationOf(p).Some? ==> TryEnumerationOf(p).value == EnumerationOf(p, EPS).solution
  {
    if |p.variables| == 2 && EnumerationOf(p, EPS).Solved? {
      var e := EnumerationOf(p, EPS);
      var v1, v2 := p.variables[0], p.variables[1];
      var best := Choose(PlaneOf(p, EPS), VerticesOf(p));
      var raw := Solved(Solution(true, true, map[v1 := best.value.point.x][v2 := best.value.point.y], best.value.value, []));
      RoundSolutionIdempotent(raw, DEFAULT_DECIMALS);
    }
  }

  /** isBetter of crossCheckWith2D: an improvement by more than EPS in the
      objective's direction. */
  predicate Beats(d: Direction, candidate: real, current: real) {
    if d == Max then candidate > current + EPS else candidate < current - EPS
  }

  /** A rounded solution is left as it is by rounding again, whatever
      iterations it is given. */
  lemma {:induction false} RoundedWithIterations(o: Outcome, iterations: seq<Snapshot>, d: nat)
    requires o.Solved?
    ensures var s := RoundSolution(o, d).solution.(iterations := iterations);
            RoundSolution(Solved(s), d).solution == s
  {
    var s := RoundSolution(o, d).solution.(iterations := iterations);
    var t := RoundSolution(Solved(s), d).solution;
    forall k | k in s.variables
      ensures t.variables[k] == s.variables[k]
    {
      RoundIdempotent(o.solution.variables[k], d);
    }
    RoundIdempotent(o.solution.objectiveValue, d);
    assert t.variables == s.variables;
  }

  /** crossCheckWith2D as a value: nothing unless there are two variables,
      the enumeration succeeds and it beats the current objective value by
      more than EPS; then the enumeration's flags, variables and objective
      value with the current solution's iterations, rounded. */
  function CrossCheckOf(p: Problem, current: Solution): Option<Solution>
    requires p.Complete()
  {
    if |p.variables| != 2 then None
    else
      var e := EnumerationOf(p, EPS);
      if e.Failed? || !Beats(p.Obj().direction, e.solution.objectiveValue, current.objectiveValue) then None
      else
        var improved := Solution(e.solution.optimal, e.solution.bounded, e.solution.variables,
                                 e.solution.objectiveValue, current.iterations);
        Some(RoundSolution(Solved(improved), DEFAULT_DECIMALS).solution)
  }

  /** SolutionOptimizerService.crossCheckWith2D. */
  method CrossCheckWith2D(p: Problem, current: Solution) returns (r: Option<Solution>)
    requires p.Complete()
    ensures r == CrossCheckOf(p, current)
  {
    if |p.variables| != 2 {
      return None;
    }
    var enumResult := SolveByVertexEnumeration(p);
    if enumResult.Failed? {
      return None;
    }
    var isBetter := if p.Obj().direction == Max then enumResult.solution.objectiveValue > current.objectiveValue + EPS
                    else enumResult.solution.objectiveValue < current.objectiveValue - EPS;
    if isBetter {
      var improved := Solution(enumResult.solution.optimal, enumResult.solution.bounded, enumResult.solution.variables,
                               enumResult.solution.objectiveValue, current.iterations);
      return Some(RoundSolution(Solved(improved), DEFAULT_DECIMALS).solution);
    }
    return None;
  }

  /** The cross-check replaces the current solution exactly when the
      enumeration succeeds on a two-variable problem and beats it by more
      than EPS; the replacement is the enumeration's solution, unchanged by
      the extra rounding, carrying the current solution's iterations. */
  lemma {:induction false} CrossCheckFacts(p: Problem, current: Solution)
    requires p.Complete()
    ensures CrossCheckOf(p, current).Some? <==>
              && |p.variables| == 2 && EnumerationOf(p, EPS).Solved?
              && Beats(p.Obj().direction, EnumerationOf(p, EPS).solution.objectiveValue, current.objectiveValue)
    ensures CrossCheckOf(p, current).Some? ==>
              CrossCheckOf(p, current).value == EnumerationOf(p, EPS).solution.(iterations := current.iterations)
  {
    if CrossCheckOf(p, current).Some? {
      var v1, v2 := p.variables[0], p.variables[1];
      var best := Choose(PlaneOf(p, EPS), VerticesOf(p));
      var raw := Solved(Solution(true, true, map[v1 := best.value.point.x][v2 := best.value.point.y], best.value.value, []));
      RoundedWithIterations(raw, current.iterations, DEFAULT_DECIMALS);
    }
  }

  /** An improvement found by the cross-check keeps the simplex answer's
      snapshots and names exactly the two declared variables. */
  lemma {:induction false} CrossCheckNames(p: Problem, current: Solution)
    requires p.Complete() && CrossCheckOf(p, current).Some?
    ensures CrossCheckOf(p, current).value.iterations == current.iterations
    ensures CrossCheckOf(p, current).value.variables.Keys == set v | v in p.variables
  {
    CrossCheckFacts(p, current);
    EnumerationSuccess(p, EPS);
    PairNames(p.variables);
  }

  lemma {:induction false} PairNames(s: seq<string>)
    requires |s| == 2
    ensures (set v | v in s) == {s[0], s[1]}
  {
    assert forall v :: v in s <==> v == s[0] || v == s[1];
  }
}
