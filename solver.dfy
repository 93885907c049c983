/** services/simplex-solver.service.ts: validation, preparation of the
    starting tableau, the Phase II run, the two-variable fallback when the
    run fails, extraction of the solution with Phase I's snapshots ahead of
    Phase II's, and the two-variable cross-check. */
module Solver {
  import opened Types
  import opened SimplexRun
  import opened TableauOps
  import opened Executor
  import opened Preparation
  import opened Extractor
  import opened Optimizer
  import opened ProblemValidator
  import V = Validation
  import VE = VertexEnumeration

  /** The snapshots a solution reports: Phase I's, when there was a Phase I,
      followed by Phase II's. */
  function AllIterations(prepared: Prepared, phaseII: seq<Snapshot>): seq<Snapshot> {
    if prepared.phaseIIterations.Some? then prepared.phaseIIterations.value + phaseII else phaseII
  }

  /** The Phase II run on the prepared tableau. */
  function RunOf(p: Problem): ExecutionResult
    requires p.Complete() && PrepareSpec(p).Ready?
  {
    PreparedWellFormed(p);
    ExecutionOf(PrepareSpec(p).prepared.tableau, p)
  }

  /** The solution extracted from a successful run, with every snapshot. */
  function ExtractedOf(p: Problem): Solution
    requires p.Complete() && PrepareSpec(p).Ready? && RunOf(p).Executed?
  {
    PreparedWellFormed(p);
    ExecutionSuccess(PrepareSpec(p).prepared.tableau, p);
    ExtractionOf(RunOf(p).tableau, p, AllIterations(PrepareSpec(p).prepared, RunOf(p).iterations))
  }

  /** solve as a value. */
  function SolveSpec(p: Problem): Outcome {
    var validationError := Validate(p);
    if validationError.Some? then Failed(validationError.value)
    else if PrepareSpec(p).PrepFailed? then Failed(PrepareSpec(p).error)
    else if RunOf(p).ExecutionFailed? then
      var fallback := TryEnumerationOf(p);
      if fallback.Some? then Solved(fallback.value) else Failed(RunOf(p).error)
    else Solved(SimplexAnswer(p))
  }

  /** The answer after a successful Phase II run: the extracted solution, or
      the cross-check's improvement on it for two variables. */
  function SimplexAnswer(p: Problem): Solution
    requires p.Complete() && PrepareSpec(p).Ready? && RunOf(p).Executed?
  {
    var solution := ExtractedOf(p);
    if |p.variables| == 2 then
      var better := CrossCheckOf(p, solution);
      if better.Some? then better.value else solution
    else solution
  }

  /** SimplexSolverService.solve: the executor pivots a fresh tableau object
      built from the prepared copy. */
  method Solve(p: Problem) returns (r: Outcome)
    ensures r == SolveSpec(p)
  {
    var validationError := Validate(p);
    if validationError.Some? {
      return Failed(validationError.value);
    }
    var preparation := Prepare(p);
    if preparation.PrepFailed? {
      return Failed(preparation.error);
    }
    PreparedWellFormed(p);
    var tableau := new Tableau(preparation.prepared.tableau);
    var result := Execute(tableau, p);
    if result.ExecutionFailed? {
      var fallback := TryVertexEnumeration(p);
      if fallback.Some? {
        return Solved(fallback.value);
      }
      return Failed(result.error);
    }
    ExecutionSuccess(preparation.prepared.tableau, p);
    var allIterations := if preparation.prepared.phaseIIterations.Some?
                         then preparation.prepared.phaseIIterations.value + result.iterations
                         else result.iterations;
    var solution := Extract(result.tableau, p, allIterations);
    if |p.variables| == 2 {
      var better := CrossCheckWith2D(p, solution);
      if better.Some? {
        return Solved(better.value);
      }
    }
    return Solved(solution);
  }

  /** A validation error is returned as it is, and only a problem that
      passed validation, hence has exactly two variables, is ever solved. */
  lemma {:induction false} SolveValidation(p: Problem)
    ensures Validate(p).Some? ==> SolveSpec(p) == Failed(Validate(p).value)
    ensures SolveSpec(p).Solved? ==> V.ValidateProblem(p) == V.Valid && |p.variables| == 2
  {
  }

  /** Every solution solve returns claims optimality and boundedness. */
  lemma {:induction false} SolveFlags(p: Problem)
    requires SolveSpec(p).Solved?
    ensures SolveSpec(p).solution.optimal && SolveSpec(p).solution.bounded
  {
    TryEnumerationFacts(p);
    if RunOf(p).ExecutionFailed? {
      VE.EnumerationSuccess(p, EPS);
    } else {
      PreparedWellFormed(p);
      ExecutionSuccess(PrepareSpec(p).prepared.tableau, p);
      ExtractionFacts(RunOf(p).tableau, p, AllIterations(PrepareSpec(p).prepared, RunOf(p).iterations));
      CrossCheckFacts(p, ExtractedOf(p));
      if CrossCheckOf(p, ExtractedOf(p)).Some? {
        VE.EnumerationSuccess(p, EPS);
      }
    }
  }

  /** When the Phase II run succeeds, the answer reports Phase I's snapshots
      followed by Phase II's and names exactly the declared variables; it is
      the extracted simplex solution unless the enumeration succeeds and
      beats it by more than EPS. */
  lemma {:induction false} SolveSimplexPath(p: Problem)
    requires Validate(p).None? && PrepareSpec(p).Ready? && RunOf(p).Executed?
    ensures SolveSpec(p).Solved?
    ensures SolveSpec(p).solution.iterations == AllIterations(PrepareSpec(p).prepared, RunOf(p).iterations)
    ensures SolveSpec(p).solution.variables.Keys == set v | v in p.variables
    ensures VE.EnumerationOf(p, EPS).Failed?
            || !Optimizer.Beats(p.Obj().direction, VE.EnumerationOf(p, EPS).solution.objectiveValue, ExtractedOf(p).objectiveValue)
            ==> SolveSpec(p).solution == ExtractedOf(p)
  {
    assert SolveSpec(p) == Solved(SimplexAnswer(p));
    SimplexAnswerFacts(p);
  }

  lemma {:induction false} SimplexAnswerFacts(p: Problem)
    requires p.Complete() && PrepareSpec(p).Ready? && RunOf(p).Executed?
    ensures SimplexAnswer(p).iterations == AllIterations(PrepareSpec(p).prepared, RunOf(p).iterations)
    ensures SimplexAnswer(p).variables.Keys == set v | v in p.variables
    ensures |p.variables| != 2 || VE.EnumerationOf(p, EPS).Failed?
            || !Optimizer.Beats(p.Obj().direction, VE.EnumerationOf(p, EPS).solution.objectiveValue, ExtractedOf(p).objectiveValue)
            ==> SimplexAnswer(p) == ExtractedOf(p)
  {
    var extracted := ExtractedOf(p);
    ExtractedNames(p);
    CrossCheckFacts(p, extracted);
    if CrossCheckOf(p, extracted).Some? {
      CrossCheckNames(p, extracted);
    }
  }

  /** The extracted solution reports every snapshot and names exactly the
      declared variables. */
  lemma {:induction false} ExtractedNames(p: Problem)
    requires p.Complete() && PrepareSpec(p).Ready? && RunOf(p).Executed?
    ensures ExtractedOf(p).iterations == AllIterations(PrepareSpec(p).prepared, RunOf(p).iterations)
    ensures ExtractedOf(p).variables.Keys == set v | v in p.variables
  {
    PreparedWellFormed(p);
    ExecutionSuccess(PrepareSpec(p).prepared.tableau, p);
    ExtractionFacts(RunOf(p).tableau, p, AllIterations(PrepareSpec(p).prepared, RunOf(p).iterations));
  }

  /** When preparation succeeds but the Phase II run fails (unbounded or out
      of iterations), solve answers with the enumeration's solution when the
      enumeration succeeds, and with the run's error otherwise. */
  lemma {:induction false} SolveFallback(p: Problem)
    requires Validate(p).None? && PrepareSpec(p).Ready? && RunOf(p).ExecutionFailed?
    ensures SolveSpec(p) == if VE.EnumerationOf(p, EPS).Solved? then VE.EnumerationOf(p, EPS) else Failed(RunOf(p).error)
  {
    TryEnumerationFacts(p);
  }
}
