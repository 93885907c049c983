/** The older validation entry point of services/simplex/preprocess.ts. Its
    checks are those of lib/validation/validators.ts in the same order (the
    same bucket-by-coefficient-vector contradiction test, the same
    operator-blind obvious-infeasibility test); only the answer is spelled
    differently: true, 'SIN_SOLUCION' or false. */
module Preprocess {
  import opened Types
  import V = Validation

  /** true, 'SIN_SOLUCION' or false. */
  datatype Check = Accepted | NoSolution | Rejected

  /** validateProblem of preprocess.ts: the validators.ts verdict with false
      in place of 'ENTRADA_INVALIDA'. */
  function ValidateProblem(p: Problem): (r: Check)
    ensures r == Rejected <==> !p.Complete() || |p.Cons()| == 0 || |p.variables| != 2
    ensures r == NoSolution ==>
              || (exists i :: 0 <= i < |p.Cons()| && V.ObviouslyInfeasible(p.Cons()[i]))
              || (exists i, j :: 0 <= i < |p.Cons()| && 0 <= j < |p.Cons()|
                                 && V.SameVector(p.variables, p.Cons()[i], p.Cons()[j])
                                 && V.Clash(p.Cons()[i], p.Cons()[j]))
    ensures r == Accepted <==>
              && p.Complete() && |p.Cons()| > 0 && |p.variables| == 2
              && (forall i :: 0 <= i < |p.Cons()| ==> !V.ObviouslyInfeasible(p.Cons()[i]))
              && !(exists i, j :: 0 <= i < |p.Cons()| && 0 <= j < |p.Cons()|
                                  && V.SameVector(p.variables, p.Cons()[i], p.Cons()[j])
                                  && V.Clash(p.Cons()[i], p.Cons()[j]))
  {
    if !p.Complete() || |p.Cons()| == 0 then Rejected
    else
      V.DirectContradictionsPairwise(p);
      match V.ValidateProblem(p)
      case Valid => Accepted
      case Infeasible => NoSolution
      case Malformed => Rejected
  }
}
