/** Shared data model of the linear-programming engine: problems, tableaux,
    solutions, errors and the tolerances and iteration caps the solver uses. */
module Types {

  datatype Option<T> = None | Some(value: T)

  /** Relational operator of a constraint: '<=', '>=' or '='. */
  datatype Operator = Le | Ge | Eq

  /** Objective direction, 'max' or 'min'. */
  datatype Direction = Max | Min

  datatype Coefficient = Coefficient(variable: string, value: real)

  datatype Constraint = Constraint(coefficients: seq<Coefficient>, op: Operator, rightSide: real)

  datatype Objective = Objective(direction: Direction, coefficients: seq<Coefficient>)

  /** A problem as it reaches the engine. The objective and the constraint list
      may be missing in a malformed request; validation rejects those before
      any other stage runs. */
  datatype Problem = Problem(name: string, objective: Option<Objective>,
                             constraints: Option<seq<Constraint>>, variables: seq<string>)
  {
    predicate Complete() { objective.Some? && constraints.Some? }

    function Cons(): seq<Constraint>
      requires constraints.Some?
    {
      constraints.value
    }

    function Obj(): Objective
      requires objective.Some?
    {
      objective.value
    }
  }

  datatype ErrorKind = EntradaInvalida | SinSolucion | NoAcotada

  datatype SimplexError = SimplexError(kind: ErrorKind, message: string)

  /** A deep copy of a tableau: dense matrix (constraint rows, then the
      objective row; the last column is the right-hand side), the basic column
      of every constraint row, the non-basic columns and a cached objective row. */
  datatype Snapshot = Snapshot(matrix: seq<seq<real>>, basis: seq<nat>, nonBasis: seq<nat>,
                               objectiveRow: seq<real>)

  datatype Solution = Solution(optimal: bool, bounded: bool, variables: map<string, real>,
                               objectiveValue: real, iterations: seq<Snapshot>)

  /** The solver's answer: a solution or an error value. */
  datatype Outcome = Solved(solution: Solution) | Failed(error: SimplexError)

  const EPS: real := 1e-9
  const MIN_EPS: real := 1e-12
  const DEFAULT_DECIMALS: nat := 6
  const DEFAULT_MAX_ITERATIONS: nat := 100
  const PHASE1_MAX_ITERATIONS: nat := 200

  function Abs(x: real): real { if x < 0.0 then -x else x }

  /** Array.prototype.indexOf: the first position of x, or -1. */
  function IndexOf<T(==)>(s: seq<T>, x: T): (i: int)
    ensures i == -1 <==> x !in s
    ensures i != -1 ==> 0 <= i < |s| && s[i] == x && x !in s[..i]
  {
    if |s| == 0 then -1
    else if s[0] == x then 0
    else
      var k := IndexOf(s[1..], x);
      assert s[1..][..if k == -1 then 0 else k] == s[1..1 + if k == -1 then 0 else k];
      if k == -1 then -1 else k + 1
  }

  function Zeros(k: nat): (z: seq<real>)
    ensures |z| == k && forall j :: 0 <= j < k ==> z[j] == 0.0
  {
    seq(k, _ => 0.0)
  }

  /** The integers lo, lo+1, ..., hi-1. */
  function Range(lo: nat, hi: nat): (r: seq<nat>)
    requires lo <= hi
    ensures |r| == hi - lo && forall k :: 0 <= k < |r| ==> r[k] == lo + k
  {
    seq(hi - lo, k => lo + k)
  }

  /** v, or -v when negate is set. */
  function Signed(negate: bool, v: real): real {
    if negate then -v else v
  }

  /** Writes the value of every coefficient (negated when negate is set) into
      base at the position its variable has in vars, left to right: undeclared
      variables are skipped and a later coefficient for the same variable
      overwrites an earlier one. */
  function Placed(base: seq<real>, vars: seq<string>, coefs: seq<Coefficient>, negate: bool): (r: seq<real>)
    requires |vars| <= |base|
    ensures |r| == |base|
    decreases |coefs|
  {
    if |coefs| == 0 then base
    else
      var prev := Placed(base, vars, coefs[..|coefs| - 1], negate);
      var idx := IndexOf(vars, coefs[|coefs| - 1].variable);
      if idx != -1 then prev[idx := Signed(negate, coefs[|coefs| - 1].value)] else prev
  }

  /** The position of the last coefficient that names the variable at position
      j of vars, or -1 when none does. */
  function LastWriter(vars: seq<string>, coefs: seq<Coefficient>, j: int): (w: int)
    ensures w == -1 <==> forall i :: 0 <= i < |coefs| ==> IndexOf(vars, coefs[i].variable) != j
    ensures w != -1 ==> 0 <= w < |coefs| && IndexOf(vars, coefs[w].variable) == j
                        && forall i :: w < i < |coefs| ==> IndexOf(vars, coefs[i].variable) != j
    decreases |coefs|
  {
    if |coefs| == 0 then -1
    else if IndexOf(vars, coefs[|coefs| - 1].variable) == j then |coefs| - 1
    else LastWriter(vars, coefs[..|coefs| - 1], j)
  }

  /** Entry j of a placed vector is the (signed) value of the last
      coefficient naming the j-th variable, and base[j] when no coefficient does. */
  lemma {:induction false} PlacedAt(base: seq<real>, vars: seq<string>, coefs: seq<Coefficient>, negate: bool, j: nat)
    requires |vars| <= |base| && j < |base|
    ensures var w := LastWriter(vars, coefs, j);
            Placed(base, vars, coefs, negate)[j] == if w == -1 then base[j] else Signed(negate, coefs[w].value)
    decreases |coefs|
  {
    if |coefs| > 0 {
      PlacedAt(base, vars, coefs[..|coefs| - 1], negate, j);
    }
  }

  /** The dense coefficient vector of a coefficient list over the declared
      variables (missing entries are 0). */
  function CoefVec(vars: seq<string>, coefs: seq<Coefficient>): (v: seq<real>)
    ensures |v| == |vars|
  {
    Placed(Zeros(|vars|), vars, coefs, false)
  }

  function Dot(a: seq<real>, x: seq<real>): real
    requires |a| == |x|
    decreases |a|
  {
    if |a| == 0 then 0.0 else Dot(a[..|a| - 1], x[..|x| - 1]) + a[|a| - 1] * x[|x| - 1]
  }

  /** Meaning of a constraint at a point x (one value per declared variable). */
  predicate Holds(c: Constraint, vars: seq<string>, x: seq<real>)
    requires |x| == |vars|
  {
    var s := Dot(CoefVec(vars, c.coefficients), x);
    match c.op
    case Le => s <= c.rightSide
    case Ge => s >= c.rightSide
    case Eq => s == c.rightSide
  }

  /** x satisfies every constraint and the implicit non-negativity bounds. */
  predicate Feasible(p: Problem, x: seq<real>)
    requires p.constraints.Some?
  {
    && |x| == |p.variables|
    && (forall k :: 0 <= k < |x| ==> x[k] >= 0.0)
    && (forall i :: 0 <= i < |p.Cons()| ==> Holds(p.Cons()[i], p.variables, x))
  }
}
