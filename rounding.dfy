/** Decimal rounding of results (services/simplex/utils.ts and
    utils/solution-formatter.ts): +v.toFixed(d) for one number, and the same
    rounding applied to every variable value and to the objective value of a
    solution, errors passing through untouched. */
module Rounding {
  import opened Types

  /** x * 10^d. */
  function Scale(x: real, d: nat): real {
    if d == 0 then x else 10.0 * Scale(x, d - 1)
  }

  /** x / 10^d. */
  function Unscale(x: real, d: nat): real {
    if d == 0 then x else Unscale(x, d - 1) / 10.0
  }

  lemma {:induction false} ScaleDiv10(x: real, d: nat)
    ensures Scale(x / 10.0, d) == Scale(x, d) / 10.0
  {
    if d > 0 {
      ScaleDiv10(x, d - 1);
    }
  }

  lemma {:induction false} UnscaleTimes10(x: real, d: nat)
    ensures Unscale(10.0 * x, d) == 10.0 * Unscale(x, d)
  {
    if d > 0 {
      UnscaleTimes10(x, d - 1);
    }
  }

  /** Scaling and unscaling undo each other. */
  lemma {:induction false} ScaleRoundTrip(x: real, d: nat)
    ensures Scale(Unscale(x, d), d) == x
    ensures Unscale(Scale(x, d), d) == x
  {
    if d > 0 {
      ScaleRoundTrip(x, d - 1);
      ScaleDiv10(Unscale(x, d - 1), d - 1);
      UnscaleTimes10(Scale(x, d - 1), d - 1);
    }
  }

  /** Unscaling is linear and keeps signs. */
  lemma {:induction false} UnscaleLinear(x: real, y: real, d: nat)
    ensures Unscale(x - y, d) == Unscale(x, d) - Unscale(y, d)
    ensures x <= y ==> Unscale(x, d) <= Unscale(y, d)
    ensures Unscale(-x, d) == -Unscale(x, d)
  {
    if d > 0 {
      UnscaleLinear(x, y, d - 1);
    }
  }

  lemma {:induction false} ScaleNonNegative(x: real, d: nat)
    requires x >= 0.0
    ensures Scale(x, d) >= 0.0
  {
    if d > 0 {
      ScaleNonNegative(x, d - 1);
    }
  }

  /** The integer part of a non-negative real. */
  function Whole(x: real): nat
    requires x >= 0.0
    decreases x.Floor
  {
    if x < 1.0 then 0 else 1 + Whole(x - 1.0)
  }

  lemma {:induction false} WholeBounds(x: real)
    requires x >= 0.0
    ensures Whole(x) as real <= x < Whole(x) as real + 1.0
    decreases x.Floor
  {
    if x >= 1.0 {
      WholeBounds(x - 1.0);
    }
  }

  /** A non-negative a rounded to the nearest multiple of 10^-d, halves
      going up. */
  function Nearest(a: real, d: nat): real
    requires a >= 0.0
  {
    ScaleNonNegative(a, d);
    Unscale(Whole(Scale(a, d) + 0.5) as real, d)
  }

  /** +v.toFixed(d): the magnitude is rounded to the nearest multiple of
      10^-d, halves going up, and the sign is put back; magnitudes of 1e21
      and more are printed, hence returned, as they are. */
  function Round(v: real, d: nat): real {
    if Abs(v) >= 1e21 then v else Signed(v < 0.0, Nearest(Abs(v), d))
  }

  /** The nearest grid point is non-negative and within half a step of a. */
  lemma {:induction false} NearestError(a: real, d: nat)
    requires a >= 0.0
    ensures Nearest(a, d) >= 0.0
    ensures -Unscale(0.5, d) <= Nearest(a, d) - a <= Unscale(0.5, d)
  {
    ScaleNonNegative(a, d);
    var s := Scale(a, d);
    var n := Whole(s + 0.5) as real;
    WholeBounds(s + 0.5);
    ScaleRoundTrip(a, d);
    UnscaleLinear(n, s, d);
    UnscaleLinear(0.0, n, d);
    UnscaleLinear(n - s, 0.5, d);
    UnscaleLinear(-0.5, n - s, d);
    UnscaleLinear(0.5, 0.0, d);
  }

  /** A grid point is its own nearest grid point. */
  lemma {:induction false} NearestFixed(a: real, d: nat)
    requires a >= 0.0
    ensures Nearest(a, d) >= 0.0
    ensures Nearest(Nearest(a, d), d) == Nearest(a, d)
  {
    ScaleNonNegative(a, d);
    var n := Whole(Scale(a, d) + 0.5);
    var r := Unscale(n as real, d);
    assert r >= 0.0 by {
      UnscaleLinear(0.0, n as real, d);
    }
    ScaleRoundTrip(n as real, d);
    WholeBounds(n as real + 0.5);
    assert Whole(Scale(r, d) + 0.5) == n;
  }

  /** A rounded value is within half a unit of the last kept decimal. */
  lemma {:induction false} RoundError(v: real, d: nat)
    ensures Abs(Round(v, d) - v) <= Unscale(0.5, d)
  {
    if Abs(v) < 1e21 {
      NearestError(Abs(v), d);
    } else {
      UnscaleLinear(0.0, 0.5, d);
    }
  }

  /** Rounding twice is rounding once: a value already on the 10^-d grid is
      left where it is. */
  lemma {:induction false} RoundIdempotent(v: real, d: nat)
    ensures Round(Round(v, d), d) == Round(v, d)
  {
    if Abs(v) < 1e21 {
      NearestError(Abs(v), d);
      NearestFixed(Abs(v), d);
    }
  }

  /** roundSolution: an error is returned as it is; a solution keeps its
      flags, its iterations and its variable names, every variable value and
      the objective value being rounded to d decimals. */
  function RoundSolution(o: Outcome, d: nat): (r: Outcome)
    ensures o.Failed? ==> r == o
    ensures o.Solved? ==> && r.Solved?
                          && r.solution.optimal == o.solution.optimal
                          && r.solution.bounded == o.solution.bounded
                          && r.solution.iterations == o.solution.iterations
                          && r.solution.variables.Keys == o.solution.variables.Keys
                          && r.solution.objectiveValue == Round(o.solution.objectiveValue, d)
                          && forall k :: k in r.solution.variables ==>
                               r.solution.variables[k] == Round(o.solution.variables[k], d)
  {
    match o
    case Failed(_) => o
    case Solved(s) =>
      Solved(s.(variables := map k | k in s.variables :: Round(s.variables[k], d),
                objectiveValue := Round(s.objectiveValue, d)))
  }

  /** Rounding a rounded solution changes nothing, so the repeated rounding
      the solver applies to an enumerated solution is harmless. */
  lemma {:induction false} RoundSolutionIdempotent(o: Outcome, d: nat)
    ensures RoundSolution(RoundSolution(o, d), d) == RoundSolution(o, d)
  {
    if o.Solved? {
      var r := RoundSolution(o, d).solution;
      var rr := RoundSolution(RoundSolution(o, d), d).solution;
      forall k | k in r.variables
        ensures rr.variables[k] == r.variables[k]
      {
        RoundIdempotent(o.solution.variables[k], d);
      }
      RoundIdempotent(o.solution.objectiveValue, d);
      assert rr.variables == r.variables;
    }
  }

  /** Every rounded value of a solution is within half a unit of the last
      kept decimal of the value it replaces. */
  lemma {:induction false} RoundSolutionError(o: Outcome, d: nat)
    requires o.Solved?
    ensures var r := RoundSolution(o, d).solution;
            && Abs(r.objectiveValue - o.solution.objectiveValue) <= Unscale(0.5, d)
            && forall k :: k in r.variables ==> Abs(r.variables[k] - o.solution.variables[k]) <= Unscale(0.5, d)
  {
    RoundError(o.solution.objectiveValue, d);
    forall k | k in o.solution.variables
      ensures Abs(Round(o.solution.variables[k], d) - o.solution.variables[k]) <= Unscale(0.5, d)
    {
      RoundError(o.solution.variables[k], d);
    }
  }
}
