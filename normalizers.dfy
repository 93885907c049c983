/** Rewriting of '>=' constraints as '<=' constraints, and the test for the
    standard form the one-phase path needs (lib/validation/normalizers.ts;
    services/simplex/preprocess.ts holds the same two functions). */
module Normalizers {
  import opened Types
  import opened Matrix
  import opened SimplexRun
  import opened TableauOps

  /** Every coefficient with its value negated, in the same order. */
  function NegatedCoefficients(coefs: seq<Coefficient>): (r: seq<Coefficient>)
    ensures |r| == |coefs|
    ensures forall k :: 0 <= k < |coefs| ==> r[k].variable == coefs[k].variable && r[k].value == -coefs[k].value
  {
    seq(|coefs|, k requires 0 <= k < |coefs| => Coefficient(coefs[k].variable, -coefs[k].value))
  }

  /** a.x >= b becomes (-a).x <= -b; '<=' and '=' constraints are kept. */
  function NormalizeConstraint(c: Constraint): (d: Constraint)
    ensures d.op != Ge
    ensures c.op != Ge ==> d == c
  {
    if c.op == Ge then Constraint(NegatedCoefficients(c.coefficients), Le, -c.rightSide) else c
  }

  /** normalizeToLEAndMax: the constraint list mapped one to one, the rest of
      the problem copied. */
  function NormalizeToLEAndMax(p: Problem): (q: Problem)
    requires p.constraints.Some?
    ensures q.name == p.name && q.objective == p.objective && q.variables == p.variables
    ensures q.constraints.Some? && |q.Cons()| == |p.Cons()|
    ensures forall i :: 0 <= i < |q.Cons()| ==> q.Cons()[i].op != Ge
  {
    var cs := p.Cons();
    p.(constraints := Some(seq(|cs|, i requires 0 <= i < |cs| => NormalizeConstraint(cs[i]))))
  }

  /** Constraint i of the result is constraint i of the input, rewritten when
      it is '>=' and unchanged otherwise. */
  lemma {:induction false} NormalizeAt(p: Problem, i: nat)
    requires p.constraints.Some? && i < |p.Cons()|
    ensures var c, d := p.Cons()[i], NormalizeToLEAndMax(p).Cons()[i];
            && (c.op == Ge ==> d.op == Le && d.rightSide == -c.rightSide
                               && d.coefficients == NegatedCoefficients(c.coefficients))
            && (c.op != Ge ==> d == c)
  {
  }

  /** Normalizing twice is normalizing once. */
  lemma {:induction false} NormalizeIdempotent(p: Problem)
    requires p.constraints.Some?
    ensures NormalizeToLEAndMax(NormalizeToLEAndMax(p)) == NormalizeToLEAndMax(p)
  {
    var q := NormalizeToLEAndMax(p);
    assert NormalizeToLEAndMax(q).Cons() == q.Cons();
  }

  /** The last coefficient naming a variable does not depend on the values. */
  lemma {:induction false} LastWriterNegated(vars: seq<string>, coefs: seq<Coefficient>, j: int)
    ensures LastWriter(vars, NegatedCoefficients(coefs), j) == LastWriter(vars, coefs, j)
    decreases |coefs|
  {
    if |coefs| > 0 {
      var pre := coefs[..|coefs| - 1];
      assert NegatedCoefficients(coefs)[..|coefs| - 1] == NegatedCoefficients(pre);
      LastWriterNegated(vars, pre, j);
    }
  }

  lemma {:induction false} DotNegated(a: seq<real>, b: seq<real>, x: seq<real>)
    requires |a| == |b| == |x| && forall k :: 0 <= k < |a| ==> b[k] == -a[k]
    ensures Dot(b, x) == -Dot(a, x)
    decreases |a|
  {
    if |a| > 0 {
      var n := |a| - 1;
      DotNegated(a[..n], b[..n], x[..n]);
      assert b[n] * x[n] == -(a[n] * x[n]);
    }
  }

  /** Negating every coefficient negates the coefficient vector. */
  lemma {:induction false} CoefVecNegated(vars: seq<string>, coefs: seq<Coefficient>, j: nat)
    requires j < |vars|
    ensures CoefVec(vars, NegatedCoefficients(coefs))[j] == -CoefVec(vars, coefs)[j]
  {
    PlacedAt(Zeros(|vars|), vars, coefs, false, j);
    PlacedAt(Zeros(|vars|), vars, NegatedCoefficients(coefs), false, j);
    LastWriterNegated(vars, coefs, j);
  }

  /** The rewrite keeps the meaning of every constraint: a point satisfies
      the normalized constraint exactly when it satisfies the original. */
  lemma {:induction false} NormalizeKeepsMeaning(c: Constraint, vars: seq<string>, x: seq<real>)
    requires |x| == |vars|
    ensures Holds(NormalizeConstraint(c), vars, x) <==> Holds(c, vars, x)
  {
    if c.op == Ge {
      var a := CoefVec(vars, c.coefficients);
      var b := CoefVec(vars, NegatedCoefficients(c.coefficients));
      forall k | 0 <= k < |vars|
        ensures b[k] == -a[k]
      {
        CoefVecNegated(vars, c.coefficients, k);
      }
      DotNegated(a, b, x);
    }
  }

  /** Hence the normalized problem has exactly the feasible points of the
      original. */
  lemma {:induction false} NormalizeKeepsFeasible(p: Problem, x: seq<real>)
    requires p.constraints.Some?
    ensures Feasible(NormalizeToLEAndMax(p), x) <==> Feasible(p, x)
  {
    var q := NormalizeToLEAndMax(p);
    if |x| == |p.variables| {
      forall i | 0 <= i < |p.Cons()|
        ensures Holds(q.Cons()[i], p.variables, x) <==> Holds(p.Cons()[i], p.variables, x)
      {
        NormalizeKeepsMeaning(p.Cons()[i], p.variables, x);
      }
    }
  }

  /** canUseStandardForm: every constraint is '<=' with a non-negative
      right-hand side. */
  predicate CanUseStandardForm(p: Problem)
    requires p.constraints.Some?
  {
    forall i :: 0 <= i < |p.Cons()| ==> p.Cons()[i].op == Le && p.Cons()[i].rightSide >= 0.0
  }

  /** An '=' constraint rules the standard form out, before and after
      normalization. */
  lemma {:induction false} EqualityExcludesStandardForm(p: Problem, i: nat)
    requires p.constraints.Some? && i < |p.Cons()| && p.Cons()[i].op == Eq
    ensures !CanUseStandardForm(p) && !CanUseStandardForm(NormalizeToLEAndMax(p))
  {
    NormalizeAt(p, i);
  }

  /** A '<=' row with b >= 0 or a '>=' row with b <= 0. */
  predicate StandardOnceNormalized(c: Constraint) {
    match c.op
    case Le => c.rightSide >= 0.0
    case Ge => c.rightSide <= 0.0
    case Eq => false
  }

  /** After normalization the standard form is available exactly when every
      '<=' row has a non-negative and every '>=' row a non-positive
      right-hand side, with no '=' row. */
  lemma {:induction false} StandardFormAfterNormalizing(p: Problem)
    requires p.constraints.Some?
    ensures CanUseStandardForm(NormalizeToLEAndMax(p)) <==>
              forall i :: 0 <= i < |p.Cons()| ==> StandardOnceNormalized(p.Cons()[i])
  {
    forall i | 0 <= i < |p.Cons()|
      ensures NormalizeToLEAndMax(p).Cons()[i] == NormalizeConstraint(p.Cons()[i])
    {
      NormalizeAt(p, i);
    }
  }

  /** The standard form is what the one-phase start needs: its initial
      tableau is canonical for the slack basis with a feasible basic
      solution. */
  lemma {:induction false} StandardFormStartsFeasible(p: Problem)
    requires p.Complete() && CanUseStandardForm(p)
    ensures var s := InitialTableau(p);
            WellFormed(s) && IdentityBasis(s.matrix, s.basis) && RhsNonNegative(s.matrix)
  {
    InitialTableauCanonical(p);
  }
}
