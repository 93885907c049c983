/** Input validation of the engine (lib/validation/validators.ts): format
    checks, the obvious-infeasibility test and the contradiction test over
    constraints that share a coefficient vector. */
module Validation {
  import opened Types
  import opened TableauOps

  /** validateProblem's answer: true, 'SIN_SOLUCION' (Infeasible) or
      'ENTRADA_INVALIDA' (Malformed). */
  datatype Verdict = Valid | Infeasible | Malformed

  /** A negative right-hand side while no coefficient is negative. */
  predicate ObviouslyInfeasible(c: Constraint) {
    c.rightSide < 0.0 && forall k :: 0 <= k < |c.coefficients| ==> c.coefficients[k].value >= 0.0
  }

  /** hasObviousInfeasibility: the scan over the constraints. */
  function HasObviousInfeasibility(cs: seq<Constraint>): (b: bool)
    ensures b <==> exists i :: 0 <= i < |cs| && ObviouslyInfeasible(cs[i])
  {
    if |cs| == 0 then false
    else ObviouslyInfeasible(cs[0]) || HasObviousInfeasibility(cs[1..])
  }

  /** coefficientVector: the dense coefficient vector, filled by the
      coefficient loop over a zero vector. */
  method CoefficientVector(vars: seq<string>, coefs: seq<Coefficient>) returns (vec: seq<real>)
    ensures vec == CoefVec(vars, coefs)
  {
    vec := PlaceCoefficients(Zeros(|vars|), vars, coefs, false);
  }

  /** One entry per declared variable: the value of the last coefficient
      naming it, 0 when none does; coefficients of undeclared variables
      leave no trace. */
  lemma {:induction false} CoefficientVectorEntries(vars: seq<string>, coefs: seq<Coefficient>, j: nat)
    requires j < |vars|
    ensures |CoefVec(vars, coefs)| == |vars|
    ensures var w := LastWriter(vars, coefs, j);
            CoefVec(vars, coefs)[j] == if w == -1 then 0.0 else coefs[w].value
  {
    PlacedAt(Zeros(|vars|), vars, coefs, false, j);
  }

  /** A coefficient vector built from non-negative coefficients has no
      negative entry. */
  lemma {:induction false} CoefVecNonNegative(vars: seq<string>, coefs: seq<Coefficient>)
    requires forall k :: 0 <= k < |coefs| ==> coefs[k].value >= 0.0
    ensures forall j :: 0 <= j < |vars| ==> CoefVec(vars, coefs)[j] >= 0.0
  {
    forall j | 0 <= j < |vars|
      ensures CoefVec(vars, coefs)[j] >= 0.0
    {
      CoefficientVectorEntries(vars, coefs, j);
    }
  }

  lemma {:induction false} DotNonNegative(a: seq<real>, x: seq<real>)
    requires |a| == |x|
    requires forall k :: 0 <= k < |a| ==> a[k] >= 0.0 && x[k] >= 0.0
    ensures Dot(a, x) >= 0.0
    decreases |a|
  {
    if |a| > 0 {
      var n := |a| - 1;
      DotNonNegative(a[..n], x[..n]);
      assert a[n] * x[n] >= 0.0 by {
        MulNonNegative(a[n], x[n]);
      }
    }
  }

  lemma {:induction false} MulNonNegative(a: real, b: real)
    requires a >= 0.0 && b >= 0.0
    ensures a * b >= 0.0
  {
  }

  /** The test is sound for '<=' and '=' rows: with every variable
      non-negative, such a row cannot hold. */
  lemma {:induction false} ObviousInfeasibilitySound(c: Constraint, vars: seq<string>, x: seq<real>)
    requires ObviouslyInfeasible(c) && c.op != Ge
    requires |x| == |vars| && forall k :: 0 <= k < |x| ==> x[k] >= 0.0
    ensures !Holds(c, vars, x)
  {
    CoefVecNonNegative(vars, c.coefficients);
    DotNonNegative(CoefVec(vars, c.coefficients), x);
  }

  /** The test does not look at the operator: x1 >= -1 is flagged although
      the origin satisfies it. */
  lemma {:induction false} ObviousInfeasibilityIgnoresOperator()
    ensures var c := Constraint([Coefficient("x1", 1.0)], Ge, -1.0);
            ObviouslyInfeasible(c) && Holds(c, ["x1", "x2"], [0.0, 0.0])
  {
    var c := Constraint([Coefficient("x1", 1.0)], Ge, -1.0);
    CoefVecNonNegative(["x1", "x2"], c.coefficients);
    DotNonNegative(CoefVec(["x1", "x2"], c.coefficients), [0.0, 0.0]);
  }

  /** The right-hand sides of one bucket: '<=' in leq, '>=' in geq, '=' in eq. */
  datatype Group = Group(leq: seq<real>, geq: seq<real>, eq: seq<real>)

  const EmptyGroup := Group([], [], [])

  /** addConstraintToGroup: the right-hand side goes to the list of its operator. */
  function AddToGroup(g: Group, op: Operator, rhs: real): (h: Group)
    ensures h.leq == g.leq + (if op == Le then [rhs] else [])
    ensures h.geq == g.geq + (if op == Ge then [rhs] else [])
    ensures h.eq == g.eq + (if op == Eq then [rhs] else [])
  {
    match op
    case Le => g.(leq := g.leq + [rhs])
    case Ge => g.(geq := g.geq + [rhs])
    case Eq => g.(eq := g.eq + [rhs])
  }

  /** groupConstraintsByCoefficients as a value: the buckets after the first
      |cs| constraints, keyed by coefficient vector. */
  function GroupsOf(vars: seq<string>, cs: seq<Constraint>): map<seq<real>, Group>
    decreases |cs|
  {
    if |cs| == 0 then map[]
    else
      var groups := GroupsOf(vars, cs[..|cs| - 1]);
      var c := cs[|cs| - 1];
      var key := CoefVec(vars, c.coefficients);
      var group := if key in groups then groups[key] else EmptyGroup;
      groups[key := AddToGroup(group, c.op, c.rightSide)]
  }

  /** The right-hand sides, in order, of the constraints with coefficient
      vector key and operator op: the reference the buckets are checked
      against. */
  function Bucket(vars: seq<string>, cs: seq<Constraint>, key: seq<real>, op: Operator): seq<real>
    decreases |cs|
  {
    if |cs| == 0 then []
    else
      var c := cs[|cs| - 1];
      Bucket(vars, cs[..|cs| - 1], key, op)
        + (if CoefVec(vars, c.coefficients) == key && c.op == op then [c.rightSide] else [])
  }

  /** getOrCreateGroup: the bucket under key, created empty when missing. */
  method GetOrCreateGroup(groups: map<seq<real>, Group>, key: seq<real>) returns (groups': map<seq<real>, Group>, group: Group)
    ensures group == (if key in groups then groups[key] else EmptyGroup)
    ensures groups' == groups[key := group]
  {
    if key in groups {
      group := groups[key];
      groups' := groups;
    } else {
      group := EmptyGroup;
      groups' := groups[key := group];
    }
  }

  /** groupConstraintsByCoefficients: one pass over the constraints, adding
      each right-hand side to the bucket of its coefficient vector. */
  method GroupConstraintsByCoefficients(vars: seq<string>, cs: seq<Constraint>) returns (groups: map<seq<real>, Group>)
    ensures groups == GroupsOf(vars, cs)
  {
    groups := map[];
    var i := 0;
    while i < |cs|
      invariant 0 <= i <= |cs| && groups == GroupsOf(vars, cs[..i])
    {
      var constraint := cs[i];
      var key := CoefficientVector(vars, constraint.coefficients);
      var group;
      groups, group := GetOrCreateGroup(groups, key);
      groups := groups[key := AddToGroup(group, constraint.op, constraint.rightSide)];
      assert cs[..i + 1][..i] == cs[..i];
      i := i + 1;
    }
    assert cs[..i] == cs;
  }

  /** There is a bucket for exactly the coefficient vectors that occur. */
  lemma {:induction false} GroupsOfKeys(vars: seq<string>, cs: seq<Constraint>)
    ensures forall key :: key in GroupsOf(vars, cs) <==>
              exists i :: 0 <= i < |cs| && CoefVec(vars, cs[i].coefficients) == key
    decreases |cs|
  {
    if |cs| > 0 {
      var pre := cs[..|cs| - 1];
      GroupsOfKeys(vars, pre);
      forall key
        ensures key in GroupsOf(vars, cs) <==> exists i :: 0 <= i < |cs| && CoefVec(vars, cs[i].coefficients) == key
      {
        if key in GroupsOf(vars, pre) {
          var i :| 0 <= i < |pre| && CoefVec(vars, pre[i].coefficients) == key;
          assert cs[i] == pre[i];
        }
        if exists i :: 0 <= i < |cs| && CoefVec(vars, cs[i].coefficients) == key {
          var i :| 0 <= i < |cs| && CoefVec(vars, cs[i].coefficients) == key;
          if i < |pre| {
            assert pre[i] == cs[i];
          }
        }
      }
    }
  }

  /** The bucket of a vector holds, per operator and in input order, the
      right-hand sides of the constraints with that vector. */
  lemma {:induction false} GroupsOfContents(vars: seq<string>, cs: seq<Constraint>)
    ensures forall key :: key in GroupsOf(vars, cs) ==>
              GroupsOf(vars, cs)[key] == Group(Bucket(vars, cs, key, Le), Bucket(vars, cs, key, Ge), Bucket(vars, cs, key, Eq))
    decreases |cs|
  {
    if |cs| > 0 {
      var pre := cs[..|cs| - 1];
      GroupsOfContents(vars, pre);
      GroupsOfKeys(vars, pre);
      forall key | key in GroupsOf(vars, cs) && key !in GroupsOf(vars, pre)
        ensures Bucket(vars, pre, key, Le) == [] && Bucket(vars, pre, key, Ge) == [] && Bucket(vars, pre, key, Eq) == []
      {
        BucketEmpty(vars, pre, key, Le);
        BucketEmpty(vars, pre, key, Ge);
        BucketEmpty(vars, pre, key, Eq);
      }
    }
  }

  /** No constraint has the vector: every bucket for it is empty. */
  lemma {:induction false} BucketEmpty(vars: seq<string>, cs: seq<Constraint>, key: seq<real>, op: Operator)
    requires forall i :: 0 <= i < |cs| ==> CoefVec(vars, cs[i].coefficients) != key
    ensures Bucket(vars, cs, key, op) == []
    decreases |cs|
  {
    if |cs| > 0 {
      BucketEmpty(vars, cs[..|cs| - 1], key, op);
    }
  }

  /** A value is in a bucket exactly when some constraint with that vector
      and operator has it as right-hand side. */
  lemma {:induction false} BucketMembers(vars: seq<string>, cs: seq<Constraint>, key: seq<real>, op: Operator)
    ensures forall r :: r in Bucket(vars, cs, key, op) <==>
              exists i :: 0 <= i < |cs| && CoefVec(vars, cs[i].coefficients) == key && cs[i].op == op && cs[i].rightSide == r
    decreases |cs|
  {
    if |cs| > 0 {
      var pre := cs[..|cs| - 1];
      BucketMembers(vars, pre, key, op);
      forall r
        ensures r in Bucket(vars, cs, key, op) <==>
                exists i :: 0 <= i < |cs| && CoefVec(vars, cs[i].coefficients) == key && cs[i].op == op && cs[i].rightSide == r
      {
        if r in Bucket(vars, pre, key, op) {
          var i :| 0 <= i < |pre| && CoefVec(vars, pre[i].coefficients) == key && pre[i].op == op && pre[i].rightSide == r;
          assert cs[i] == pre[i];
        }
        if exists i :: 0 <= i < |cs| && CoefVec(vars, cs[i].coefficients) == key && cs[i].op == op && cs[i].rightSide == r {
          var i :| 0 <= i < |cs| && CoefVec(vars, cs[i].coefficients) == key && cs[i].op == op && cs[i].rightSide == r;
          if i < |pre| {
            assert pre[i] == cs[i];
          }
        }
      }
    }
  }

  /** Math.min over a non-empty list. */
  function MinOf(s: seq<real>): (r: real)
    requires |s| > 0
    ensures r in s && forall k :: 0 <= k < |s| ==> r <= s[k]
  {
    if |s| == 1 then s[0]
    else
      var t := MinOf(s[1..]);
      if s[0] < t then s[0] else t
  }

  /** Math.max over a non-empty list. */
  function MaxOf(s: seq<real>): (r: real)
    requires |s| > 0
    ensures r in s && forall k :: 0 <= k < |s| ==> r >= s[k]
  {
    if |s| == 1 then s[0]
    else
      var t := MaxOf(s[1..]);
      if s[0] > t then s[0] else t
  }

  /** An '=' right-hand side above minLEQ or below maxGEQ; an empty list
      stands for +Infinity or -Infinity and never compares true. */
  predicate Outside(e: real, g: Group) {
    (|g.leq| > 0 && e > MinOf(g.leq)) || (|g.geq| > 0 && e < MaxOf(g.geq))
  }

  /** The scan over the '=' right-hand sides. */
  function AnyOutside(eq: seq<real>, g: Group): (b: bool)
    ensures b <==> exists k :: 0 <= k < |eq| && Outside(eq[k], g)
  {
    if |eq| == 0 then false else Outside(eq[0], g) || AnyOutside(eq[1..], g)
  }

  /** hasContradictionInGroup. */
  predicate ContradictionInGroup(g: Group) {
    AnyOutside(g.eq, g) || (|g.leq| > 0 && |g.geq| > 0 && MaxOf(g.geq) > MinOf(g.leq))
  }

  /** A bucket contradicts exactly when two of its right-hand sides clash:
      a '>=' above a '<=', an '=' above a '<=', or an '=' below a '>='. Two
      different '=' values do not clash. */
  lemma {:induction false} ContradictionInGroupPairwise(g: Group)
    ensures ContradictionInGroup(g) <==> ClashInGroup(g)
  {
    if ContradictionInGroup(g) {
      ClashOfContradiction(g);
    }
    if ClashInGroup(g) {
      ContradictionOfClash(g);
    }
  }

  /** Two right-hand sides of a bucket that clash. */
  predicate ClashInGroup(g: Group) {
    || (exists a, b :: a in g.geq && b in g.leq && a > b)
    || (exists e, b :: e in g.eq && b in g.leq && e > b)
    || (exists e, a :: e in g.eq && a in g.geq && e < a)
  }

  lemma {:induction false} ClashOfContradiction(g: Group)
    requires ContradictionInGroup(g)
    ensures ClashInGroup(g)
  {
    if AnyOutside(g.eq, g) {
      var k :| 0 <= k < |g.eq| && Outside(g.eq[k], g);
      if |g.leq| > 0 && g.eq[k] > MinOf(g.leq) {
        assert g.eq[k] in g.eq && MinOf(g.leq) in g.leq;
      } else {
        assert g.eq[k] in g.eq && MaxOf(g.geq) in g.geq;
      }
    } else {
      assert MaxOf(g.geq) in g.geq && MinOf(g.leq) in g.leq;
    }
  }

  lemma {:induction false} ContradictionOfClash(g: Group)
    requires ClashInGroup(g)
    ensures ContradictionInGroup(g)
  {
    if exists a, b :: a in g.geq && b in g.leq && a > b {
      var a, b :| a in g.geq && b in g.leq && a > b;
      var i, j :| 0 <= i < |g.geq| && g.geq[i] == a && 0 <= j < |g.leq| && g.leq[j] == b;
      assert MaxOf(g.geq) >= a && MinOf(g.leq) <= b;
    } else if exists e, b :: e in g.eq && b in g.leq && e > b {
      var e, b :| e in g.eq && b in g.leq && e > b;
      var k, j :| 0 <= k < |g.eq| && g.eq[k] == e && 0 <= j < |g.leq| && g.leq[j] == b;
      assert MinOf(g.leq) <= b;
      assert Outside(g.eq[k], g);
    } else {
      var e, a :| e in g.eq && a in g.geq && e < a;
      var k, i :| 0 <= k < |g.eq| && g.eq[k] == e && 0 <= i < |g.geq| && g.geq[i] == a;
      assert MaxOf(g.geq) >= a;
      assert Outside(g.eq[k], g);
    }
  }

  /** hasDirectContradictions: some bucket contradicts. */
  predicate HasDirectContradictions(p: Problem)
    requires p.constraints.Some?
  {
    var groups := GroupsOf(p.variables, p.Cons());
    exists key :: key in groups && ContradictionInGroup(groups[key])
  }

  /** Two constraints over the same coefficient vector whose right-hand sides
      clash. */
  predicate Clash(c: Constraint, d: Constraint) {
    || (c.op == Ge && d.op == Le && c.rightSide > d.rightSide)
    || (c.op == Eq && d.op == Le && c.rightSide > d.rightSide)
    || (c.op == Eq && d.op == Ge && c.rightSide < d.rightSide)
  }

  predicate SameVector(vars: seq<string>, c: Constraint, d: Constraint) {
    CoefVec(vars, c.coefficients) == CoefVec(vars, d.coefficients)
  }

  /** A bucket value comes from a constraint with that vector and operator. */
  lemma {:induction false} BucketSource(vars: seq<string>, cs: seq<Constraint>, key: seq<real>, op: Operator, r: real) returns (i: nat)
    requires r in Bucket(vars, cs, key, op)
    ensures i < |cs| && CoefVec(vars, cs[i].coefficients) == key && cs[i].op == op && cs[i].rightSide == r
  {
    BucketMembers(vars, cs, key, op);
    i :| 0 <= i < |cs| && CoefVec(vars, cs[i].coefficients) == key && cs[i].op == op && cs[i].rightSide == r;
  }

  /** A contradicting bucket yields two clashing constraints. */
  lemma {:induction false} GroupClashWitness(p: Problem, key: seq<real>)
    requires p.constraints.Some?
    requires key in GroupsOf(p.variables, p.Cons()) && ContradictionInGroup(GroupsOf(p.variables, p.Cons())[key])
    ensures exists i, j :: 0 <= i < |p.Cons()| && 0 <= j < |p.Cons()|
                           && SameVector(p.variables, p.Cons()[i], p.Cons()[j]) && Clash(p.Cons()[i], p.Cons()[j])
  {
    var vars, cs := p.variables, p.Cons();
    GroupsOfContents(vars, cs);
    var g := GroupsOf(vars, cs)[key];
    assert g == Group(Bucket(vars, cs, key, Le), Bucket(vars, cs, key, Ge), Bucket(vars, cs, key, Eq));
    ContradictionInGroupPairwise(g);
    var i, j;
    if exists a, b :: a in g.geq && b in g.leq && a > b {
      var a, b :| a in g.geq && b in g.leq && a > b;
      i := BucketSource(vars, cs, key, Ge, a);
      j := BucketSource(vars, cs, key, Le, b);
    } else if exists e, b :: e in g.eq && b in g.leq && e > b {
      var e, b :| e in g.eq && b in g.leq && e > b;
      i := BucketSource(vars, cs, key, Eq, e);
      j := BucketSource(vars, cs, key, Le, b);
    } else {
      var e, a :| e in g.eq && a in g.geq && e < a;
      i := BucketSource(vars, cs, key, Eq, e);
      j := BucketSource(vars, cs, key, Ge, a);
    }
    assert SameVector(vars, cs[i], cs[j]) && Clash(cs[i], cs[j]);
  }

  /** Two clashing constraints make the bucket of their vector contradict. */
  lemma {:induction false} ClashGroup(p: Problem, i: nat, j: nat)
    requires p.constraints.Some? && i < |p.Cons()| && j < |p.Cons()|
    requires SameVector(p.variables, p.Cons()[i], p.Cons()[j]) && Clash(p.Cons()[i], p.Cons()[j])
    ensures var key := CoefVec(p.variables, p.Cons()[i].coefficients);
            key in GroupsOf(p.variables, p.Cons()) && ContradictionInGroup(GroupsOf(p.variables, p.Cons())[key])
  {
    var vars, cs := p.variables, p.Cons();
    var key := CoefVec(vars, cs[i].coefficients);
    GroupsOfKeys(vars, cs);
    GroupsOfContents(vars, cs);
    assert key in GroupsOf(vars, cs);
    var g := GroupsOf(vars, cs)[key];
    assert g == Group(Bucket(vars, cs, key, Le), Bucket(vars, cs, key, Ge), Bucket(vars, cs, key, Eq));
    BucketMembers(vars, cs, key, cs[i].op);
    BucketMembers(vars, cs, key, cs[j].op);
    assert cs[i].rightSide in Bucket(vars, cs, key, cs[i].op);
    assert cs[j].rightSide in Bucket(vars, cs, key, cs[j].op);
    ContradictionInGroupPairwise(g);
  }

  /** hasDirectContradictions holds exactly when two constraints with the same
      coefficient vector clash. */
  lemma {:induction false} DirectContradictionsPairwise(p: Problem)
    requires p.constraints.Some?
    ensures HasDirectContradictions(p) <==>
              exists i, j :: 0 <= i < |p.Cons()| && 0 <= j < |p.Cons()|
                             && SameVector(p.variables, p.Cons()[i], p.Cons()[j]) && Clash(p.Cons()[i], p.Cons()[j])
  {
    var groups := GroupsOf(p.variables, p.Cons());
    if HasDirectContradictions(p) {
      var key :| key in groups && ContradictionInGroup(groups[key]);
      GroupClashWitness(p, key);
    }
    if exists i, j :: 0 <= i < |p.Cons()| && 0 <= j < |p.Cons()|
                      && SameVector(p.variables, p.Cons()[i], p.Cons()[j]) && Clash(p.Cons()[i], p.Cons()[j]) {
      var i, j :| 0 <= i < |p.Cons()| && 0 <= j < |p.Cons()|
                  && SameVector(p.variables, p.Cons()[i], p.Cons()[j]) && Clash(p.Cons()[i], p.Cons()[j]);
      ClashGroup(p, i, j);
    }
  }

  /** A clash is a real contradiction: no point satisfies both constraints. */
  lemma {:induction false} ClashSound(vars: seq<string>, c: Constraint, d: Constraint, x: seq<real>)
    requires SameVector(vars, c, d) && Clash(c, d) && |x| == |vars|
    ensures !(Holds(c, vars, x) && Holds(d, vars, x))
  {
  }

  /** validateProblem: format checks first, then the two infeasibility tests. */
  function ValidateProblem(p: Problem): (v: Verdict)
    ensures v == Malformed <==> !p.Complete() || |p.Cons()| == 0 || |p.variables| != 2
    ensures v == Infeasible ==> HasObviousInfeasibility(p.Cons()) || HasDirectContradictions(p)
    ensures v == Valid <==> && p.Complete() && |p.Cons()| > 0 && |p.variables| == 2
                            && !HasObviousInfeasibility(p.Cons()) && !HasDirectContradictions(p)
  {
    if p.objective.None? || p.constraints.None? || |p.Cons()| == 0 then Malformed
    else if |p.variables| != 2 then Malformed
    else if HasObviousInfeasibility(p.Cons()) then Infeasible
    else if HasDirectContradictions(p) then Infeasible
    else Valid
  }

  /** A 'SIN_SOLUCION' verdict names an obviously infeasible constraint or two
      clashing constraints over the same coefficient vector. */
  lemma {:induction false} SinSolucionWitness(p: Problem)
    requires ValidateProblem(p) == Infeasible
    ensures || (exists i :: 0 <= i < |p.Cons()| && ObviouslyInfeasible(p.Cons()[i]))
            || (exists i, j :: 0 <= i < |p.Cons()| && 0 <= j < |p.Cons()|
                               && SameVector(p.variables, p.Cons()[i], p.Cons()[j]) && Clash(p.Cons()[i], p.Cons()[j]))
  {
    DirectContradictionsPairwise(p);
  }
}

/** lib/core/problem-validator.ts: the validation verdict as an error value. */
module ProblemValidator {
  import opened Types
  import opened Validation

  const InvalidMessage := "Problema no válido para el método simplex"
  const InfeasibleMessage := "El problema no tiene solución posible (restricciones incompatibles)"

  /** ProblemValidatorService.validate: no error for a valid problem,
      ENTRADA_INVALIDA for a malformed one, SIN_SOLUCION otherwise; never
      NO_ACOTADA. */
  function Validate(p: Problem): (e: Option<SimplexError>)
    ensures e.None? <==> ValidateProblem(p) == Valid
    ensures e.Some? && e.value.kind == EntradaInvalida <==> !p.Complete() || |p.Cons()| == 0 || |p.variables| != 2
    ensures e.Some? && e.value.kind == SinSolucion <==> ValidateProblem(p) == Infeasible
    ensures e.Some? ==> e.value.kind != NoAcotada
  {
    match ValidateProblem(p)
    case Malformed => Some(SimplexError(EntradaInvalida, InvalidMessage))
    case Infeasible => Some(SimplexError(SinSolucion, InfeasibleMessage))
    case Valid => None
  }
}
