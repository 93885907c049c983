/** The exact two-variable solver (lib/solvers/vertex-enumeration.ts): every
    pairwise intersection of the constraint boundaries and the axes is a
    candidate vertex, the origin too; among the candidates that pass the
    feasibility test, the first one that no later candidate beats by more
    than EPS is the answer. The tolerance the test allows an '=' constraint
    is a parameter, because services/simplex/enum2d.ts runs the same
    algorithm with a looser one. */
module VertexEnumeration {
  import opened Types
  import opened Rounding

  const InfeasibleMessage := "El problema no tiene solución posible (2D)"

  /** The line a x + b y = c. */
  datatype Line = Line(a: real, b: real, c: real)

  datatype Point = Point(x: real, y: real)

  /** getCoeff: the value of the first coefficient naming the variable, 0
      when none does. */
  function GetCoeff(coefs: seq<Coefficient>, name: string): (r: real)
    ensures (forall i :: 0 <= i < |coefs| ==> coefs[i].variable != name) ==> r == 0.0
    ensures forall i :: (0 <= i < |coefs| && coefs[i].variable == name
                         && forall k :: 0 <= k < i ==> coefs[k].variable != name) ==> r == coefs[i].value
  {
    if |coefs| == 0 then 0.0
    else if coefs[0].variable == name then coefs[0].value
    else
      assert forall i :: 1 <= i < |coefs| ==> coefs[1..][i - 1] == coefs[i];
      GetCoeff(coefs[1..], name)
  }

  predicate UniqueNames(coefs: seq<Coefficient>) {
    forall i, j :: 0 <= i < j < |coefs| ==> coefs[i].variable != coefs[j].variable
  }

  predicate Distinct<T(==)>(s: seq<T>) {
    forall i, j :: 0 <= i < j < |s| ==> s[i] != s[j]
  }

  /** With no variable named twice, getCoeff reads the same value the simplex
      tableau places in the variable's column (where a repeated name would
      make getCoeff take the first entry and the tableau the last). */
  lemma {:induction false} GetCoeffIsCoefVec(vars: seq<string>, coefs: seq<Coefficient>, j: nat)
    requires UniqueNames(coefs) && Distinct(vars) && j < |vars|
    ensures GetCoeff(coefs, vars[j]) == CoefVec(vars, coefs)[j]
  {
    PlacedAt(Zeros(|vars|), vars, coefs, false, j);
    var w := LastWriter(vars, coefs, j);
    assert IndexOf(vars, vars[j]) == j;
    if w != -1 {
      assert coefs[w].variable == vars[j];
    }
  }

  /** The left-hand side of a constraint at a point, through getCoeff. */
  function Lhs(c: Constraint, v1: string, v2: string, pt: Point): real {
    GetCoeff(c.coefficients, v1) * pt.x + GetCoeff(c.coefficients, v2) * pt.y
  }

  /** One constraint of isFeasible2D: '<=' may exceed its right-hand side by
      eps, '>=' may fall short of it by eps, '=' may miss it by eqTol. */
  predicate Within(c: Constraint, v1: string, v2: string, pt: Point, eps: real, eqTol: real) {
    var diff := Lhs(c, v1, v2, pt) - c.rightSide;
    match c.op
    case Le => diff <= eps
    case Ge => -diff <= eps
    case Eq => Abs(diff) <= eqTol
  }

  /** isFeasible2D: both coordinates at least -eps and every constraint
      within its tolerance. */
  predicate IsFeasible2D(cons: seq<Constraint>, v1: string, v2: string, pt: Point, eps: real, eqTol: real) {
    && pt.x >= -eps && pt.y >= -eps
    && forall i :: 0 <= i < |cons| ==> Within(cons[i], v1, v2, pt, eps, eqTol)
  }

  /** Loosening either tolerance keeps every feasible point feasible. */
  lemma {:induction false} FeasibleLoosened(cons: seq<Constraint>, v1: string, v2: string, pt: Point,
                         eps: real, eqTol: real, eps': real, eqTol': real)
    requires eps <= eps' && eqTol <= eqTol'
    requires IsFeasible2D(cons, v1, v2, pt, eps, eqTol)
    ensures IsFeasible2D(cons, v1, v2, pt, eps', eqTol')
  {
    forall i | 0 <= i < |cons|
      ensures Within(cons[i], v1, v2, pt, eps', eqTol')
    {
      assert Within(cons[i], v1, v2, pt, eps, eqTol);
    }
  }

  lemma {:induction false} Dot2(a: seq<real>, x: seq<real>)
    requires |a| == 2 && |x| == 2
    ensures Dot(a, x) == a[0] * x[0] + a[1] * x[1]
  {
    assert a[..1][..0] == [] && x[..1][..0] == [];
    assert Dot(a[..1], x[..1]) == a[0] * x[0];
  }

  /** With tolerances 0, isFeasible2D is exactly the problem's feasibility of
      the point (x, y), when the two variables differ and no constraint names
      a variable twice. */
  lemma {:induction false} FeasibleExactly(p: Problem, pt: Point)
    requires p.constraints.Some? && |p.variables| == 2 && p.variables[0] != p.variables[1]
    requires forall i :: 0 <= i < |p.Cons()| ==> UniqueNames(p.Cons()[i].coefficients)
    ensures IsFeasible2D(p.Cons(), p.variables[0], p.variables[1], pt, 0.0, 0.0)
            <==> Feasible(p, [pt.x, pt.y])
  {
    var vars, x := p.variables, [pt.x, pt.y];
    forall i | 0 <= i < |p.Cons()|
      ensures Within(p.Cons()[i], vars[0], vars[1], pt, 0.0, 0.0) <==> Holds(p.Cons()[i], vars, x)
    {
      var coefs := p.Cons()[i].coefficients;
      GetCoeffIsCoefVec(vars, coefs, 0);
      GetCoeffIsCoefVec(vars, coefs, 1);
      Dot2(CoefVec(vars, coefs), x);
      assert Lhs(p.Cons()[i], vars[0], vars[1], pt) == Dot(CoefVec(vars, coefs), x);
    }
    assert |x| == 2 && x[0] == pt.x && x[1] == pt.y;
    if pt.x >= 0.0 && pt.y >= 0.0 {
      assert forall k :: 0 <= k < |x| ==> x[k] >= 0.0;
    }
  }

  function Det(l1: Line, l2: Line): real {
    l1.a * l2.b - l2.a * l1.b
  }

  predicate OnLine(l: Line, pt: Point) {
    l.a * pt.x + l.b * pt.y == l.c
  }

  lemma {:induction false} Cancel(u: real, v: real, d: real)
    requires d != 0.0 && u * d == v * d
    ensures u == v
  {
    assert (u - v) * d == 0.0;
  }

  /** Cramer's rule: with a non-zero determinant the point lies on both lines. */
  lemma {:induction false} Cramer(l1: Line, l2: Line)
    requires Det(l1, l2) != 0.0
    ensures var d := Det(l1, l2);
            var pt := Point((l1.c * l2.b - l2.c * l1.b) / d, (l1.a * l2.c - l2.a * l1.c) / d);
            OnLine(l1, pt) && OnLine(l2, pt)
  {
    var d := Det(l1, l2);
    var x := (l1.c * l2.b - l2.c * l1.b) / d;
    var y := (l1.a * l2.c - l2.a * l1.c) / d;
    assert x * d == l1.c * l2.b - l2.c * l1.b;
    assert y * d == l1.a * l2.c - l2.a * l1.c;
    assert (l1.a * x + l1.b * y) * d == l1.a * (x * d) + l1.b * (y * d);
    assert (l1.a * x + l1.b * y) * d == l1.c * d;
    Cancel(l1.a * x + l1.b * y, l1.c, d);
    assert (l2.a * x + l2.b * y) * d == l2.a * (x * d) + l2.b * (y * d);
    assert (l2.a * x + l2.b * y) * d == l2.c * d;
    Cancel(l2.a * x + l2.b * y, l2.c, d);
  }

  /** intersectLines: no point when the determinant is below eps in
      magnitude; otherwise the point on both lines. */
  function IntersectLines(l1: Line, l2: Line, eps: real): (r: Option<Point>)
    requires eps > 0.0
    ensures r.None? <==> Abs(Det(l1, l2)) < eps
    ensures r.Some? ==> OnLine(l1, r.value) && OnLine(l2, r.value)
  {
    var det := Det(l1, l2);
    if Abs(det) < eps then None
    else
      Cramer(l1, l2);
      Some(Point((l1.c * l2.b - l2.c * l1.b) / det, (l1.a * l2.c - l2.a * l1.c) / det))
  }

  /** The line x = 0. */
  const XZero := Line(1.0, 0.0, 0.0)

  /** The line y = 0. */
  const YZero := Line(0.0, 1.0, 0.0)

  /** The boundary line of a constraint over the two variables. */
  function Boundary(c: Constraint, v1: string, v2: string): Line {
    Line(GetCoeff(c.coefficients, v1), GetCoeff(c.coefficients, v2), c.rightSide)
  }

  /** The lines one constraint contributes: its boundary, then x = 0 when its
      first coefficient exceeds eps in magnitude, then y = 0 when its second
      does. */
  function LinesOf(c: Constraint, v1: string, v2: string, eps: real): seq<Line> {
    var l := Boundary(c, v1, v2);
    [l] + (if Abs(l.a) > eps then [XZero] else []) + (if Abs(l.b) > eps then [YZero] else [])
  }

  function ConstraintLines(cons: seq<Constraint>, v1: string, v2: string, eps: real): seq<Line>
    decreases |cons|
  {
    if |cons| == 0 then []
    else ConstraintLines(cons[..|cons| - 1], v1, v2, eps) + LinesOf(cons[|cons| - 1], v1, v2, eps)
  }

  /** buildCandidateLines as a value: the constraints' lines in order, then
      both axes. */
  function CandidateLines(cons: seq<Constraint>, v1: string, v2: string, eps: real): seq<Line> {
    ConstraintLines(cons, v1, v2, eps) + [XZero, YZero]
  }

  /** buildCandidateLines, pushing line by line. */
  method BuildCandidateLines(cons: seq<Constraint>, v1: string, v2: string, eps: real) returns (lines: seq<Line>)
    ensures lines == CandidateLines(cons, v1, v2, eps)
  {
    lines := [];
    var k := 0;
    while k < |cons|
      invariant 0 <= k <= |cons|
      invariant lines == ConstraintLines(cons[..k], v1, v2, eps)
    {
      var a := GetCoeff(cons[k].coefficients, v1);
      var b := GetCoeff(cons[k].coefficients, v2);
      var c := cons[k].rightSide;
      lines := lines + [Line(a, b, c)];
      if Abs(a) > eps {
        lines := lines + [XZero];
      }
      if Abs(b) > eps {
        lines := lines + [YZero];
      }
      assert cons[..k + 1][..k] == cons[..k];
      k := k + 1;
    }
    assert cons[..k] == cons;
    lines := lines + [XZero, YZero];
  }

  /** Every constraint's boundary is among its lines. */
  lemma {:induction false} ConstraintLinesHave(cons: seq<Constraint>, v1: string, v2: string, eps: real)
    ensures forall i :: 0 <= i < |cons| ==> Boundary(cons[i], v1, v2) in ConstraintLines(cons, v1, v2, eps)
    decreases |cons|
  {
    if |cons| > 0 {
      var init := cons[..|cons| - 1];
      ConstraintLinesHave(init, v1, v2, eps);
      var prev, last := ConstraintLines(init, v1, v2, eps), LinesOf(cons[|cons| - 1], v1, v2, eps);
      assert ConstraintLines(cons, v1, v2, eps) == prev + last;
      forall i | 0 <= i < |cons|
        ensures Boundary(cons[i], v1, v2) in prev + last
      {
        if i < |init| {
          assert cons[i] == init[i];
          assert Boundary(init[i], v1, v2) in prev;
        } else {
          assert last[0] == Boundary(cons[i], v1, v2);
        }
      }
    }
  }

  /** Every line of the constraints is a boundary or an axis, and each
      constraint gives one to three lines. */
  lemma {:induction false} ConstraintLinesOnly(cons: seq<Constraint>, v1: string, v2: string, eps: real)
    ensures forall l :: l in ConstraintLines(cons, v1, v2, eps) ==>
              l == XZero || l == YZero || exists i :: 0 <= i < |cons| && l == Boundary(cons[i], v1, v2)
    ensures |cons| <= |ConstraintLines(cons, v1, v2, eps)| <= 3 * |cons|
    decreases |cons|
  {
    if |cons| > 0 {
      var init := cons[..|cons| - 1];
      ConstraintLinesOnly(init, v1, v2, eps);
      var prev := ConstraintLines(init, v1, v2, eps);
      forall l | l in ConstraintLines(cons, v1, v2, eps)
        ensures l == XZero || l == YZero || exists i :: 0 <= i < |cons| && l == Boundary(cons[i], v1, v2)
      {
        if l in prev && l != XZero && l != YZero {
          var i :| 0 <= i < |init| && l == Boundary(init[i], v1, v2);
          assert cons[i] == init[i];
        }
      }
    }
  }

  /** The candidate lines are the constraints' boundaries and the two axes:
      every boundary is there, both axes are there, and nothing else is. */
  lemma CandidateLinesCover(cons: seq<Constraint>, v1: string, v2: string, eps: real)
    ensures var lines := CandidateLines(cons, v1, v2, eps);
            && XZero in lines && YZero in lines
            && (forall i :: 0 <= i < |cons| ==> Boundary(cons[i], v1, v2) in lines)
            && (forall l :: l in lines ==> l == XZero || l == YZero || exists i :: 0 <= i < |cons| && l == Boundary(cons[i], v1, v2))
            && |cons| + 2 <= |lines| <= 3 * |cons| + 2
  {
    ConstraintLinesHave(cons, v1, v2, eps);
    ConstraintLinesOnly(cons, v1, v2, eps);
  }

  /** A coordinate within eps of 0 becomes 0. */
  function Snap(v: real, eps: real): real {
    if Abs(v) < eps then 0.0 else v
  }

  function SnapPoint(pt: Point, eps: real): Point {
    Point(Snap(pt.x, eps), Snap(pt.y, eps))
  }

  /** Set.add on a set that iterates in insertion order. */
  function AddPoint(cands: seq<Point>, pt: Point): seq<Point> {
    if pt in cands then cands else cands + [pt]
  }

  /** addPt for an intersection, when there is one. */
  function AddHit(cands: seq<Point>, hit: Option<Point>, eps: real): seq<Point> {
    if hit.None? then cands else AddPoint(cands, SnapPoint(hit.value, eps))
  }

  /** The candidate set after the pair loop has gone on from the pair (i, j)
      with the set acc: pairs in the order i < j, j increasing fastest. */
  function Sweep(lines: seq<Line>, eps: real, i: nat, j: nat, acc: seq<Point>): seq<Point>
    requires eps > 0.0
    decreases |lines| - i, |lines| - j
  {
    if i >= |lines| then acc
    else if j >= |lines| then Sweep(lines, eps, i + 1, i + 2, acc)
    else Sweep(lines, eps, i, j + 1, AddHit(acc, IntersectLines(lines[i], lines[j], eps), eps))
  }

  /** The candidate vertices: every snapped pairwise intersection, in the
      order the loops meet them, each once, then the origin if not already
      there. */
  function CandidatesOf(lines: seq<Line>, eps: real): seq<Point>
    requires eps > 0.0
  {
    AddPoint(Sweep(lines, eps, 0, 1, []), Point(0.0, 0.0))
  }

  /** The pair loop of solveByVertexEnumeration and the origin after it. */
  method CollectCandidates(lines: seq<Line>, eps: real) returns (cands: seq<Point>)
    requires eps > 0.0
    ensures cands == CandidatesOf(lines, eps)
  {
    cands := [];
    var i := 0;
    while i < |lines|
      invariant 0 <= i <= |lines|
      invariant Sweep(lines, eps, i, i + 1, cands) == Sweep(lines, eps, 0, 1, [])
    {
      var j := i + 1;
      while j < |lines|
        invariant i + 1 <= j <= |lines|
        invariant Sweep(lines, eps, i, j, cands) == Sweep(lines, eps, 0, 1, [])
      {
        var p := IntersectLines(lines[i], lines[j], eps);
        if p.Some? {
          cands := AddPoint(cands, SnapPoint(p.value, eps));
        }
        j := j + 1;
      }
      i := i + 1;
    }
    cands := AddPoint(cands, Point(0.0, 0.0));
  }

  /** pt is the snapped intersection of lines i < j. */
  predicate Hit(lines: seq<Line>, eps: real, i: nat, j: nat, pt: Point)
    requires eps > 0.0
  {
    i < j < |lines| && IntersectLines(lines[i], lines[j], eps).Some?
    && SnapPoint(IntersectLines(lines[i], lines[j], eps).value, eps) == pt
  }

  /** The loop keeps what the set already holds and adds no duplicates. */
  lemma {:induction false} SweepKeeps(lines: seq<Line>, eps: real, i: nat, j: nat, acc: seq<Point>)
    requires eps > 0.0
    ensures forall pt :: pt in acc ==> pt in Sweep(lines, eps, i, j, acc)
    ensures Distinct(acc) ==> Distinct(Sweep(lines, eps, i, j, acc))
    decreases |lines| - i, |lines| - j
  {
    if i < |lines| {
      if j >= |lines| {
        SweepKeeps(lines, eps, i + 1, i + 2, acc);
      } else {
        SweepKeeps(lines, eps, i, j + 1, AddHit(acc, IntersectLines(lines[i], lines[j], eps), eps));
      }
    }
  }

  /** Every pair the loop still has to visit contributes its snapped
      intersection. */
  lemma {:induction false} SweepComplete(lines: seq<Line>, eps: real, i: nat, j: nat, acc: seq<Point>, i': nat, j': nat, pt: Point)
    requires eps > 0.0 && Hit(lines, eps, i', j', pt) && (i' > i || (i' == i && j' >= j))
    ensures pt in Sweep(lines, eps, i, j, acc)
    decreases |lines| - i, |lines| - j
  {
    if j >= |lines| {
      SweepComplete(lines, eps, i + 1, i + 2, acc, i', j', pt);
    } else {
      var acc' := AddHit(acc, IntersectLines(lines[i], lines[j], eps), eps);
      if i' == i && j' == j {
        SweepKeeps(lines, eps, i, j + 1, acc');
      } else {
        SweepComplete(lines, eps, i, j + 1, acc', i', j', pt);
      }
    }
  }

  /** Everything the loop adds is the snapped intersection of a pair. */
  lemma {:induction false} SweepSound(lines: seq<Line>, eps: real, i: nat, j: nat, acc: seq<Point>, pt: Point)
    requires eps > 0.0 && i < j && pt in Sweep(lines, eps, i, j, acc)
    ensures pt in acc || exists i', j' :: Hit(lines, eps, i', j', pt)
    decreases |lines| - i, |lines| - j
  {
    if i < |lines| {
      if j >= |lines| {
        SweepSound(lines, eps, i + 1, i + 2, acc, pt);
      } else {
        var acc' := AddHit(acc, IntersectLines(lines[i], lines[j], eps), eps);
        SweepSound(lines, eps, i, j + 1, acc', pt);
        if pt !in acc && pt in acc' {
          assert Hit(lines, eps, i, j, pt);
        }
      }
    }
  }

  /** The candidates are the origin and the snapped intersections of all
      pairs of lines with a determinant of at least eps, each listed once. */
  lemma {:induction false} CandidatesFacts(lines: seq<Line>, eps: real)
    requires eps > 0.0
    ensures var cands := CandidatesOf(lines, eps);
            && Distinct(cands)
            && Point(0.0, 0.0) in cands
            && (forall i, j, pt :: Hit(lines, eps, i, j, pt) ==> pt in cands)
            && (forall pt :: pt in cands ==> pt == Point(0.0, 0.0) || exists i, j :: Hit(lines, eps, i, j, pt))
  {
    var swept := Sweep(lines, eps, 0, 1, []);
    SweepKeeps(lines, eps, 0, 1, []);
    forall i, j, pt | Hit(lines, eps, i, j, pt)
      ensures pt in swept
    {
      SweepComplete(lines, eps, 0, 1, [], i, j, pt);
    }
    forall pt | pt in swept
      ensures exists i, j :: Hit(lines, eps, i, j, pt)
    {
      SweepSound(lines, eps, 0, 1, [], pt);
    }
  }

  /** The problem as the enumeration sees it: its constraints and objective
      over the two declared variables, and the tolerance for '='. */
  datatype Plane = Plane(cons: seq<Constraint>, objective: Objective, v1: string, v2: string, eqTol: real)

  predicate FeasibleIn(pl: Plane, pt: Point) {
    IsFeasible2D(pl.cons, pl.v1, pl.v2, pt, EPS, pl.eqTol)
  }

  /** evaluateObjective: the objective at a point of the plane of v1, v2. */
  function EvaluateObjective(objective: Objective, v1: string, v2: string, pt: Point): real {
    GetCoeff(objective.coefficients, v1) * pt.x + GetCoeff(objective.coefficients, v2) * pt.y
  }

  function Value(pl: Plane, pt: Point): real {
    EvaluateObjective(pl.objective, pl.v1, pl.v2, pt)
  }

  /** The best candidate so far and its value. */
  datatype Best = Best(point: Point, value: real)

  /** isBetter against the running best: anything beats the initial
      -Infinity (max) or +Infinity (min); afterwards only an improvement by
      more than EPS counts. */
  predicate Improves(d: Direction, v: real, best: Option<Best>) {
    best.None? || (if d == Max then v > best.value.value + EPS else v < best.value.value - EPS)
  }

  /** The selection loop as a value: the running best after the given
      candidates. */
  function Choose(pl: Plane, cands: seq<Point>): Option<Best>
    decreases |cands|
  {
    if |cands| == 0 then None
    else
      var prev := Choose(pl, cands[..|cands| - 1]);
      var c := cands[|cands| - 1];
      if FeasibleIn(pl, c) && Improves(pl.objective.direction, Value(pl, c), prev) then Some(Best(c, Value(pl, c)))
      else prev
  }

  /** The selection loop, with the running best value beside the running best
      point; while no point is chosen the value stands for the infinite
      starting bound. */
  method SelectBest(pl: Plane, cands: seq<Point>) returns (choice: Option<Best>)
    ensures choice == Choose(pl, cands)
  {
    var best: Option<Point> := None;
    var bestValue := 0.0;
    var k := 0;
    while k < |cands|
      invariant 0 <= k <= |cands|
      invariant best.None? <==> Choose(pl, cands[..k]).None?
      invariant best.Some? ==> Choose(pl, cands[..k]) == Some(Best(best.value, bestValue))
    {
      assert cands[..k + 1][..k] == cands[..k];
      var pt := cands[k];
      if FeasibleIn(pl, pt) {
        var val := Value(pl, pt);
        var isBetter := best.None? || (if pl.objective.direction == Max then val > bestValue + EPS else val < bestValue - EPS);
        if isBetter {
          bestValue := val;
          best := Some(pt);
        }
      }
      k := k + 1;
    }
    assert cands[..k] == cands;
    choice := if best.None? then None else Some(Best(best.value, bestValue));
  }

  /** v is no more than EPS better than the best value. */
  predicate NearlyBeaten(d: Direction, v: real, b: Best) {
    if d == Max then v <= b.value + EPS else v >= b.value - EPS
  }

  /** v is strictly worse than the best value. */
  predicate StrictlyWorse(d: Direction, v: real, b: Best) {
    if d == Max then v < b.value else v > b.value
  }

  /** No feasible candidate beats the best value by more than EPS. */
  predicate NoneMuchBetter(pl: Plane, cands: seq<Point>, b: Best) {
    forall k :: 0 <= k < |cands| && FeasibleIn(pl, cands[k]) ==> NearlyBeaten(pl.objective.direction, Value(pl, cands[k]), b)
  }

  /** The selection: nothing is chosen exactly when no candidate is
      feasible; otherwise the chosen point is a feasible candidate with its
      objective value, and no feasible candidate beats it by more than
      EPS. */
  lemma {:induction false} ChooseFacts(pl: Plane, cands: seq<Point>)
    ensures Choose(pl, cands).None? <==> forall k :: 0 <= k < |cands| ==> !FeasibleIn(pl, cands[k])
    ensures Choose(pl, cands).Some? ==>
              var b := Choose(pl, cands).value;
              b.point in cands && FeasibleIn(pl, b.point) && b.value == Value(pl, b.point) && NoneMuchBetter(pl, cands, b)
    decreases |cands|
  {
    if |cands| > 0 {
      var n := |cands|;
      var init := cands[..n - 1];
      ChooseFacts(pl, init);
      assert forall k :: 0 <= k < n - 1 ==> cands[k] == init[k];
      var prev := Choose(pl, init);
      var c := cands[n - 1];
      if prev.Some? {
        assert prev.value.point in cands;
      }
    }
  }

  /** Ties go to the first: every feasible candidate listed before the
      chosen point is strictly worse than it. */
  lemma {:induction false} ChooseFirst(pl: Plane, cands: seq<Point>)
    requires Choose(pl, cands).Some?
    ensures var b := Choose(pl, cands).value;
            exists k :: 0 <= k < |cands| && cands[k] == b.point
                        && forall i :: 0 <= i < k && FeasibleIn(pl, cands[i]) ==>
                             StrictlyWorse(pl.objective.direction, Value(pl, cands[i]), b)
    decreases |cands|
  {
    var n := |cands|;
    var init := cands[..n - 1];
    assert forall k :: 0 <= k < n - 1 ==> cands[k] == init[k];
    var prev := Choose(pl, init);
    var c := cands[n - 1];
    var d := pl.objective.direction;
    if FeasibleIn(pl, c) && Improves(d, Value(pl, c), prev) {
      var b := Best(c, Value(pl, c));
      ChooseFacts(pl, init);
      forall i | 0 <= i < n - 1 && FeasibleIn(pl, cands[i])
        ensures StrictlyWorse(d, Value(pl, cands[i]), b)
      {
        assert FeasibleIn(pl, init[i]);
      }
      assert cands[n - 1] == b.point;
    } else {
      ChooseFirst(pl, init);
      var b := prev.value;
      var k :| 0 <= k < n - 1 && init[k] == b.point
               && forall i :: 0 <= i < k && FeasibleIn(pl, init[i]) ==> StrictlyWorse(d, Value(pl, init[i]), b);
      assert cands[k] == b.point;
    }
  }

  /** The enumeration's plane for a two-variable problem. */
  function PlaneOf(p: Problem, eqTol: real): Plane
    requires p.Complete() && |p.variables| == 2
  {
    Plane(p.Cons(), p.Obj(), p.variables[0], p.variables[1], eqTol)
  }

  /** The candidate vertices of a two-variable problem. */
  function VerticesOf(p: Problem): seq<Point>
    requires p.Complete() && |p.variables| == 2
  {
    CandidatesOf(CandidateLines(p.Cons(), p.variables[0], p.variables[1], EPS), EPS)
  }

  /** solveByVertexEnumeration as a value, for a given '=' tolerance:
      SIN_SOLUCION when no candidate is feasible, otherwise the chosen point
      and its value, both flags set and no iterations, rounded to
      DEFAULT_DECIMALS. */
  function EnumerationOf(p: Problem, eqTol: real): Outcome
    requires p.Complete() && |p.variables| == 2
  {
    var v1, v2 := p.variables[0], p.variables[1];
    var best := Choose(PlaneOf(p, eqTol), VerticesOf(p));
    if best.None? then Failed(SimplexError(SinSolucion, InfeasibleMessage))
    else
      var variables := map[v1 := best.value.point.x][v2 := best.value.point.y];
      RoundSolution(Solved(Solution(true, true, variables, best.value.value, [])), DEFAULT_DECIMALS)
  }

  /** The enumeration, step by step, for a given '=' tolerance. */
  method Enumerate(p: Problem, eqTol: real) returns (r: Outcome)
    requires p.Complete() && |p.variables| == 2
    ensures r == EnumerationOf(p, eqTol)
  {
    var v1, v2 := p.variables[0], p.variables[1];
    var lines := BuildCandidateLines(p.Cons(), v1, v2, EPS);
    var candidates := CollectCandidates(lines, EPS);
    var best := SelectBest(PlaneOf(p, eqTol), candidates);
    if best.None? {
      return Failed(SimplexError(SinSolucion, InfeasibleMessage));
    }
    var variables := map[v1 := best.value.point.x][v2 := best.value.point.y];
    r := RoundSolution(Solved(Solution(true, true, variables, best.value.value, [])), DEFAULT_DECIMALS);
  }

  /** solveByVertexEnumeration of lib/solvers, whose '=' tolerance is EPS. */
  method SolveByVertexEnumeration(p: Problem) returns (r: Outcome)
    requires p.Complete() && |p.variables| == 2
    ensures r == EnumerationOf(p, EPS)
  {
    r := Enumerate(p, EPS);
  }

  /** The enumeration fails, and only with SIN_SOLUCION, exactly when no
      candidate vertex is feasible; it never reports unboundedness. */
  lemma {:induction false} EnumerationFailure(p: Problem, eqTol: real)
    requires p.Complete() && |p.variables| == 2
    ensures EnumerationOf(p, eqTol).Failed? <==>
              forall k :: 0 <= k < |VerticesOf(p)| ==> !FeasibleIn(PlaneOf(p, eqTol), VerticesOf(p)[k])
    ensures EnumerationOf(p, eqTol).Failed? ==> EnumerationOf(p, eqTol).error.kind == SinSolucion
  {
    ChooseFacts(PlaneOf(p, eqTol), VerticesOf(p));
  }

  /** A success is optimal and bounded with no iterations, names exactly the
      two variables, and holds (rounded) a feasible candidate vertex whose
      value no feasible candidate beats by more than EPS. */
  lemma {:induction false} EnumerationSuccess(p: Problem, eqTol: real)
    requires p.Complete() && |p.variables| == 2 && EnumerationOf(p, eqTol).Solved?
    ensures var s := EnumerationOf(p, eqTol).solution;
            && s.optimal && s.bounded && s.iterations == []
            && s.variables.Keys == {p.variables[0], p.variables[1]}
    ensures var s := EnumerationOf(p, eqTol).solution;
            var pl := PlaneOf(p, eqTol);
            exists pt :: && pt in VerticesOf(p) && FeasibleIn(pl, pt)
                         && s.variables[p.variables[1]] == Round(pt.y, DEFAULT_DECIMALS)
                         && (p.variables[0] != p.variables[1] ==> s.variables[p.variables[0]] == Round(pt.x, DEFAULT_DECIMALS))
                         && s.objectiveValue == Round(Value(pl, pt), DEFAULT_DECIMALS)
                         && NoneMuchBetter(pl, VerticesOf(p), Best(pt, Value(pl, pt)))
  {
    var pl := PlaneOf(p, eqTol);
    var cands := VerticesOf(p);
    ChooseFacts(pl, cands);
    var b := Choose(pl, cands).value;
    var v1, v2 := p.variables[0], p.variables[1];
    var raw := Solved(Solution(true, true, map[v1 := b.point.x][v2 := b.point.y], b.value, []));
    assert EnumerationOf(p, eqTol) == RoundSolution(raw, DEFAULT_DECIMALS);
    var s := EnumerationOf(p, eqTol).solution;
    assert s.variables[v2] == Round(b.point.y, DEFAULT_DECIMALS);
    assert v1 != v2 ==> s.variables[v1] == Round(b.point.x, DEFAULT_DECIMALS);
    assert b == Best(b.point, Value(pl, b.point));
  }

  /** The origin is always among the candidate vertices. */
  lemma {:induction false} OriginIsCandidate(p: Problem)
    requires p.Complete() && |p.variables| == 2
    ensures Point(0.0, 0.0) in VerticesOf(p)
  {
    CandidatesFacts(CandidateLines(p.Cons(), p.variables[0], p.variables[1], EPS), EPS);
  }
}

/** services/simplex/enum2d.ts: the older closure-based copy of the
    enumeration, identical except that an '=' constraint may be missed by
    1e-7 instead of EPS. */
module Enum2D {
  import opened Types
  import opened VertexEnumeration

  const EqualityTolerance: real := 1e-7

  /** solveByVertexEnumeration of enum2d.ts. */
  method SolveByVertexEnumeration(p: Problem) returns (r: Outcome)
    requires p.Complete() && |p.variables| == 2
    ensures r == EnumerationOf(p, EqualityTolerance)
  {
    r := Enumerate(p, EqualityTolerance);
  }

  /** Every point the library version accepts, this one accepts too. */
  lemma {:induction false} LooserOnEqualities(p: Problem, pt: Point)
    requires p.Complete() && |p.variables| == 2 && FeasibleIn(PlaneOf(p, EPS), pt)
    ensures FeasibleIn(PlaneOf(p, EqualityTolerance), pt)
  {
    FeasibleLoosened(p.Cons(), p.variables[0], p.variables[1], pt, EPS, EPS, EPS, EqualityTolerance);
  }

  /** The two planes accept exactly the same of the candidates. */
  predicate SameVerdicts(pl1: Plane, pl2: Plane, cands: seq<Point>)
    decreases |cands|
  {
    |cands| == 0 ||
    (SameVerdicts(pl1, pl2, cands[..|cands| - 1]) && (FeasibleIn(pl1, cands[|cands| - 1]) <==> FeasibleIn(pl2, cands[|cands| - 1])))
  }

  /** Choices over the same candidates agree when the two planes accept the
      same candidates and share the objective and variables. */
  lemma {:induction false} ChooseAgrees(pl1: Plane, pl2: Plane, cands: seq<Point>)
    requires pl1.objective == pl2.objective && pl1.v1 == pl2.v1 && pl1.v2 == pl2.v2
    requires SameVerdicts(pl1, pl2, cands)
    ensures Choose(pl1, cands) == Choose(pl2, cands)
    decreases |cands|
  {
    if |cands| > 0 {
      ChooseAgrees(pl1, pl2, cands[..|cands| - 1]);
    }
  }

  /** Without '=' constraints the tolerance for '=' plays no part. */
  lemma {:induction false} EqualityToleranceUnused(cons: seq<Constraint>, v1: string, v2: string, pt: Point, t1: real, t2: real)
    requires forall i :: 0 <= i < |cons| ==> cons[i].op != Eq
    ensures IsFeasible2D(cons, v1, v2, pt, EPS, t1) <==> IsFeasible2D(cons, v1, v2, pt, EPS, t2)
  {
    forall i | 0 <= i < |cons|
      ensures Within(cons[i], v1, v2, pt, EPS, t1) <==> Within(cons[i], v1, v2, pt, EPS, t2)
    {
      assert cons[i].op != Eq;
    }
  }

  /** Without '=' constraints the two tolerances accept the same candidates. */
  lemma {:induction false} NoEqualitiesSameVerdicts(p: Problem, cands: seq<Point>)
    requires p.Complete() && |p.variables| == 2
    requires forall i :: 0 <= i < |p.Cons()| ==> p.Cons()[i].op != Eq
    ensures SameVerdicts(PlaneOf(p, EqualityTolerance), PlaneOf(p, EPS), cands)
    decreases |cands|
  {
    if |cands| > 0 {
      NoEqualitiesSameVerdicts(p, cands[..|cands| - 1]);
      EqualityToleranceUnused(p.Cons(), p.variables[0], p.variables[1], cands[|cands| - 1], EqualityTolerance, EPS);
    }
  }

  /** Without '=' constraints the two versions give the same answer. */
  lemma {:induction false} SameWithoutEqualities(p: Problem)
    requires p.Complete() && |p.variables| == 2
    requires forall i :: 0 <= i < |p.Cons()| ==> p.Cons()[i].op != Eq
    ensures EnumerationOf(p, EqualityTolerance) == EnumerationOf(p, EPS)
  {
    NoEqualitiesSameVerdicts(p, VerticesOf(p));
    ChooseAgrees(PlaneOf(p, EqualityTolerance), PlaneOf(p, EPS), VerticesOf(p));
  }
}
