/** What a path says of the joints at one of its points: its tangent is a unit vector and its curvature
    is perpendicular to it (path.cpp, `view::tangent` and `view::curvature`), and what that adds to the
    limit curves. */
module PathGeometry {
  import opened Reals
  import opened Vectors
  import opened Limits
  import Blend
  import PathBuild

  function Tangent(js: seq<Joint>): (r: Vec)
    ensures |r| == |js| && forall i :: 0 <= i < |js| ==> r[i] == js[i].dq
  {
    seq(|js|, i requires 0 <= i < |js| => js[i].dq)
  }

  function Curvature(js: seq<Joint>): (r: Vec)
    ensures |r| == |js| && forall i :: 0 <= i < |js| ==> r[i] == js[i].ddq
  {
    seq(|js|, i requires 0 <= i < |js| => js[i].ddq)
  }

  /** The joints' derivatives are those of a curve followed at unit speed. */
  predicate OnPath(js: seq<Joint>) {
    Dot(Tangent(js), Tangent(js)) == 1.0 && Dot(Tangent(js), Curvature(js)) == 0.0
  }

  // ----- where such joints come from -----

  /** The curvature vector of an arc at an angle of the given cosine and sine (equation 9). */
  function Bend(arc: Blend.Arc, co: real, si: real): (r: Vec)
    requires |arc.center| == |arc.x| == |arc.y| && arc.radius != 0.0
    ensures |r| == |arc.center|
  {
    seq(|arc.center|, i requires 0 <= i < |arc.center| => -(1.0 / arc.radius) * (arc.x[i] * co + arc.y[i] * si))
  }

  function SegmentTangent(m: Blend.Maths, s: PathBuild.Segment, along: real): Vec
    requires PathBuild.Sized(s)
  {
    if s.Linear? then s.unit else Blend.ArcTangent(m, s.arc, along)
  }

  function SegmentCurvature(m: Blend.Maths, s: PathBuild.Segment, along: real): Vec
    requires PathBuild.Sized(s)
  {
    if s.Linear? then Scale(0.0, s.unit)
    else Bend(s.arc, m.cos(along / s.arc.radius), m.sin(along / s.arc.radius))
  }

  /** Every segment a path is built of, straight or circular, supplies such joints along its whole
      length. */
  lemma SegmentsSupplyPaths(m: Blend.Maths, opts: Blend.Options, dof: nat, s: PathBuild.Segment, along: real, js: seq<Joint>)
    requires Blend.Faithful(m) && PathBuild.SegmentOk(opts, dof, s) && PathBuild.Sized(s)
    requires Tangent(js) == SegmentTangent(m, s, along) && Curvature(js) == SegmentCurvature(m, s, along)
    ensures OnPath(js)
  {
    hide Dot;
    match s
    case Linear(start, unit, length) =>
      DotScale(0.0, unit, unit);
      DotSymmetric(unit, Scale(0.0, unit));
    case Circular(arc) =>
      var t := along / arc.radius;
      assert Blend.OnUnitCircle(m, t);
      ArcSupplies(arc, m.cos(t), m.sin(t));
  }

  lemma ArcSupplies(arc: Blend.Arc, co: real, si: real)
    requires |arc.center| == |arc.x| == |arc.y| && arc.radius != 0.0 && co * co + si * si == 1.0
    requires Dot(arc.x, arc.x) == 1.0 && Dot(arc.x, arc.y) == 0.0 && Dot(arc.y, arc.y) == 1.0
    ensures var t := Blend.Heading(arc, co, si); Dot(t, t) == 1.0 && Dot(t, Bend(arc, co, si)) == 0.0
  {
    hide Dot;
    var t, k := Blend.Heading(arc, co, si), Bend(arc, co, si);
    var g := -(1.0 / arc.radius);
    var p, q := g * co, g * si;
    DotSymmetric(arc.x, arc.y);
    assert Combines(t, -si, arc.x, co, arc.y);
    BendCombines(arc, co, si, k, g, p, q);
    SquareOfCombination(t, -si, arc.x, co, arc.y);
    DotOfCombination(k, p, arc.x, q, arc.y, t);
    DotSymmetric(t, k);
    assert Dot(t, t) == si * si + co * co;
    assert Dot(k, t) == p * (-si) + q * co;
    assert p * (-si) + q * co == 0.0;
  }

  lemma BendCombines(arc: Blend.Arc, co: real, si: real, k: Vec, g: real, p: real, q: real)
    requires |arc.center| == |arc.x| == |arc.y| && arc.radius != 0.0
    requires k == Bend(arc, co, si) && g == -(1.0 / arc.radius) && p == g * co && q == g * si
    ensures Combines(k, p, arc.x, q, arc.y)
  {
    forall i | 0 <= i < |k|
      ensures k[i] == p * arc.x[i] + q * arc.y[i]
    {
      ScaledPair(g, co, si, arc.x[i], arc.y[i]);
    }
  }

  /** The curvature of an arc points to its center, and its size is one over the radius: the square of the radius
      times it is the way from the arc's point to the center. */
  lemma BendPointsIn(arc: Blend.Arc, co: real, si: real)
    requires |arc.center| == |arc.x| == |arc.y| && arc.radius != 0.0
    ensures Scale(arc.radius * arc.radius, Bend(arc, co, si)) == Sub(arc.center, Blend.Around(arc, co, si))
  {
    var r, bend := arc.radius, Bend(arc, co, si);
    var scaled, way := Scale(arc.radius * arc.radius, bend), Sub(arc.center, Blend.Around(arc, co, si));
    forall i | 0 <= i < |arc.center|
      ensures scaled[i] == way[i]
    {
      WayIn(r, 1.0 / r, arc.x[i] * co + arc.y[i] * si, bend[i], scaled[i], arc.center[i], Blend.Around(arc, co, si)[i]);
    }
    assert scaled == way;
  }

  lemma WayIn(r: real, e: real, z: real, bend: real, scaled: real, center: real, around: real)
    requires e * r == 1.0 && bend == -e * z && scaled == r * r * bend && around == center + r * z
    ensures scaled == center - around
  {
    assert r * bend == -z;
    assert scaled == r * (r * bend);
  }

  lemma ScaledPair(g: real, co: real, si: real, x: real, y: real)
    ensures g * (x * co + y * si) == g * co * x + g * si * y
  {
  }

  // ----- what a sample says of the joints -----

  /** The joint velocities and accelerations a sample carries (equations 11 and 12). */
  function SampledVelocity(js: seq<Joint>, sDot: real): (r: Vec)
    ensures |r| == |js|
  {
    Scale(sDot, Tangent(js))
  }

  function SampledAcceleration(js: seq<Joint>, sDot: real, sDdot: real): (r: Vec)
    ensures |r| == |js|
  {
    Add(Scale(sDdot, Tangent(js)), Scale(sDot * sDot, Curvature(js)))
  }

  /** On a path the joint speed is the path speed, its rate is the path acceleration, and what is left of
      the joint acceleration is the curvature at the squared speed. */
  lemma SampledMotion(js: seq<Joint>, sDot: real, sDdot: real, curvatureSq: real)
    requires OnPath(js) && curvatureSq == Dot(Curvature(js), Curvature(js))
    ensures var v, a := SampledVelocity(js, sDot), SampledAcceleration(js, sDot, sDdot);
            Dot(v, v) == sDot * sDot && Dot(v, a) == sDot * sDdot &&
            Dot(a, a) == sDdot * sDdot + sDot * sDot * (sDot * sDot) * curvatureSq
  {
    assert Dot(Tangent(js), Tangent(js)) == 1.0 && Dot(Tangent(js), Curvature(js)) == 0.0;
    hide *;
    SampledParts(js, sDot, sDdot);
    SampledProducts(Tangent(js), Curvature(js), sDot, sDdot, sDot * sDot, SampledVelocity(js, sDot), SampledAcceleration(js, sDot, sDdot),
                    curvatureSq);
  }

  lemma SampledParts(js: seq<Joint>, sDot: real, sDdot: real)
    ensures SampledVelocity(js, sDot) == Scale(sDot, Tangent(js))
    ensures SampledAcceleration(js, sDot, sDdot) == Add(Scale(sDdot, Tangent(js)), Scale(sDot * sDot, Curvature(js)))
  {
  }

  lemma SampledProducts(t: Vec, k: Vec, sDot: real, sDdot: real, u: real, v: Vec, a: Vec, kk: real)
    requires |t| == |k| && Dot(t, t) == 1.0 && Dot(t, k) == 0.0 && u == sDot * sDot && kk == Dot(k, k)
    requires v == Scale(sDot, t) && a == Add(Scale(sDdot, t), Scale(u, k))
    ensures Dot(v, v) == sDot * sDot && Dot(v, a) == sDot * sDdot && Dot(a, a) == sDdot * sDdot + sDot * sDot * (sDot * sDot) * kk
  {
    hide *;
    DotSymmetric(t, k);
    DotSymmetric(t, a);
    DotSymmetric(k, a);
    DotSymmetric(t, v);
    DotScaled(sDot, t, v);
    DotScaled(sDot, t, t);
    DotScaled(sDot, t, a);
    DotCombined(sDdot, t, u, k, t);
    DotCombined(sDdot, t, u, k, k);
    DotCombined(sDdot, t, u, k, a);
    SampledSums(sDot, sDdot, u, Dot(t, v), Dot(v, v), Dot(t, a), Dot(k, a), Dot(a, a), Dot(v, a), kk);
  }

  lemma SampledSums(sDot: real, sDdot: real, u: real, tv: real, vv: real, ta: real, ka: real, aa: real, va: real, kk: real)
    requires u == sDot * sDot && tv == Mul(sDot, 1.0) && vv == Mul(sDot, tv) && ta == Mul(sDdot, 1.0) + Mul(u, 0.0)
    requires ka == Mul(sDdot, 0.0) + Mul(u, kk) && aa == Mul(sDdot, ta) + Mul(u, ka) && va == Mul(sDot, ta)
    ensures vv == sDot * sDot && va == sDot * sDdot && aa == sDdot * sDdot + sDot * sDot * (sDot * sDot) * kk
  {
    assert tv == sDot && ta == sDdot && ka == u * kk;
    assert u * ka == u * u * kk;
  }

  /** A sample keeps every moving joint within its acceleration limit exactly when its path acceleration lies
      between the bounds at its velocity. */
  lemma SampleWithinLimits(js: seq<Joint>, eps: real, sDot: real, sDdot: real)
    ensures (forall i :: 0 <= i < |js| && Moving(js[i], eps) ==> Abs(SampledAcceleration(js, sDot, sDdot)[i]) <= js[i].aMax) <==>
            (SDdotMin(js, eps, sDot * sDot).Bounded? ==> SDdotMin(js, eps, sDot * sDot).v <= sDdot) &&
            Under(sDdot, SDdotMax(js, eps, sDot * sDot))
  {
    hide SDdotMin, SDdotMax;
    var u := sDot * sDot;
    InsideBounds(js, eps, u, sDdot);
    forall i | 0 <= i < |js| && Moving(js[i], eps)
      ensures Abs(SampledAcceleration(js, sDot, sDdot)[i]) <= js[i].aMax <==> MeetsLimit(js[i], u, sDdot)
    {
      assert SampledAcceleration(js, sDot, sDdot)[i] == js[i].dq * sDdot + js[i].ddq * u;
    }
  }

  // ----- the moving joints' share -----

  /** The squared tangent over the moving joints, and its product with the curvature there. */
  function MovingSq(js: seq<Joint>, eps: real): real {
    if js == [] then 0.0
    else (if Moving(js[0], eps) then Mul(js[0].dq, js[0].dq) else 0.0) + MovingSq(js[1..], eps)
  }

  function MovingDot(js: seq<Joint>, eps: real): real {
    if js == [] then 0.0
    else (if Moving(js[0], eps) then Mul(js[0].dq, js[0].ddq) else 0.0) + MovingDot(js[1..], eps)
  }

  /** The curvature of the joints too slow to count as moving. */
  function StillCurvature(js: seq<Joint>, eps: real): real {
    if js == [] then 0.0
    else (if Moving(js[0], eps) then 0.0 else Abs(js[0].ddq)) + StillCurvature(js[1..], eps)
  }

  lemma {:induction false} NonNegativeCurvature(js: seq<Joint>, eps: real)
    ensures 0.0 <= StillCurvature(js, eps)
  {
    if js != [] {
      NonNegativeCurvature(js[1..], eps);
    }
  }

  /** One joint's terms of the two sums. */
  lemma DotSteps(js: seq<Joint>)
    requires js != []
    ensures Dot(Tangent(js), Tangent(js)) == Mul(js[0].dq, js[0].dq) + Dot(Tangent(js[1..]), Tangent(js[1..]))
    ensures Dot(Tangent(js), Curvature(js)) == Mul(js[0].dq, js[0].ddq) + Dot(Tangent(js[1..]), Curvature(js[1..]))
  {
    assert Tangent(js)[1..] == Tangent(js[1..]) && Curvature(js)[1..] == Curvature(js[1..]);
    hide Tangent, Curvature;
    FrontProduct(Tangent(js), Tangent(js), js[0].dq, js[0].dq);
    FrontProduct(Tangent(js), Curvature(js), js[0].dq, js[0].ddq);
  }

  /** What the joints below the tolerance take from the two sums is bounded by the tolerance, and
      nothing when the tests are exact. */
  lemma MovingShare(js: seq<Joint>, eps: real)
    requires 0.0 <= eps
    ensures Dot(Tangent(js), Tangent(js)) - |js| as real * (eps * eps) <= MovingSq(js, eps)
    ensures Abs(MovingDot(js, eps) - Dot(Tangent(js), Curvature(js))) <= eps * StillCurvature(js, eps)
  {
    hide Dot, MovingSq, MovingDot, StillCurvature;
    SquareShare(js, eps, |js| as real);
    ProductShare(js, eps);
  }

  lemma {:induction false} SquareShare(js: seq<Joint>, eps: real, n: real)
    requires 0.0 <= eps && n == |js| as real
    ensures Dot(Tangent(js), Tangent(js)) - Mul(n, Mul(eps, eps)) <= MovingSq(js, eps)
  {
    if js != [] {
      hide Mul;
      SquareShare(js[1..], eps, n - 1.0);
      DotSteps(js);
      Expand(Mul(eps, eps), n - 1.0, 1.0);
      Counted(n, Mul(eps, eps));
      Counted(n - 1.0, Mul(eps, eps));
      SquareShrinks(js[0].dq, eps);
    }
  }

  /** A product with the count, either way round. */
  lemma Counted(n: real, e: real)
    ensures Mul(n, e) == Mul(e, n) && Mul(e, 1.0) == e
  {
  }

  lemma SquareShrinks(dq: real, eps: real)
    requires 0.0 <= eps
    ensures 0.0 <= Mul(eps, eps) && (NearZero(dq, eps) ==> Mul(dq, dq) <= Mul(eps, eps))
  {
    SquareIsPositive(eps);
    if NearZero(dq, eps) {
      var d := Abs(dq);
      SquareMono(d, eps);
      assert d * d == dq * dq;
    }
  }

  lemma {:induction false} ProductShare(js: seq<Joint>, eps: real)
    requires 0.0 <= eps
    ensures Abs(MovingDot(js, eps) - Dot(Tangent(js), Curvature(js))) <= Mul(eps, StillCurvature(js, eps))
  {
    if js != [] {
      ProductShare(js[1..], eps);
      hide Mul;
      DotSteps(js);
      Expand(eps, Abs(js[0].ddq), StillCurvature(js[1..], eps));
      if !Moving(js[0], eps) {
        ProductShrinks(js[0].dq, js[0].ddq, eps);
      }
    } else {
      assert eps * 0.0 == 0.0;
    }
  }

  lemma ProductShrinks(dq: real, ddq: real, eps: real)
    requires 0.0 <= eps && NearZero(dq, eps)
    ensures Abs(Mul(dq, ddq)) <= Mul(eps, Abs(ddq))
  {
    var d, k := Abs(dq), Abs(ddq);
    AbsMul(dq, ddq);
    MulMono(d, eps, k);
  }

  lemma {:induction false} SomeJointMoves(js: seq<Joint>, eps: real) returns (i: nat)
    requires 0.0 < MovingSq(js, eps)
    ensures i < |js| && Moving(js[i], eps)
  {
    hide Mul;
    if Moving(js[0], eps) {
      i := 0;
    } else {
      i := SomeJointMoves(js[1..], eps);
      i := i + 1;
    }
  }

  /** Enough of a unit tangent is left to move a joint while the tolerance is small for the number of
      joints. */
  lemma UnitTangentMoves(js: seq<Joint>, eps: real)
    requires OnPath(js) && 0.0 <= eps && |js| as real * (eps * eps) < 1.0
    ensures exists i :: 0 <= i < |js| && Moving(js[i], eps)
  {
    hide MovingSq, Moving;
    MovingShare(js, eps);
    var i := SomeJointMoves(js, eps);
  }

  /** The least curvature ratio is at most the average, weighted by the squared tangent. */
  lemma LeastRatio(js: seq<Joint>, eps: real) returns (i: nat)
    requires 0.0 < MovingSq(js, eps)
    ensures i < |js| && Moving(js[i], eps)
    ensures Ratio(js[i]) * MovingSq(js, eps) <= MovingDot(js, eps)
  {
    hide Ratio, MovingSq, MovingDot;
    var mover := SomeJointMoves(js, eps);
    i := Lowest(js, eps, |js|, mover);
    RatioAverage(js, eps, Ratio(js[i]));
  }

  lemma {:induction false} Lowest(js: seq<Joint>, eps: real, n: nat, mover: nat) returns (i: nat)
    requires mover < |js| && Moving(js[mover], eps) && n <= |js|
    ensures i < |js| && Moving(js[i], eps) && Ratio(js[i]) <= Ratio(js[mover])
    ensures forall k :: 0 <= k < n && Moving(js[k], eps) ==> Ratio(js[i]) <= Ratio(js[k])
  {
    hide Ratio;
    if n == 0 {
      return mover;
    }
    i := Lowest(js, eps, n - 1, mover);
    if Moving(js[n - 1], eps) && Ratio(js[n - 1]) < Ratio(js[i]) {
      i := n - 1;
    }
  }

  lemma {:induction false} RatioAverage(js: seq<Joint>, eps: real, r: real)
    requires forall i :: 0 <= i < |js| && Moving(js[i], eps) ==> r <= Ratio(js[i])
    ensures Mul(r, MovingSq(js, eps)) <= MovingDot(js, eps)
  {
    if js != [] {
      var rest := js[1..];
      hide Mul, Ratio;
      assert forall i :: 0 <= i < |rest| ==> rest[i] == js[i + 1];
      RatioAverage(rest, eps, r);
      Expand(r, Mul(js[0].dq, js[0].dq), MovingSq(rest, eps));
      if Moving(js[0], eps) {
        FrontTerm(js[0], r);
      }
    } else {
      assert r * 0.0 == 0.0;
    }
  }

  lemma FrontTerm(j: Joint, r: real)
    requires j.dq != 0.0 && r <= Ratio(j)
    ensures Mul(r, Mul(j.dq, j.dq)) <= Mul(j.dq, j.ddq)
  {
    var q, a := Ratio(j), j.dq * j.dq;
    assert q * j.dq == j.ddq;
    assert j.dq * (q * j.dq) == q * a;
    SquareIsPositive(j.dq);
    MulMono(r, q, a);
  }

  // ----- what it adds to the checked bounds -----

  /** Every point of a path under the acceleration curve at this tolerance and squared velocity is
      reported feasible. */
  ghost predicate CurveIsEnough(eps: real, u: real) {
    forall js, l :: OnPath(js) && ValidLimits(js) && BelowAll(js, eps, l) && Under(u, l) ==>
                      CheckedBounds(SDdotMin(js, eps, u), SDdotMax(js, eps, u), eps).Feasible?
  }

  /** On a path, staying under the curve is enough for the checked bounds exactly when the tolerance is
      zero, or the squared velocity at most one, or the tolerance so large that a unit tangent cannot
      move two joints. `root` is the other component of a unit tangent whose first is the tolerance. */
  lemma CheckedBoundsExactly(eps: real, u: real, root: real)
    requires 0.0 <= eps && 0.0 <= u
    requires 2.0 * (eps * eps) <= 1.0 ==> 0.0 <= root && root * root == 1.0 - eps * eps
    ensures CurveIsEnough(eps, u) <==> eps == 0.0 || u <= 1.0 || 1.0 < 2.0 * (eps * eps)
  {
    hide SDdotMin, SDdotMax, BelowAll, CheckedBounds, OnPath, Tangent, Curvature;
    if eps == 0.0 || u <= 1.0 || 1.0 < 2.0 * (eps * eps) {
      forall js, l | OnPath(js) && ValidLimits(js) && BelowAll(js, eps, l) && Under(u, l)
        ensures CheckedBounds(SDdotMin(js, eps, u), SDdotMax(js, eps, u), eps).Feasible?
      {
        if eps == 0.0 || u <= 1.0 {
          UnderCurveCrossing(js, eps, u, l);
          SlackIsCovered(SDdotMin(js, eps, u), SDdotMax(js, eps, u), eps, u);
        } else {
          OneMover(js, eps, u);
        }
      }
    } else {
      SquareMono(eps, root);
      var js := NearlyParallel(eps, u, eps, root);
      assert Under(u, Unbounded);
    }
  }

  lemma SlackIsCovered(lo: Limit, hi: Limit, eps: real, u: real)
    requires 0.0 <= eps && 0.0 <= u && (eps == 0.0 || u <= 1.0) && !Crossed(lo, hi, eps * u)
    ensures CheckedBounds(lo, hi, eps).Feasible?
  {
    if eps == 0.0 {
      assert eps * u == 0.0;
    } else {
      MulMono(u, 1.0, eps);
    }
  }

  lemma {:induction false} TwoComponents(v: Vec, i: nat, k: nat, x: real, y: real)
    requires i < k < |v| && x == v[i] && y == v[k]
    ensures x * x + y * y <= Dot(v, v)
  {
    SquareIsPositive(v[0]);
    if i > 0 {
      TwoComponents(v[1..], i - 1, k - 1, x, y);
    } else {
      OneComponent(v[1..], k - 1, y);
    }
  }

  lemma {:induction false} OneComponent(v: Vec, k: nat, y: real)
    requires k < |v| && y == v[k]
    ensures y * y <= Dot(v, v)
  {
    DotNonNegative(v[1..]);
    SquareIsPositive(v[0]);
    if k > 0 {
      OneComponent(v[1..], k - 1, y);
    }
  }

  lemma MovesAtLeast(j: Joint, eps: real, x: real)
    requires Moving(j, eps) && 0.0 <= eps && x == j.dq
    ensures eps * eps <= x * x
  {
    var d := Abs(x);
    SquareMono(eps, d);
    assert d * d == x * x;
  }

  /** Two joints of a unit tangent cannot both move while twice the squared tolerance exceeds one. */
  lemma OnlyMover(js: seq<Joint>, eps: real, i: nat, k: nat)
    requires OnPath(js) && 0.0 <= eps && 1.0 < 2.0 * (eps * eps)
    requires i < |js| && k < |js| && Moving(js[i], eps) && Moving(js[k], eps)
    ensures i == k
  {
    var x, y: real :| x == js[i].dq && y == js[k].dq;
    MovesAtLeast(js[i], eps, x);
    MovesAtLeast(js[k], eps, y);
    hide Dot, Moving;
    if i < k {
      TwoComponents(Tangent(js), i, k, x, y);
      assert false;
    }
    if k < i {
      TwoComponents(Tangent(js), k, i, y, x);
      assert false;
    }
  }

  /** Then one joint's bounds are all there are, and they never cross. */
  lemma OneMover(js: seq<Joint>, eps: real, u: real)
    requires OnPath(js) && ValidLimits(js) && 0.0 <= eps && 1.0 < 2.0 * (eps * eps)
    ensures CheckedBounds(SDdotMin(js, eps, u), SDdotMax(js, eps, u), eps).Feasible?
  {
    hide SDdotMin, SDdotMax, LowerFrom, UpperFrom, Dot, Budget, Ratio, OnPath;
    SDdotMinIsGreatest(js, eps, u);
    SDdotMaxIsLeast(js, eps, u);
    var lo, hi := SDdotMin(js, eps, u), SDdotMax(js, eps, u);
    if lo.Bounded? && hi.Bounded? {
      var i: nat :| i < |js| && Moving(js[i], eps) && LowerFrom(js[i], u) == lo.v;
      var k: nat :| k < |js| && Moving(js[k], eps) && UpperFrom(js[k], u) == hi.v;
      OnlyMover(js, eps, i, k);
      AffineForms(js[i], u);
      BudgetNonNegative(js[i]);
    }
  }

  lemma PairOnPath(p: Joint, q: Joint)
    ensures OnPath([p, q]) <==> p.dq * p.dq + q.dq * q.dq == 1.0 && p.dq * p.ddq + q.dq * q.ddq == 0.0
  {
    var js := [p, q];
    var t, k := Tangent(js), Curvature(js);
    assert t == [p.dq, q.dq] && k == [p.ddq, q.ddq];
    assert t[1..] == [q.dq] && k[1..] == [q.ddq] && t[1..][1..] == [] && k[1..][1..] == [];
    DotUnfold(t, t);
    DotUnfold(t, k);
    DotUnfold(t[1..], t[1..]);
    DotUnfold(t[1..], k[1..]);
  }

  /** Two moving joints of a circular path without any acceleration to spend, whose ratios differ by
      less than the tolerance: they set no curve at all, yet at a squared velocity above one their
      bounds cross by more than it. */
  lemma NearlyParallel(eps: real, u: real, a: real, b: real) returns (js: seq<Joint>)
    requires 0.0 < eps <= a && eps <= b && 1.0 < u && a * a + b * b == 1.0
    ensures OnPath(js) && ValidLimits(js) && BelowAll(js, eps, Unbounded)
    ensures CheckedBounds(SDdotMin(js, eps, u), SDdotMax(js, eps, u), eps).Infeasible?
  {
    var d := BetweenRatios(eps, u);
    js := [Joint(a, -(d * (b * b)) * a, 1.0, 0.0), Joint(b, d * (a * a) * b, 1.0, 0.0)];
    RatioOf(js[0], -(d * (b * b)));
    RatioOf(js[1], d * (a * a));
    assert OnPath(js) by {
      TurningPair(a, b, d);
      PairOnPath(js[0], js[1]);
    }
    hide OnPath, SDdotMin, SDdotMax, Ratio, Budget, BelowAll, CheckedBounds;
    var aa, bb: real :| aa == a * a && bb == b * b;
    assert Ratio(js[0]) == -(d * bb) && Ratio(js[1]) == d * aa;
    PairCrosses(js, eps, u, d, aa, bb);
  }

  /** Two joints without acceleration to spend whose ratios straddle zero, less than the tolerance
      apart. */
  lemma PairCrosses(js: seq<Joint>, eps: real, u: real, d: real, aa: real, bb: real)
    requires |js| == 2 && 0.0 < d < eps && eps < d * u && aa + bb == 1.0
    requires Moving(js[0], eps) && Moving(js[1], eps)
    requires Ratio(js[0]) == -(d * bb) && Ratio(js[1]) == d * aa && Budget(js[0]) == 0.0 && Budget(js[1]) == 0.0
    ensures BelowAll(js, eps, Unbounded)
    ensures CheckedBounds(SDdotMin(js, eps, u), SDdotMax(js, eps, u), eps).Infeasible?
  {
    hide SDdotMin, SDdotMax, Ratio, Budget, LowerFrom, UpperFrom;
    assert d * aa + d * bb == d by { Whole(d, aa, bb); }
    assert BelowAll(js, eps, Unbounded) by { NoPairBelowEpsilon(js, eps); }
    AffineForms(js[0], u);
    AffineForms(js[1], u);
    SDdotMinIsGreatest(js, eps, u);
    SDdotMaxIsLeast(js, eps, u);
    WholeTimes(d, aa, bb, u);
  }

  lemma Whole(d: real, aa: real, bb: real)
    requires aa + bb == 1.0
    ensures d * aa + d * bb == d
  {
    assert d * (aa + bb) == d * aa + d * bb;
  }

  lemma WholeTimes(d: real, aa: real, bb: real, u: real)
    requires aa + bb == 1.0
    ensures d * aa * u - (-(d * bb) * u) == d * u
  {
    Whole(d, aa, bb);
    assert (d * aa + d * bb) * u == d * aa * u + d * bb * u;
  }

  lemma TurningPair(a: real, b: real, d: real)
    ensures a * (-(d * (b * b)) * a) + b * (d * (a * a) * b) == 0.0
  {
    var aa, bb := a * a, b * b;
    assert a * (-(d * bb) * a) == -(d * bb) * aa;
    assert b * (d * aa * b) == d * aa * bb;
  }

  /** A ratio below the tolerance that the squared velocity lifts above it. */
  lemma BetweenRatios(eps: real, u: real) returns (d: real)
    requires 0.0 < eps && 1.0 < u
    ensures 0.0 < d < eps && eps < d * u
  {
    var e := eps / u;
    assert e * u == eps;
    DivGe(eps, 0.0, u);
    assert e != 0.0;
    MulPos(e, u - 1.0);
    assert e * (u - 1.0) == e * u - e;
    d := Midpoint(e, eps);
    assert d * u == (e * u + eps * u) / 2.0;
    MulPos(eps, u - 1.0);
    assert eps * (u - 1.0) == eps * u - eps;
  }

  lemma RatioOf(j: Joint, r: real)
    requires j.dq != 0.0 && j.ddq == r * j.dq && j.aMax == 0.0
    ensures Ratio(j) == r && Budget(j) == 0.0
  {
    DivIs(j.ddq, j.dq, r);
    DivIs(0.0, Abs(j.dq), 0.0);
  }

  lemma NoPairBelowEpsilon(js: seq<Joint>, eps: real)
    requires |js| == 2 && Moving(js[0], eps) && Moving(js[1], eps) && NearZero(Ratio(js[0]) - Ratio(js[1]), eps)
    ensures BelowAll(js, eps, Unbounded)
  {
    hide Ratio;
  }

  /** For instance at a tolerance of 0.5 and a velocity of 2, with the tangent (0.6, 0.8). */
  lemma CheckedBoundsCanFailUnderCurve()
    ensures var js := [Joint(0.6, -0.1536, 1.0, 0.0), Joint(0.8, 0.1152, 1.0, 0.0)];
            OnPath(js) && ValidLimits(js) && IsAccelerationLimitSq(js, 0.5, Unbounded) &&
            CheckedBounds(SDdotMin(js, 0.5, 4.0), SDdotMax(js, 0.5, 4.0), 0.5).Infeasible?
  {
    var js := [Joint(0.6, -0.1536, 1.0, 0.0), Joint(0.8, 0.1152, 1.0, 0.0)];
    PairOnPath(js[0], js[1]);
    RatioOf(js[0], -0.256);
    RatioOf(js[1], 0.144);
    PairCrosses(js, 0.5, 4.0, 0.4, 0.36, 0.64);
  }
}
