/** The limit curves and acceleration bounds at one point of the path (Kunz & Stilman Eqs. 22-23,
    31 and 36), as trajectory.cpp computes them from the path derivatives of every joint.

    The source takes a square root of the acceleration limit at the very end. The model keeps the
    squared limit, and its theorems quantify over every non-negative velocity, so they hold of
    whatever velocity squares to it. */
module Limits {
  import opened Reals

  /** One joint at one point of the path: q'(s), q''(s) and its two limits. */
  datatype Joint = Joint(dq: real, ddq: real, vMax: real, aMax: real)

  /** The limits `trajectory::create` accepts. */
  ghost predicate ValidLimits(js: seq<Joint>) {
    forall i :: 0 <= i < |js| ==> js[i].vMax >= 0.0 && js[i].aMax >= 0.0
  }

  /** The source's test `|x| < epsilon`. With a zero epsilon it is the exact test `x == 0`, so the
      same definitions cover the code and its idealisation. */
  predicate NearZero(x: real, eps: real) {
    Abs(x) < eps || x == 0.0
  }

  predicate Moving(j: Joint, eps: real) {
    !NearZero(j.dq, eps)
  }

  function Ratio(j: Joint): real
    requires j.dq != 0.0
  {
    j.ddq / j.dq
  }

  function Budget(j: Joint): real
    requires j.dq != 0.0
  {
    j.aMax / Abs(j.dq)
  }

  // ----- the acceleration limit curve (Eq. 31) -----

  predicate PairActive(js: seq<Joint>, eps: real, i: nat, k: nat) {
    i < k < |js| && Moving(js[i], eps) && Moving(js[k], eps) &&
    !NearZero(Ratio(js[i]) - Ratio(js[k]), eps)
  }

  function PairLimit(js: seq<Joint>, eps: real, i: nat, k: nat): real
    requires PairActive(js, eps, i, k)
  {
    (Budget(js[i]) + Budget(js[k])) / Abs(Ratio(js[i]) - Ratio(js[k]))
  }

  predicate StationaryActive(js: seq<Joint>, eps: real, i: nat) {
    i < |js| && !Moving(js[i], eps) && !NearZero(js[i].ddq, eps)
  }

  function StationaryLimit(js: seq<Joint>, eps: real, i: nat): real
    requires StationaryActive(js, eps, i)
  {
    js[i].aMax / Abs(js[i].ddq)
  }

  /** l is no higher than any pair's or stationary joint's limit. */
  ghost predicate BelowAll(js: seq<Joint>, eps: real, l: Limit) {
    (forall i: nat, k: nat :: PairActive(js, eps, i, k) ==> l.Bounded? && l.v <= PairLimit(js, eps, i, k)) &&
    (forall i: nat :: StationaryActive(js, eps, i) ==> l.Bounded? && l.v <= StationaryLimit(js, eps, i))
  }

  ghost predicate Attained(js: seq<Joint>, eps: real, l: Limit) {
    l.Bounded? ==>
      (exists i: nat, k: nat :: PairActive(js, eps, i, k) && l.v == PairLimit(js, eps, i, k)) ||
      (exists i: nat :: StationaryActive(js, eps, i) && l.v == StationaryLimit(js, eps, i))
  }

  /** Eq. 31 squared: the least of the pair limits and the stationary-joint limits. */
  ghost predicate IsAccelerationLimitSq(js: seq<Joint>, eps: real, l: Limit) {
    BelowAll(js, eps, l) && Attained(js, eps, l)
  }

  method ComputeAccelerationLimitSq(js: seq<Joint>, eps: real) returns (l: Limit)
    ensures IsAccelerationLimitSq(js, eps, l)
  {
    l := Unbounded;
    for i := 0 to |js|
      invariant forall a: nat, b: nat :: a < i && PairActive(js, eps, a, b) ==> l.Bounded? && l.v <= PairLimit(js, eps, a, b)
      invariant Attained(js, eps, l)
    {
      if Moving(js[i], eps) {
        for k := i + 1 to |js|
          invariant forall a: nat, b: nat :: (a < i || (a == i && b < k)) && PairActive(js, eps, a, b) ==>
                                               l.Bounded? && l.v <= PairLimit(js, eps, a, b)
          invariant Attained(js, eps, l)
        {
          if Moving(js[k], eps) && !NearZero(Ratio(js[i]) - Ratio(js[k]), eps) {
            assert PairActive(js, eps, i, k);
            l := MinLimit(l, Bounded(PairLimit(js, eps, i, k)));
          }
        }
      }
    }
    for i := 0 to |js|
      invariant forall a: nat, b: nat :: PairActive(js, eps, a, b) ==> l.Bounded? && l.v <= PairLimit(js, eps, a, b)
      invariant forall a: nat :: a < i && StationaryActive(js, eps, a) ==> l.Bounded? && l.v <= StationaryLimit(js, eps, a)
      invariant Attained(js, eps, l)
    {
      if !Moving(js[i], eps) && !NearZero(js[i].ddq, eps) {
        assert StationaryActive(js, eps, i);
        l := MinLimit(l, Bounded(StationaryLimit(js, eps, i)));
      }
    }
  }

  // ----- the acceleration bounds (Eqs. 22-23) -----

  /** The lowest path acceleration joint j allows at squared path velocity u. */
  function LowerFrom(j: Joint, u: real): real
    requires j.dq != 0.0
  {
    (-j.aMax) / Abs(j.dq) - (j.ddq * u) / j.dq
  }

  function UpperFrom(j: Joint, u: real): real
    requires j.dq != 0.0
  {
    j.aMax / Abs(j.dq) - (j.ddq * u) / j.dq
  }

  /** The bound over all moving joints; `Unbounded` stands for the source's initial -infinity. */
  function SDdotMin(js: seq<Joint>, eps: real, u: real): Limit {
    if js == [] then Unbounded
    else
      var last := js[|js| - 1];
      var rest := SDdotMin(js[..|js| - 1], eps, u);
      if !Moving(last, eps) then rest
      else if rest.Unbounded? then Bounded(LowerFrom(last, u))
      else Bounded(Max(rest.v, LowerFrom(last, u)))
  }

  function SDdotMax(js: seq<Joint>, eps: real, u: real): Limit {
    if js == [] then Unbounded
    else
      var last := js[|js| - 1];
      var rest := SDdotMax(js[..|js| - 1], eps, u);
      if !Moving(last, eps) then rest
      else if rest.Unbounded? then Bounded(UpperFrom(last, u))
      else Bounded(Min(rest.v, UpperFrom(last, u)))
  }

  method ComputeAccelerationBoundsUnchecked(js: seq<Joint>, sDot: real, eps: real) returns (lo: Limit, hi: Limit)
    ensures lo == SDdotMin(js, eps, sDot * sDot)
    ensures hi == SDdotMax(js, eps, sDot * sDot)
  {
    lo, hi := Unbounded, Unbounded;
    for i := 0 to |js|
      invariant lo == SDdotMin(js[..i], eps, sDot * sDot)
      invariant hi == SDdotMax(js[..i], eps, sDot * sDot)
    {
      assert js[..i + 1][..i] == js[..i];
      if Moving(js[i], eps) {
        var centripetal := js[i].ddq * (sDot * sDot);
        var fromMin := (-js[i].aMax) / Abs(js[i].dq) - centripetal / js[i].dq;
        lo := Bounded(if lo.Unbounded? then fromMin else Max(lo.v, fromMin));
        var fromMax := js[i].aMax / Abs(js[i].dq) - centripetal / js[i].dq;
        hi := Bounded(if hi.Unbounded? then fromMax else Min(hi.v, fromMax));
      }
    }
    assert js[..|js|] == js;
  }

  /** The lower bound is the greatest of the joints' lower bounds. */
  lemma {:induction false} SDdotMinIsGreatest(js: seq<Joint>, eps: real, u: real)
    ensures forall i :: 0 <= i < |js| && Moving(js[i], eps) ==>
                          SDdotMin(js, eps, u).Bounded? && LowerFrom(js[i], u) <= SDdotMin(js, eps, u).v
    ensures SDdotMin(js, eps, u).Bounded? ==>
              exists i :: 0 <= i < |js| && Moving(js[i], eps) && LowerFrom(js[i], u) == SDdotMin(js, eps, u).v
  {
    if js != [] {
      var front := js[..|js| - 1];
      SDdotMinIsGreatest(front, eps, u);
      assert forall i :: 0 <= i < |front| ==> front[i] == js[i];
    }
  }

  /** A joint that sets the lower bound. */
  lemma SettingJoint(js: seq<Joint>, eps: real, u: real) returns (i: nat)
    requires SDdotMin(js, eps, u).Bounded?
    ensures i < |js| && Moving(js[i], eps) && SDdotMin(js, eps, u).v == -Budget(js[i]) - Ratio(js[i]) * u
  {
    SDdotMinIsGreatest(js, eps, u);
    i :| i < |js| && Moving(js[i], eps) && LowerFrom(js[i], u) == SDdotMin(js, eps, u).v;
    AffineForms(js[i], u);
  }

  lemma LowerBoundOf(js: seq<Joint>, eps: real, u: real, i: nat)
    requires i < |js| && Moving(js[i], eps)
    ensures SDdotMin(js, eps, u).Bounded? && -Budget(js[i]) - Ratio(js[i]) * u <= SDdotMin(js, eps, u).v
  {
    SDdotMinIsGreatest(js, eps, u);
    AffineForms(js[i], u);
  }

  lemma {:induction false} SDdotMaxIsLeast(js: seq<Joint>, eps: real, u: real)
    ensures forall i :: 0 <= i < |js| && Moving(js[i], eps) ==>
                          SDdotMax(js, eps, u).Bounded? && SDdotMax(js, eps, u).v <= UpperFrom(js[i], u)
    ensures SDdotMax(js, eps, u).Bounded? ==>
              exists i :: 0 <= i < |js| && Moving(js[i], eps) && UpperFrom(js[i], u) == SDdotMax(js, eps, u).v
  {
    if js != [] {
      var front := js[..|js| - 1];
      SDdotMaxIsLeast(front, eps, u);
      assert forall i :: 0 <= i < |front| ==> front[i] == js[i];
    }
  }

  /** The same for the upper bound. */
  lemma UpperSettingJoint(js: seq<Joint>, eps: real, u: real) returns (i: nat)
    requires SDdotMax(js, eps, u).Bounded?
    ensures i < |js| && Moving(js[i], eps) && SDdotMax(js, eps, u).v == Budget(js[i]) - Ratio(js[i]) * u
  {
    SDdotMaxIsLeast(js, eps, u);
    i :| i < |js| && Moving(js[i], eps) && UpperFrom(js[i], u) == SDdotMax(js, eps, u).v;
    AffineForms(js[i], u);
  }

  lemma UpperBoundOf(js: seq<Joint>, eps: real, u: real, i: nat)
    requires i < |js| && Moving(js[i], eps)
    ensures SDdotMax(js, eps, u).Bounded? && SDdotMax(js, eps, u).v <= Budget(js[i]) - Ratio(js[i]) * u
  {
    SDdotMaxIsLeast(js, eps, u);
    AffineForms(js[i], u);
  }

  /** Both bounds as affine functions of the squared velocity. */
  lemma AffineForms(j: Joint, u: real)
    requires j.dq != 0.0
    ensures LowerFrom(j, u) == -Budget(j) - Ratio(j) * u
    ensures UpperFrom(j, u) == Budget(j) - Ratio(j) * u
  {
    var r := j.ddq / j.dq;
    assert r * j.dq == j.ddq;
    assert (r * u) * j.dq == (r * j.dq) * u;
    DivIs(j.ddq * u, j.dq, r * u);
    var b, d := j.aMax / Abs(j.dq), Abs(j.dq);
    assert b * d == j.aMax;
    assert (-b) * d == -j.aMax;
    DivIs(-j.aMax, d, -b);
  }

  /** Joint j's own acceleration, q'*sDdot + q''*sDot^2, is within its limit. */
  predicate MeetsLimit(j: Joint, u: real, x: real) {
    Abs(j.dq * x + j.ddq * u) <= j.aMax
  }

  /** A path acceleration lies between one joint's bounds exactly when that joint meets its limit. */
  lemma JointBoundsMeaning(j: Joint, u: real, x: real)
    requires j.dq != 0.0
    ensures LowerFrom(j, u) <= x <= UpperFrom(j, u) <==> MeetsLimit(j, u, x)
  {
    AffineForms(j, u);
    BudgetTimes(j);
    hide Budget, Ratio, LowerFrom, UpperFrom;
    MeaningScalar(j.dq, j.ddq, j.aMax, Abs(j.dq), Budget(j), Ratio(j), u, x);
  }

  lemma BudgetTimes(j: Joint)
    requires j.dq != 0.0
    ensures Ratio(j) * j.dq == j.ddq && Budget(j) * Abs(j.dq) == j.aMax
  {
  }

  lemma MeaningScalar(dq: real, ddq: real, aMax: real, d: real, b: real, r: real, u: real, x: real)
    requires dq != 0.0 && d == Abs(dq) && r * dq == ddq && b * d == aMax
    ensures -b - r * u <= x <= b - r * u <==> Abs(dq * x + ddq * u) <= aMax
  {
    var y: real :| y == x + r * u;
    assert dq * x + ddq * u == dq * y by {
      assert dq * (r * u) == (r * dq) * u;
    }
    AbsMul(dq, y);
    var z: real :| z == Abs(y);
    ScaledOrder(z, b, d);
  }

  lemma ScaledOrder(z: real, b: real, d: real)
    requires 0.0 < d
    ensures z <= b <==> d * z <= b * d
  {
    if z <= b {
      MulMono(z, b, d);
    } else {
      MulPos(z - b, d);
    }
  }

  lemma AbsMul(a: real, b: real)
    ensures Abs(a * b) == Abs(a) * Abs(b)
  {
    if a < 0.0 && b < 0.0 {
      MulPos(-a, -b);
    } else if a < 0.0 && 0.0 < b {
      MulPos(-a, b);
    } else if 0.0 < a && b < 0.0 {
      MulPos(a, -b);
    } else if 0.0 < a && 0.0 < b {
      MulPos(a, b);
    }
  }

  // ----- what the curve says about the bounds -----

  /** Every stationary joint the curve looks at keeps its curvature term within its limit. */
  ghost predicate StationaryFits(js: seq<Joint>, eps: real, u: real) {
    forall i: nat :: StationaryActive(js, eps, i) ==> Abs(js[i].ddq) * u <= js[i].aMax
  }

  /** The scalar core of the curve: budgets bi, bk and ratios ri, rk. */
  lemma OverlapScalar(bi: real, bk: real, ri: real, rk: real, u: real, eps: real, p: real)
    requires 0.0 <= bi && 0.0 <= bk && 0.0 <= u && 0.0 <= eps
    requires ri - rk <= p && rk - ri <= p && (p <= eps || u * p <= bi + bk)
    ensures -bi - ri * u <= bk - rk * u + eps * u
  {
    var a, b, c, e: real :| a == ri * u && b == rk * u && c == p * u && e == eps * u;
    assert b - a <= c by {
      MulMono(rk - ri, p, u);
      assert (rk - ri) * u == rk * u - ri * u;
    }
    assert 0.0 <= e by {
      MulMono(0.0, eps, u);
    }
    if p <= eps {
      MulMono(p, eps, u);
    }
  }

  lemma OverlapScalarConverse(bi: real, bk: real, ri: real, rk: real, u: real)
    requires ri != rk
    requires -bi - ri * u <= bk - rk * u && -bk - rk * u <= bi - ri * u
    requires 0.0 <= u
    ensures u <= (bi + bk) / Abs(ri - rk)
  {
    var d := ri - rk;
    assert d * u == ri * u - rk * u;
    assert Abs(d) * u == if d < 0.0 then -(d * u) else d * u;
    DivGe(bi + bk, u, Abs(d));
  }

  lemma MeetScalar(bi: real, bk: real, ri: real, rk: real, u: real)
    requires ri != rk && u == (bi + bk) / Abs(ri - rk)
    ensures -bi - ri * u == bk - rk * u || -bk - rk * u == bi - ri * u
  {
    var d := ri - rk;
    assert d * u == ri * u - rk * u;
    assert u * Abs(d) == bi + bk;
    assert Abs(d) * u == if d < 0.0 then -(d * u) else d * u;
  }

  /** Two moving joints' bounds overlap up to eps*u when u respects their pair limit. */
  lemma PairOverlap(js: seq<Joint>, eps: real, u: real, i: nat, k: nat, l: Limit)
    requires ValidLimits(js) && 0.0 <= eps && 0.0 <= u
    requires i < |js| && k < |js| && Moving(js[i], eps) && Moving(js[k], eps)
    requires BelowAll(js, eps, l) && Under(u, l)
    ensures LowerFrom(js[i], u) <= UpperFrom(js[k], u) + eps * u
  {
    AffineForms(js[i], u);
    AffineForms(js[k], u);
    BudgetNonNegative(js[i]);
    BudgetNonNegative(js[k]);
    var p := PairRespected(js, eps, u, i, k, l);
    hide Budget, Ratio, LowerFrom, UpperFrom, BelowAll;
    OverlapScalar(Budget(js[i]), Budget(js[k]), Ratio(js[i]), Ratio(js[k]), u, eps, p);
  }

  /** Two moving joints' ratios are close, or the velocity respects their pair limit. */
  lemma PairRespected(js: seq<Joint>, eps: real, u: real, i: nat, k: nat, l: Limit) returns (p: real)
    requires 0.0 <= eps && i < |js| && k < |js| && Moving(js[i], eps) && Moving(js[k], eps)
    requires BelowAll(js, eps, l) && Under(u, l)
    ensures Ratio(js[i]) - Ratio(js[k]) <= p && Ratio(js[k]) - Ratio(js[i]) <= p
    ensures p <= eps || u * p <= Budget(js[i]) + Budget(js[k])
  {
    hide Budget, Ratio;
    var d := Ratio(js[i]) - Ratio(js[k]);
    p := Abs(d);
    if !NearZero(d, eps) {
      DivGe(Budget(js[i]) + Budget(js[k]), u, p);
      if i < k {
        assert PairActive(js, eps, i, k);
      } else {
        assert PairActive(js, eps, k, i);
        assert Abs(Ratio(js[k]) - Ratio(js[i])) == Abs(d);
      }
    }
  }

  lemma BudgetNonNegative(j: Joint)
    requires j.dq != 0.0 && 0.0 <= j.aMax
    ensures 0.0 <= Budget(j)
  {
    DivGe(j.aMax, 0.0, Abs(j.dq));
  }

  /** Overlapping bounds imply each pair limit, whatever the epsilon. */
  lemma OverlapGivesPairLimit(js: seq<Joint>, eps: real, u: real, i: nat, k: nat)
    requires 0.0 <= u && PairActive(js, eps, i, k)
    requires LowerFrom(js[i], u) <= UpperFrom(js[k], u) && LowerFrom(js[k], u) <= UpperFrom(js[i], u)
    ensures u <= PairLimit(js, eps, i, k)
  {
    AffineForms(js[i], u);
    AffineForms(js[k], u);
    OverlapScalarConverse(Budget(js[i]), Budget(js[k]), Ratio(js[i]), Ratio(js[k]), u);
  }

  predicate Crossed(lo: Limit, hi: Limit, slack: real) {
    lo.Bounded? && hi.Bounded? && hi.v + slack < lo.v
  }

  /** Under the curve the bounds cross by at most eps*u. */
  lemma UnderCurveCrossing(js: seq<Joint>, eps: real, u: real, l: Limit)
    requires ValidLimits(js) && 0.0 <= eps && 0.0 <= u
    requires BelowAll(js, eps, l) && Under(u, l)
    ensures !Crossed(SDdotMin(js, eps, u), SDdotMax(js, eps, u), eps * u)
  {
    SDdotMinIsGreatest(js, eps, u);
    SDdotMaxIsLeast(js, eps, u);
    var lo, hi := SDdotMin(js, eps, u), SDdotMax(js, eps, u);
    if lo.Bounded? && hi.Bounded? {
      var i: nat :| i < |js| && Moving(js[i], eps) && LowerFrom(js[i], u) == lo.v;
      var k: nat :| k < |js| && Moving(js[k], eps) && UpperFrom(js[k], u) == hi.v;
      PairOverlap(js, eps, u, i, k, l);
    }
  }

  /** Under the curve every stationary joint the curve looks at fits. */
  lemma UnderCurveStationary(js: seq<Joint>, eps: real, u: real, l: Limit)
    requires BelowAll(js, eps, l) && Under(u, l)
    ensures StationaryFits(js, eps, u)
  {
    forall i: nat | StationaryActive(js, eps, i)
      ensures Abs(js[i].ddq) * u <= js[i].aMax
    {
      assert u <= StationaryLimit(js, eps, i);
      DivGe(js[i].aMax, u, Abs(js[i].ddq));
    }
  }

  /** Conversely, ordered bounds with every stationary joint fitting put u under the curve. */
  lemma OverCurve(js: seq<Joint>, eps: real, u: real, l: Limit)
    requires 0.0 <= u
    requires IsAccelerationLimitSq(js, eps, l)
    requires !Crossed(SDdotMin(js, eps, u), SDdotMax(js, eps, u), 0.0)
    requires StationaryFits(js, eps, u)
    ensures Under(u, l)
  {
    SDdotMinIsGreatest(js, eps, u);
    SDdotMaxIsLeast(js, eps, u);
    if l.Bounded? {
      if i: nat, k: nat :| PairActive(js, eps, i, k) && l.v == PairLimit(js, eps, i, k) {
        OverlapGivesPairLimit(js, eps, u, i, k);
      } else {
        var i: nat :| StationaryActive(js, eps, i) && l.v == StationaryLimit(js, eps, i);
        DivGe(js[i].aMax, u, Abs(js[i].ddq));
      }
    }
  }

  /** The acceleration curve theorem, with near-zero tests made exact: a velocity is on or below
      the curve exactly when some path acceleration respects every moving joint and every
      stationary joint's curvature term fits. `curve` is the square root the source returns. */
  lemma AccelerationCurve(js: seq<Joint>, sDot: real, l: Limit, curve: Limit)
    requires ValidLimits(js) && 0.0 <= sDot
    requires IsAccelerationLimitSq(js, 0.0, l)
    requires curve.Bounded? == l.Bounded?
    requires curve.Bounded? ==> 0.0 <= curve.v && curve.v * curve.v == l.v
    ensures Under(sDot, curve) <==>
            !Crossed(SDdotMin(js, 0.0, sDot * sDot), SDdotMax(js, 0.0, sDot * sDot), 0.0) &&
            StationaryFits(js, 0.0, sDot * sDot)
  {
    if curve.Bounded? {
      SquareMono(sDot, curve.v);
    }
    var u := sDot * sDot;
    assert Under(sDot, curve) <==> Under(u, l);
    if Under(u, l) {
      UnderCurveCrossing(js, 0.0, u, l);
      UnderCurveStationary(js, 0.0, u, l);
    } else if !Crossed(SDdotMin(js, 0.0, u), SDdotMax(js, 0.0, u), 0.0) && StationaryFits(js, 0.0, u) {
      OverCurve(js, 0.0, u, l);
    }
  }

  lemma PairMeets(js: seq<Joint>, eps: real, u: real, i: nat, k: nat)
    requires PairActive(js, eps, i, k) && PairLimit(js, eps, i, k) == u
    ensures LowerFrom(js[i], u) == UpperFrom(js[k], u) || LowerFrom(js[k], u) == UpperFrom(js[i], u)
  {
    AffineForms(js[i], u);
    AffineForms(js[k], u);
    MeetScalar(Budget(js[i]), Budget(js[k]), Ratio(js[i]), Ratio(js[k]), u);
  }

  /** On a point of the curve that a pair of joints sets, the two bounds meet: the upper one is
      no higher than the lower one, crosses it by at most eps*u, and equals it when the tests are
      exact. */
  lemma BoundsMeetOnPairPoint(js: seq<Joint>, eps: real, u: real, l: Limit, i: nat, k: nat)
    requires ValidLimits(js) && 0.0 <= eps && 0.0 <= u
    requires IsAccelerationLimitSq(js, eps, l) && l == Bounded(u)
    requires PairActive(js, eps, i, k) && PairLimit(js, eps, i, k) == u
    ensures var lo, hi := SDdotMin(js, eps, u), SDdotMax(js, eps, u);
            lo.Bounded? && hi.Bounded? && hi.v <= lo.v && !Crossed(lo, hi, eps * u) && (eps == 0.0 ==> lo == hi)
  {
    UnderCurveCrossing(js, eps, u, l);
    SDdotMinIsGreatest(js, eps, u);
    SDdotMaxIsLeast(js, eps, u);
    PairMeets(js, eps, u, i, k);
  }

  /** A path acceleration is inside the bounds exactly when no moving joint exceeds its limit. */
  lemma InsideBounds(js: seq<Joint>, eps: real, u: real, x: real)
    ensures (SDdotMin(js, eps, u).Bounded? ==> SDdotMin(js, eps, u).v <= x) && Under(x, SDdotMax(js, eps, u)) <==>
            forall i :: 0 <= i < |js| && Moving(js[i], eps) ==> MeetsLimit(js[i], u, x)
  {
    SDdotMinIsGreatest(js, eps, u);
    SDdotMaxIsLeast(js, eps, u);
    forall i | 0 <= i < |js| && Moving(js[i], eps)
      ensures LowerFrom(js[i], u) <= x <= UpperFrom(js[i], u) <==> MeetsLimit(js[i], u, x)
    {
      JointBoundsMeaning(js[i], u, x);
    }
  }

  // ----- the checked bounds -----

  datatype Bounds = Feasible(lo: Limit, hi: Limit) | Infeasible

  /** `compute_acceleration_bounds`: infeasible when the bounds cross by more than epsilon, and
      collapsed onto the smaller of the two when they are within epsilon of each other. */
  function CheckedBounds(lo: Limit, hi: Limit, eps: real): Bounds {
    if Crossed(lo, hi, eps) then Infeasible
    else if lo.Bounded? && hi.Bounded? && EpsEq(hi.v, lo.v, eps) then Feasible(Bounded(Min(lo.v, hi.v)), Bounded(Min(lo.v, hi.v)))
    else Feasible(lo, hi)
  }

  /** Joint j exceeds its limit by at most eps*|q'|. */
  predicate NearlyMeetsLimit(j: Joint, u: real, x: real, eps: real) {
    Abs(j.dq * x + j.ddq * u) <= j.aMax + eps * Abs(j.dq)
  }

  /** Whatever the checked bounds return is ordered, and any acceleration between them forgives
      each moving joint at most eps*|q'|. */
  lemma CheckedBoundsMeetLimits(js: seq<Joint>, eps: real, u: real, x: real)
    requires 0.0 <= eps
    requires var b := CheckedBounds(SDdotMin(js, eps, u), SDdotMax(js, eps, u), eps);
             b.Feasible? && (b.lo.Bounded? ==> b.lo.v <= x) && Under(x, b.hi)
    ensures var b := CheckedBounds(SDdotMin(js, eps, u), SDdotMax(js, eps, u), eps);
            !Crossed(b.lo, b.hi, 0.0)
    ensures forall i :: 0 <= i < |js| && Moving(js[i], eps) ==> NearlyMeetsLimit(js[i], u, x, eps)
    ensures Under(x, SDdotMax(js, eps, u))
  {
    SDdotMinIsGreatest(js, eps, u);
    SDdotMaxIsLeast(js, eps, u);
    forall i | 0 <= i < |js| && Moving(js[i], eps)
      ensures NearlyMeetsLimit(js[i], u, x, eps)
    {
      NearBounds(js[i], u, x, eps);
    }
  }

  /** x lies between two bounds. */
  predicate Between(lo: Limit, x: real, hi: Limit) {
    (lo.Bounded? ==> lo.v <= x) && Under(x, hi)
  }

  /** The checked bounds are refused exactly where the bounds cross by more than epsilon. Where these are more than
      epsilon apart they admit exactly what keeps every moving joint within its limit; and where they are
      not, one value, the lower of the two. */
  lemma CheckedBoundsAdmit(js: seq<Joint>, eps: real, u: real, x: real)
    requires 0.0 <= eps && SDdotMin(js, eps, u).Bounded? && SDdotMax(js, eps, u).Bounded?
    ensures var lo, hi := SDdotMin(js, eps, u), SDdotMax(js, eps, u);
            var b := CheckedBounds(lo, hi, eps);
            (b.Infeasible? <==> eps < lo.v - hi.v) &&
            (eps < hi.v - lo.v ==>
               b.Feasible? && (Between(b.lo, x, b.hi) <==> forall i :: 0 <= i < |js| && Moving(js[i], eps) ==> MeetsLimit(js[i], u, x))) &&
            (b.Feasible? && hi.v - lo.v <= eps ==> (Between(b.lo, x, b.hi) <==> x == Min(lo.v, hi.v)))
  {
    hide SDdotMin, SDdotMax, Moving, MeetsLimit;
    InsideBounds(js, eps, u, x);
  }

  /** Missing one joint's bounds by at most eps costs that joint at most eps*|q'|. */
  lemma NearBounds(j: Joint, u: real, x: real, eps: real)
    requires j.dq != 0.0 && 0.0 <= eps
    requires LowerFrom(j, u) - eps <= x <= UpperFrom(j, u) + eps
    ensures NearlyMeetsLimit(j, u, x, eps)
  {
    var wide := j.(aMax := j.aMax + eps * Abs(j.dq));
    AffineForms(j, u);
    AffineForms(wide, u);
    assert Budget(wide) == Budget(j) + eps by {
      var d := Abs(j.dq);
      assert (Budget(j) + eps) * d == Budget(j) * d + eps * d;
      DivIs(wide.aMax, d, Budget(j) + eps);
    }
    JointBoundsMeaning(wide, u, x);
  }

  // ----- the joint velocity limit curve (Eq. 36) -----

  function OwnVelocityLimit(j: Joint): real
    requires j.dq != 0.0
  {
    j.vMax / Abs(j.dq)
  }

  /** The least of the moving joints' own limits over the first n joints, and the lowest-numbered
      joint that sets it (joint 0 where nothing moves). */
  ghost predicate IsVelocityLimit(js: seq<Joint>, eps: real, n: nat, limit: Limit, limiting: nat)
    requires n <= |js|
  {
    (forall i :: 0 <= i < n && Moving(js[i], eps) ==> limit.Bounded? && limit.v <= OwnVelocityLimit(js[i])) &&
    (limit.Unbounded? ==> limiting == 0) &&
    (limit.Bounded? ==>
       limiting < n && Moving(js[limiting], eps) && limit.v == OwnVelocityLimit(js[limiting]) &&
       forall i :: 0 <= i < limiting && Moving(js[i], eps) ==> limit.v < OwnVelocityLimit(js[i]))
  }

  method ComputeJointVelocityLimit(js: seq<Joint>, eps: real) returns (limit: Limit, limiting: nat)
    ensures IsVelocityLimit(js, eps, |js|, limit, limiting)
  {
    limit, limiting := Unbounded, 0;
    for i := 0 to |js|
      invariant IsVelocityLimit(js, eps, i, limit, limiting)
    {
      if Moving(js[i], eps) {
        var own := OwnVelocityLimit(js[i]);
        if limit.Unbounded? || own < limit.v {
          limit, limiting := Bounded(own), i;
        }
      }
    }
  }

  predicate WithinVelocity(j: Joint, sDot: real) {
    Abs(j.dq) * sDot <= j.vMax
  }

  /** A path velocity is under the curve exactly when every moving joint is within its own
      velocity limit. */
  lemma VelocityCurve(js: seq<Joint>, eps: real, limit: Limit, limiting: nat, sDot: real)
    requires IsVelocityLimit(js, eps, |js|, limit, limiting)
    ensures Under(sDot, limit) <==>
            forall i :: 0 <= i < |js| && Moving(js[i], eps) ==> WithinVelocity(js[i], sDot)
  {
    forall i | 0 <= i < |js| && Moving(js[i], eps)
      ensures WithinVelocity(js[i], sDot) <==> sDot <= OwnVelocityLimit(js[i])
    {
      DivGe(js[i].vMax, sDot, Abs(js[i].dq));
    }
  }
}
