/** The phase plane that trajectory generation integrates through, and one step of forward
    integration in it (trajectory.cpp, `integrate_forward_from`). The path geometry, the limit curves
    and the switching-point search are functions of arc length; everything the step does with them is
    spelled out. */
module PhasePlane {
  import opened Reals
  import opened Search
  import opened Limits
  import opened Trajectory
  import PathCursor

  datatype Kind =
    | PathBegin
    | DiscontinuousCurvature
    | NondifferentiableExtremum
    | VelocityEscape
    | DiscontinuousVelocityLimit
    | PathEnd

  /** Where backward integration starts, and the accelerations mandated there, if any. */
  datatype SwitchingPoint = SwitchingPoint(s: real, sDot: real, kind: Kind, forward: Accel, backward: Accel)

  /** A numerical slope test: it holds, it does not, or its evaluation throws. */
  datatype Verdict = Yes | No | Throws

  datatype Plane = Plane(
    spans: PathCursor.Spans,
    eps: real,
    delta: real,
    wall: real,                            // the supremum of the velocity curve over any path
    joints: real -> seq<Joint>,            // the geometry a cursor at s reads
    jointsBehind: real -> seq<Joint>,      // at a segment start, the geometry of the segment ending there
    acc: real -> Limit,                    // the acceleration limit curve
    vel: real -> Limit,                    // the combined velocity limit curve
    slope: real -> Option<real>,           // the velocity curve's slope
    tangentBreak: real -> bool,            // the tangents on the two sides of a boundary differ
    accSink: real -> Verdict,              // the acceleration curve falls faster than can be followed
    velTrapped: real -> Verdict,           // the velocity curve falls faster than can be followed
    search: real -> Option<SwitchingPoint> // find_switching_point from a cursor position
  ) {
    function Length(): real {
      spans.length
    }

    /** The point is at most eps above both limit curves. */
    predicate Safe(s: real, v: real) {
      UnderBy(v, acc(s), eps) && UnderBy(v, vel(s), eps)
    }

    predicate UnderCurves(s: real, v: real) {
      Under(v, acc(s)) && Under(v, vel(s))
    }

    /** What the switching-point search promises from position s: a point not behind it, within eps
        of both curves, with the path end reported at rest and without mandated accelerations. */
    ghost predicate SearchOk(s: real, sp: SwitchingPoint) {
      s <= sp.s <= Length() && 0.0 <= sp.sDot && Safe(sp.s, sp.sDot) && !sp.kind.PathBegin? &&
      (sp.kind.PathEnd? ==> sp.s == Length() && sp.sDot == 0.0 && sp.forward.Unset? && sp.backward.Unset?)
    }

    ghost predicate Valid() {
      spans.Valid() && 0.0 < eps && 0.0 < delta &&
      (forall s :: acc(s).Bounded? ==> 0.0 <= acc(s).v) &&
      (forall s :: vel(s).Bounded? ==> 0.0 <= vel(s).v) &&
      (forall s :: SomeMoves(joints(s), eps)) &&
      (forall s :: SomeMoves(jointsBehind(s), eps)) &&
      (forall s :: 0.0 <= s < Length() && search(s).Some? ==> SearchOk(s, search(s).value))
    }

    function SegmentIndex(s: real): nat
    {
      var found := PathCursor.Find(spans, s);
      if found.Segment? then found.index else 0
    }

    function SegmentEnd(s: real): real
      requires spans.starts != []
    {
      var i := SegmentIndex(s);
      if i < |spans.starts| then spans.End(i) else Length()
    }

    function SegmentStart(s: real): real
      requires spans.starts != []
    {
      var i := SegmentIndex(s);
      if i < |spans.starts| then spans.starts[i] else 0.0
    }
  }

  /** A path tangent is a unit vector, so at least one joint moves along it. */
  ghost predicate SomeMoves(js: seq<Joint>, eps: real) {
    exists i :: 0 <= i < |js| && Moving(js[i], eps)
  }

  lemma MovingBounds(js: seq<Joint>, eps: real, u: real)
    requires SomeMoves(js, eps)
    ensures SDdotMin(js, eps, u).Bounded? && SDdotMax(js, eps, u).Bounded?
  {
    SDdotMinIsGreatest(js, eps, u);
    SDdotMaxIsLeast(js, eps, u);
  }

  /** The segment at s is the one the path cursor finds there. */
  ghost predicate LiesOn(plane: Plane, s: real) {
    var i := plane.SegmentIndex(s);
    i < |plane.spans.starts| && PathCursor.Find(plane.spans, s) == PathCursor.Segment(i) &&
    plane.SegmentStart(s) == plane.spans.starts[i] && plane.SegmentEnd(s) == plane.spans.End(i)
  }

  lemma OnSegment(plane: Plane, s: real)
    requires plane.spans.Valid() && 0.0 <= s < plane.Length()
    ensures plane.SegmentStart(s) <= s < plane.SegmentEnd(s) <= plane.Length()
    ensures 0.0 <= plane.SegmentStart(s) && LiesOn(plane, s)
  {
    hide PathCursor.Find, UpperBound;
    PathCursor.FindIsTheSpan(plane.spans, 0, s);
    var i := PathCursor.Find(plane.spans, s).index;
    PathCursor.FindIsTheSpan(plane.spans, i, s);
    var starts := plane.spans.starts;
    if i + 1 < |starts| - 1 {
      assert starts[i + 1] < starts[|starts| - 1];
    }
    if 0 < i {
      assert starts[0] < starts[i];
    }
  }

  /** Up to a segment's end the index stays the same. */
  lemma SameSegment(plane: Plane, s: real, t: real)
    requires plane.spans.Valid() && 0.0 <= s <= t < plane.SegmentEnd(s) && s < plane.Length()
    ensures plane.SegmentIndex(t) == plane.SegmentIndex(s)
  {
    hide PathCursor.Find, UpperBound;
    OnSegment(plane, s);
    PathCursor.FindIsTheSpan(plane.spans, 0, s);
    var i := PathCursor.Find(plane.spans, s).index;
    PathCursor.FindIsTheSpan(plane.spans, i, s);
    PathCursor.FindIsTheSpan(plane.spans, i, t);
  }

  lemma StartsBefore(plane: Plane, s: real)
    requires plane.spans.Valid() && 0.0 <= s <= plane.Length()
    ensures 0.0 <= plane.SegmentStart(s) <= s && LiesOn(plane, s)
  {
    hide PathCursor.Find, UpperBound;
    PathCursor.FindIsTheSpan(plane.spans, 0, s);
    var i := PathCursor.Find(plane.spans, s).index;
    PathCursor.FindIsTheSpan(plane.spans, i, s);
    if 0 < i {
      assert plane.spans.starts[0] < plane.spans.starts[i];
    }
  }

  datatype Phase = Phase(s: real, v: real)

  // ----- the Euler step -----

  /** Where `euler_step` goes. */
  function EulerPoint(p: Phase, a: real, dt: real): (r: Phase)
    requires 0.0 <= p.v
    ensures 0.0 <= r.v
  {
    var v1 := p.v + a * dt;
    if v1 < 0.0 then
      assert a != 0.0;
      Phase(p.s + Midpoint(p.v, 0.0) * (-p.v / a), 0.0)
    else Phase(p.s + p.v * dt + 0.5 * a * dt * dt, v1)
  }

  /** `euler_step`; None is its throw for insufficient progress. */
  function EulerStep(p: Phase, a: real, dt: real, eps: real): (r: Option<Phase>)
    requires 0.0 <= p.v
    ensures r.Some? ==> 0.0 <= r.value.v
  {
    var next := EulerPoint(p, a, dt);
    if EpsEq(next.s, p.s, eps) && EpsEq(next.v, p.v, eps) then None else Some(next)
  }

  /** Motion from p to q under a constant acceleration over a time. */
  ghost predicate Moves(p: Phase, a: real, t: real, q: Phase) {
    q.v == p.v + a * t && q.s == p.s + Midpoint(p.v, q.v) * t
  }

  /** The step is that motion over the whole of dt, or up to where it comes to rest if that is sooner. It
      throws exactly when the motion leaves both coordinates within epsilon of where they were. */
  lemma EulerStepExactly(p: Phase, a: real, dt: real, eps: real) returns (t: real, q: Phase)
    requires 0.0 <= p.v
    ensures Moves(p, a, t, q) && if 0.0 <= p.v + a * dt then t == dt else q.v == 0.0
    ensures EulerStep(p, a, dt, eps) == if EpsEq(q.s, p.s, eps) && EpsEq(q.v, p.v, eps) then None else Some(q)
  {
    q := EulerPoint(p, a, dt);
    t := EulerTime(p, a, dt, q);
  }

  lemma EulerTime(p: Phase, a: real, dt: real, q: Phase) returns (t: real)
    requires 0.0 <= p.v && q == EulerPoint(p, a, dt)
    ensures Moves(p, a, t, q) && if 0.0 <= p.v + a * dt then t == dt else q.v == 0.0
  {
    if 0.0 <= p.v + a * dt {
      t := dt;
      var x := a * dt;
      assert Midpoint(p.v, p.v + x) * dt == p.v * dt + 0.5 * (x * dt);
      assert 0.5 * a * dt * dt == 0.5 * (x * dt);
    } else {
      assert a != 0.0;
      t := -p.v / a;
      assert t * a == -p.v;
    }
  }

  /** Both branches, including the one cut short at rest, are constant acceleration a over the
      distance they report. */
  lemma EulerIsConstantAcceleration(p: Phase, a: real, dt: real, eps: real)
    requires 0.0 <= p.v && EulerStep(p, a, dt, eps).Some?
    ensures var q := EulerStep(p, a, dt, eps).value; q.v * q.v - p.v * p.v == 2.0 * a * (q.s - p.s)
  {
    var v, v1 := p.v, p.v + a * dt;
    if v1 < 0.0 {
      var t := -v / a;
      assert t * a == -v;
      assert 2.0 * a * (v / 2.0 * t) == v * (t * a);
    } else {
      var x := a * dt;
      assert 2.0 * a * (v * dt + 0.5 * a * dt * dt) == 2.0 * v * x + x * x;
      assert v1 * v1 == v * v + 2.0 * v * x + x * x;
    }
  }

  /** A backward Euler step from a non-negative velocity always descends. */
  lemma BackwardEulerDescends(p: Phase, a: real, dt: real, eps: real)
    requires 0.0 <= p.v && dt < 0.0 && 0.0 < eps && EulerStep(p, a, dt, eps).Some?
    ensures EulerStep(p, a, dt, eps).value.s < p.s
  {
    var v, h := p.v, -dt;
    var x: real :| x == a * h;
    Reversed(v, a, dt, h, x);
    if v - x < 0.0 {
      CutShort(v, a, h);
    } else {
      FullStep(v, x, h);
    }
  }

  lemma Reversed(v: real, a: real, dt: real, h: real, x: real)
    requires h == -dt && x == a * h
    ensures a * dt == -x && v * dt + 0.5 * a * dt * dt == -(v * h) + 0.5 * (x * h)
  {
    assert a * dt == -x;
    assert a * dt * dt == x * h;
    assert v * dt == -(v * h);
  }

  lemma CutShort(v: real, a: real, h: real)
    requires 0.0 <= v < a * h && 0.0 < h
    ensures a != 0.0 && v / 2.0 * (-v / a) <= 0.0 && (0.0 < v ==> v / 2.0 * (-v / a) < 0.0)
  {
    PositiveFactor(a, h);
    DivLe(-v, 0.0, a);
    var t := -v / a;
    assert t * a == -v;
    assert (v / 2.0) * (-t) >= 0.0;
    if 0.0 < v {
      assert t != 0.0;
      MulPos(v / 2.0, -t);
    }
  }

  lemma PositiveFactor(a: real, h: real)
    requires 0.0 < a * h && 0.0 < h
    ensures 0.0 < a
  {
    var x := a * h;
    DivIs(x, h, a);
    MulPos(x, 1.0 / h);
  }

  lemma FullStep(v: real, x: real, h: real)
    requires 0.0 <= v && x <= v && 0.0 < h
    ensures -(v * h) + 0.5 * (x * h) <= 0.0
    ensures -(v * h) + 0.5 * (x * h) == 0.0 ==> v == 0.0 && x == 0.0
  {
    var y := v - x / 2.0;
    assert y * h == v * h - 0.5 * (x * h);
    if 0.0 < y {
      MulPos(y, h);
    }
  }

  // ----- quantizing to a segment boundary -----

  /** Forward steps that reach, or fall within two epsilons of, the segment's end land on it. */
  function SnapForward(cur: Phase, next: Phase, end: real, eps: real): Phase
    requires cur.s < next.s
  {
    if next.s - end >= -2.0 * eps then Phase(end, Lerp(cur.v, next.v, (end - cur.s) / (next.s - cur.s))) else next
  }

  function SnapBackward(cur: Phase, next: Phase, start: real, eps: real): Phase
    requires next.s < cur.s
  {
    if cur.s != start && next.s - start <= 2.0 * eps
    then Phase(start, Lerp(cur.v, next.v, (start - cur.s) / (next.s - cur.s))) else next
  }

  /** q lies on the line through p and n. */
  ghost predicate OnLine(p: Phase, n: Phase, q: Phase) {
    (q.v - p.v) * (n.s - p.s) == (n.v - p.v) * (q.s - p.s)
  }

  /** A step that ends within two epsilons of the boundary, or past it, is moved along its line to the boundary,
      and any other is left as it is; a backward step that started on the boundary is too. */
  lemma SnapsExactly(cur: Phase, next: Phase, back: Phase, end: real, start: real, eps: real)
    requires cur.s < next.s && back.s < cur.s
    ensures var q := SnapForward(cur, next, end, eps);
            if end - 2.0 * eps <= next.s then q.s == end && OnLine(cur, next, q) else q == next
    ensures var q := SnapBackward(cur, back, start, eps);
            if back.s <= start + 2.0 * eps && cur.s != start then q.s == start && OnLine(cur, back, q) else q == back
  {
    LerpIsOnLine(cur, next, end);
    LerpIsOnLine(cur, back, start);
  }

  lemma LerpIsOnLine(p: Phase, n: Phase, s: real)
    requires n.s != p.s
    ensures OnLine(p, n, Phase(s, Lerp(p.v, n.v, (s - p.s) / (n.s - p.s))))
  {
    var d, t := n.s - p.s, (s - p.s) / (n.s - p.s);
    assert t * d == s - p.s;
    assert t * (n.v - p.v) * d == (n.v - p.v) * (t * d);
  }

  /** When the step stopped short of the boundary the snap extrapolates, and then the snapped velocity
      is negative exactly when the velocity lost over the step, carried on to the boundary, exceeds
      the velocity the step began with. */
  lemma SnapCanGoNegative(cur: Phase, next: Phase, end: real, eps: real)
    requires cur.s < next.s && next.s - end >= -2.0 * eps
    ensures SnapForward(cur, next, end, eps).v < 0.0 <==>
            cur.v * (next.s - cur.s) < (cur.v - next.v) * (end - cur.s)
  {
    var d := next.s - cur.s;
    var t := (end - cur.s) / d;
    assert t * d == end - cur.s;
    var x := cur.v + t * (next.v - cur.v);
    LerpTimes(cur.v, next.v, t, d, end - cur.s);
    if x < 0.0 {
      MulPos(-x, d);
      assert (-x) * d == -(x * d);
    } else {
      assert 0.0 <= x * d;
    }
  }

  /** The mean velocity over the snapped step is zero exactly when that loss is twice the starting
      velocity. */
  lemma SnapStallsExactly(cur: Phase, next: Phase, end: real, eps: real)
    requires cur.s < next.s && next.s - end >= -2.0 * eps
    ensures Midpoint(cur.v, SnapForward(cur, next, end, eps).v) == 0.0 <==>
            2.0 * cur.v * (next.s - cur.s) == (cur.v - next.v) * (end - cur.s)
  {
    var d := next.s - cur.s;
    var t := (end - cur.s) / d;
    assert t * d == end - cur.s;
    var x := Lerp(cur.v, next.v, t);
    LerpTimes(cur.v, next.v, t, d, end - cur.s);
    MeanVanishes(cur.v, x, d, (cur.v - next.v) * (end - cur.s));
  }

  lemma LerpTimes(v: real, w: real, t: real, d: real, part: real)
    requires t * d == part
    ensures (v + t * (w - v)) * d == v * d - (v - w) * part
  {
    var e := w - v;
    assert (t * e) * d == (t * d) * e;
  }

  lemma MeanVanishes(v: real, x: real, d: real, loss: real)
    requires 0.0 < d && x * d == v * d - loss
    ensures Midpoint(v, x) == 0.0 <==> 2.0 * v * d == loss
  {
    var y := v + x;
    assert y * d == 2.0 * v * d - loss;
    ZeroFactor(y, d);
  }

  lemma ZeroFactor(y: real, d: real)
    requires 0.0 < d
    ensures y * d == 0.0 <==> y == 0.0
  {
  }

  /** Nothing in the step's own checks rules that out: this Euler step comes to rest just short of the
      boundary, and the snap extrapolates it to minus its starting velocity, a zero mean velocity
      over the step, for which the source's dt is a division by zero. */
  lemma SnapCanStall()
    ensures var cur := Phase(0.0, 2.0);
            EulerStep(cur, -2.0, 1.0, 0.5) == Some(Phase(1.0, 0.0)) &&
            SnapForward(cur, Phase(1.0, 0.0), 2.0, 0.5) == Phase(2.0, -2.0)
  {
  }

  lemma SnapForwardAhead(cur: Phase, next: Phase, end: real, eps: real)
    requires cur.s < next.s && cur.s < end && 0.0 < eps
    ensures cur.s < SnapForward(cur, next, end, eps).s <= end
  {
  }

  /** What a caller can check before the snap: unless the step brakes and stops short of the boundary, the
      snapped velocity is not negative. */
  lemma SnapStaysForward(cur: Phase, a: real, dt: real, end: real, eps: real)
    requires 0.0 <= cur.v && 0.0 < dt && EulerStep(cur, a, dt, eps).Some?
    requires cur.s < end && cur.s < EulerStep(cur, a, dt, eps).value.s
    requires 0.0 <= a || end <= EulerStep(cur, a, dt, eps).value.s
    ensures 0.0 <= SnapForward(cur, EulerStep(cur, a, dt, eps).value, end, eps).v
  {
    var next := EulerStep(cur, a, dt, eps).value;
    if 0.0 <= a {
      MulMono(0.0, a, dt);
    }
    hide EulerStep;
    LerpStays(cur.v, next.v, end - cur.s, next.s - cur.s);
  }

  lemma LerpStays(x: real, y: real, part: real, whole: real)
    requires 0.0 <= x && 0.0 <= y && 0.0 < part && 0.0 < whole && (x <= y || part <= whole)
    ensures 0.0 <= Lerp(x, y, part / whole)
    ensures 0.0 < y && x == 0.0 ==> 0.0 < Lerp(x, y, part / whole)
  {
    var t := part / whole;
    Portion(part, whole, t);
    var d := y - x;
    if x <= y {
      MulMono(0.0, t, d);
    } else {
      MulMono(t, 1.0, -d);
      assert t * -d == -(t * d);
    }
    if x < y {
      MulPos(t, d);
    }
    assert Lerp(x, y, t) == x + t * d;
  }

  lemma Portion(part: real, whole: real, t: real)
    requires 0.0 < part && 0.0 < whole && t == part / whole
    ensures 0.0 < t && (part <= whole ==> t <= 1.0)
  {
    DivGe(part, 0.0, whole);
    DivLe(part, 1.0, whole);
    assert t * whole == part;
  }

  /** A step that moves from rest arrives moving, snapped or not. */
  lemma FromRestRises(cur: Phase, a: real, dt: real, end: real, eps: real)
    requires cur.v == 0.0 && 0.0 < dt && EulerStep(cur, a, dt, eps).Some?
    requires cur.s < end && cur.s < EulerStep(cur, a, dt, eps).value.s
    ensures 0.0 < SnapForward(cur, EulerStep(cur, a, dt, eps).value, end, eps).v
  {
    var next := EulerStep(cur, a, dt, eps).value;
    EulerFromRest(cur, a, dt, eps);
    hide EulerStep;
    LerpStays(cur.v, next.v, end - cur.s, next.s - cur.s);
  }

  lemma EulerFromRest(cur: Phase, a: real, dt: real, eps: real)
    requires cur.v == 0.0 && EulerStep(cur, a, dt, eps).Some? && EulerStep(cur, a, dt, eps).value.s != cur.s
    ensures 0.0 < EulerStep(cur, a, dt, eps).value.v
  {
    var x := a * dt;
    assert 0.5 * a * dt * dt == 0.5 * (x * dt);
    assert x == 0.0 ==> x * dt == 0.0;
  }

  /** The same for a backward step and the boundary behind it. */
  lemma SnapStaysBackward(cur: Phase, a: real, dt: real, start: real, eps: real)
    requires 0.0 <= cur.v && dt < 0.0 && EulerStep(cur, a, dt, eps).Some?
    requires start <= cur.s && EulerStep(cur, a, dt, eps).value.s < cur.s
    requires a <= 0.0 || EulerStep(cur, a, dt, eps).value.s <= start
    ensures 0.0 <= SnapBackward(cur, EulerStep(cur, a, dt, eps).value, start, eps).v
  {
    var next := EulerStep(cur, a, dt, eps).value;
    if a <= 0.0 {
      MulMono(0.0, -a, -dt);
      assert (-a) * (-dt) == a * dt;
    }
    hide EulerStep;
    if cur.s != start {
      OppositeQuotient(start - cur.s, next.s - cur.s);
      LerpStays(cur.v, next.v, cur.s - start, cur.s - next.s);
    }
  }

  lemma FromRestRisesBackward(cur: Phase, a: real, dt: real, start: real, eps: real)
    requires cur.v == 0.0 && dt < 0.0 && EulerStep(cur, a, dt, eps).Some?
    requires start <= cur.s && EulerStep(cur, a, dt, eps).value.s < cur.s
    ensures 0.0 < SnapBackward(cur, EulerStep(cur, a, dt, eps).value, start, eps).v
  {
    var next := EulerStep(cur, a, dt, eps).value;
    EulerFromRest(cur, a, dt, eps);
    hide EulerStep;
    if cur.s != start {
      OppositeQuotient(start - cur.s, next.s - cur.s);
      LerpStays(cur.v, next.v, cur.s - start, cur.s - next.s);
    }
  }

  lemma OppositeQuotient(a: real, b: real)
    requires b != 0.0
    ensures a / b == (-a) / (-b)
  {
    var q := a / b;
    assert q * b == a;
    DivIs(-a, -b, q);
  }

  // ----- choosing an acceleration -----

  datatype Selection =
    | Free(a: real)
    | Following(a: real, lo: real, hi: real)  // along the velocity curve, with the bounds there
    | SelectionThrows

  function SelectAcceleration(plane: Plane, cur: Phase, mandated: Accel, velHere: Limit): Selection {
    if mandated.Known? then Free(mandated.a)
    else
      var js := plane.joints(cur.s);
      var bounds := CheckedBounds(SDdotMin(js, plane.eps, Square(cur.v)), SDdotMax(js, plane.eps, Square(cur.v)), plane.eps);
      if bounds.Infeasible? || bounds.lo.Unbounded? || bounds.hi.Unbounded? then SelectionThrows
      else
        var lo, hi := bounds.lo.v, bounds.hi.v;
        if velHere.Bounded? && EpsEq(cur.v, velHere.v, plane.eps) then
          var slope := plane.slope(cur.s);
          if slope.None? then SelectionThrows
          else
            var tangent := slope.value * cur.v;
            if tangent < lo then Free(lo)
            else if tangent < hi then Following(tangent, lo, hi)
            else Free(hi)
        else Free(hi)
  }

  /** The checked bounds at cur. */
  ghost predicate HasBounds(plane: Plane, cur: Phase, lo: real, hi: real) {
    var js := plane.joints(cur.s);
    CheckedBounds(SDdotMin(js, plane.eps, Square(cur.v)), SDdotMax(js, plane.eps, Square(cur.v)), plane.eps) ==
    Feasible(Bounded(lo), Bounded(hi))
  }

  ghost predicate OnVelocityCurve(plane: Plane, p: Phase) {
    plane.vel(p.s).Bounded? && EpsEq(p.v, plane.vel(p.s).v, plane.eps)
  }

  /** The acceleration along the velocity curve. */
  ghost predicate AlongCurve(plane: Plane, cur: Phase, a: real) {
    plane.slope(cur.s).Some? && a == plane.slope(cur.s).value * cur.v
  }

  /** The acceleration to be taken from cur: the one mandated; on the velocity curve the one along it, clamped
      to the checked bounds; and elsewhere the upper bound. */
  ghost predicate Chosen(plane: Plane, cur: Phase, mandated: Accel, a: real) {
    if mandated.Known? then a == mandated.a
    else exists lo, hi :: HasBounds(plane, cur, lo, hi) && ChosenBetween(plane, cur, lo, hi, a)
  }

  ghost predicate ChosenBetween(plane: Plane, cur: Phase, lo: real, hi: real, a: real) {
    if OnVelocityCurve(plane, cur) then exists along :: AlongCurve(plane, cur, along) && a == Max(lo, Min(along, hi))
    else a == hi
  }

  /** On the velocity curve, which rises or falls no faster than the bounds allow. */
  ghost predicate Follows(plane: Plane, cur: Phase, mandated: Accel, lo: real, hi: real) {
    mandated.Unset? && OnVelocityCurve(plane, cur) && HasBounds(plane, cur, lo, hi) &&
    exists along :: AlongCurve(plane, cur, along) && lo <= along < hi
  }

  /** The selection is the acceleration to be taken, and there is one exactly when it does not throw. */
  lemma SelectionIsChosen(plane: Plane, cur: Phase, mandated: Accel, selection: Selection, a: real)
    requires plane.Valid() && selection == SelectAcceleration(plane, cur, mandated, plane.vel(cur.s))
    ensures Chosen(plane, cur, mandated, a) <==> !selection.SelectionThrows? && a == selection.a
  {
    hide SDdotMin, SDdotMax, SomeMoves;
    MovingBounds(plane.joints(cur.s), plane.eps, Square(cur.v));
    if mandated.Unset? && !selection.SelectionThrows? {
      var lo, hi := BoundsOf(plane, cur);
      assert ChosenBetween(plane, cur, lo, hi, selection.a) by {
        if OnVelocityCurve(plane, cur) {
          assert AlongCurve(plane, cur, plane.slope(cur.s).value * cur.v);
        }
      }
    }
  }

  lemma BoundsOf(plane: Plane, cur: Phase) returns (lo: real, hi: real)
    requires plane.Valid()
    requires var js := plane.joints(cur.s);
             CheckedBounds(SDdotMin(js, plane.eps, Square(cur.v)), SDdotMax(js, plane.eps, Square(cur.v)), plane.eps).Feasible?
    ensures HasBounds(plane, cur, lo, hi) && lo <= hi
  {
    hide SDdotMin, SDdotMax, SomeMoves;
    var js := plane.joints(cur.s);
    MovingBounds(js, plane.eps, Square(cur.v));
    var bounds := CheckedBounds(SDdotMin(js, plane.eps, Square(cur.v)), SDdotMax(js, plane.eps, Square(cur.v)), plane.eps);
    lo, hi := bounds.lo.v, bounds.hi.v;
  }

  /** It is marked as following exactly when the step follows the curve. */
  lemma SelectionFollows(plane: Plane, cur: Phase, mandated: Accel, selection: Selection, lo: real, hi: real)
    requires plane.Valid() && selection == SelectAcceleration(plane, cur, mandated, plane.vel(cur.s))
    ensures Follows(plane, cur, mandated, lo, hi) <==> selection.Following? && lo == selection.lo && hi == selection.hi
  {
    hide SDdotMin, SDdotMax, SomeMoves;
    MovingBounds(plane.joints(cur.s), plane.eps, Square(cur.v));
    if selection.Following? {
      assert AlongCurve(plane, cur, plane.slope(cur.s).value * cur.v);
    }
  }

  /** Some joint moves everywhere, so a selection fails only where the bounds are infeasible, or on the velocity
      curve where its slope is not to be had. */
  lemma SelectionFailsExactly(plane: Plane, cur: Phase, mandated: Accel, js: seq<Joint>, u: real)
    requires plane.Valid() && js == plane.joints(cur.s) && u == Square(cur.v)
    ensures SelectAcceleration(plane, cur, mandated, plane.vel(cur.s)).SelectionThrows? <==>
            mandated.Unset? &&
            (CheckedBounds(SDdotMin(js, plane.eps, u), SDdotMax(js, plane.eps, u), plane.eps).Infeasible? ||
             (plane.vel(cur.s).Bounded? && EpsEq(cur.v, plane.vel(cur.s).v, plane.eps) && plane.slope(cur.s).None?))
  {
    hide SDdotMin, SDdotMax, SomeMoves;
    MovingBounds(js, plane.eps, u);
  }

  /** While following, prefer a point on the curve if the step nearly reached it or could have. */
  function ClampToCurve(plane: Plane, cur: Phase, next: Phase, selection: Selection): (r: Phase)
    requires cur.s < next.s
    ensures r.s == next.s
    ensures r == next || plane.vel(next.s) == Bounded(r.v)
  {
    var limit := plane.vel(next.s);
    if !selection.Following? || limit.Unbounded? then next
    else if EpsEq(next.v, limit.v, plane.eps) then Phase(next.s, limit.v)
    else
      var slope := (limit.v - cur.v) / (next.s - cur.s);
      var a := slope * Midpoint(cur.v, limit.v);
      if selection.lo <= a <= selection.hi then Phase(next.s, limit.v) else next
  }

  /** A constant acceleration within the checked bounds at cur takes it to the target. */
  ghost predicate CanReach(plane: Plane, cur: Phase, target: Phase) {
    exists lo, hi, a :: HasBounds(plane, cur, lo, hi) && lo <= a <= hi && Connects(cur, target, a)
  }

  ghost predicate Connects(p: Phase, q: Phase, a: real) {
    q.v * q.v - p.v * p.v == 2.0 * a * (q.s - p.s)
  }

  /** Where a step that ended, or was snapped, at the given point is put: on the velocity curve if it follows
      that, and came within epsilon of it or could reach it. */
  ghost predicate Clamped(plane: Plane, cur: Phase, mandated: Accel, snapped: Phase, candidate: Phase) {
    candidate == if OntoCurve(plane, cur, mandated, snapped) then Phase(snapped.s, plane.vel(snapped.s).v) else snapped
  }

  ghost predicate OntoCurve(plane: Plane, cur: Phase, mandated: Accel, snapped: Phase) {
    (exists lo, hi :: Follows(plane, cur, mandated, lo, hi)) && plane.vel(snapped.s).Bounded? &&
    (OnVelocityCurve(plane, snapped) || CanReach(plane, cur, Phase(snapped.s, plane.vel(snapped.s).v)))
  }

  lemma ClampsExactly(plane: Plane, cur: Phase, mandated: Accel, snapped: Phase, selection: Selection)
    requires plane.Valid() && selection == SelectAcceleration(plane, cur, mandated, plane.vel(cur.s)) && cur.s < snapped.s
    ensures Clamped(plane, cur, mandated, snapped, ClampToCurve(plane, cur, snapped, selection))
  {
    hide SelectAcceleration, Plane.Valid, Connects, HasBounds, OnVelocityCurve, AlongCurve;
    if selection.Following? {
      SelectionFollows(plane, cur, mandated, selection, selection.lo, selection.hi);
      var limit := plane.vel(snapped.s);
      if limit.Bounded? {
        var target := Phase(snapped.s, limit.v);
        ReachExactly(plane, cur, mandated, selection, target, (limit.v - cur.v) / (snapped.s - cur.s) * Midpoint(cur.v, limit.v));
      }
      assert OnVelocityCurve(plane, snapped) <==> limit.Bounded? && EpsEq(snapped.v, limit.v, plane.eps) by {
        CurveTest(plane, snapped);
      }
    } else {
      forall lo, hi
        ensures !Follows(plane, cur, mandated, lo, hi)
      {
        SelectionFollows(plane, cur, mandated, selection, lo, hi);
      }
    }
  }

  lemma CurveTest(plane: Plane, p: Phase)
    ensures OnVelocityCurve(plane, p) <==> plane.vel(p.s).Bounded? && EpsEq(p.v, plane.vel(p.s).v, plane.eps)
  {
  }

  /** The one acceleration that connects cur to a target, and the test it is put to. */
  lemma ReachExactly(plane: Plane, cur: Phase, mandated: Accel, selection: Selection, target: Phase, a: real)
    requires cur.s < target.s && selection.Following? && Follows(plane, cur, mandated, selection.lo, selection.hi)
    requires a == (target.v - cur.v) / (target.s - cur.s) * Midpoint(cur.v, target.v)
    ensures CanReach(plane, cur, target) <==> selection.lo <= a <= selection.hi
  {
    hide AlongCurve, OnVelocityCurve, SDdotMin, SDdotMax;
    ConnectsExactly(cur, target, a, a);
    forall x | Connects(cur, target, x)
      ensures x == a
    {
      ConnectsExactly(cur, target, a, x);
    }
  }

  lemma ConnectsExactly(p: Phase, q: Phase, a: real, x: real)
    requires p.s < q.s && a == (q.v - p.v) / (q.s - p.s) * Midpoint(p.v, q.v)
    ensures Connects(p, q, x) <==> x == a
  {
    var d, g, m := q.s - p.s, q.v - p.v, Midpoint(p.v, q.v);
    var k := g / d;
    assert k * d == g;
    assert (k * m) * d == (k * d) * m;
    assert 2.0 * (g * m) == q.v * q.v - p.v * p.v;
    if Connects(p, q, x) {
      assert (x - a) * d == 0.0;
    }
  }

  // ----- finding the limit -----

  /** n rounds of halving between a point in bounds and one out of bounds. */
  function Halved(plane: Plane, next: Phase, breach: Phase, n: nat): (Phase, Phase) {
    if n == 0 then (next, breach)
    else
      var (lo, hi) := Halved(plane, next, breach, n - 1);
      var mid := Phase(Midpoint(lo.s, hi.s), Midpoint(lo.v, hi.v));
      if plane.UnderCurves(mid.s, mid.v) then (mid, hi) else (lo, mid)
  }

  lemma HalvedBetween(plane: Plane, next: Phase, breach: Phase, n: nat)
    requires next.s < breach.s
    ensures var (lo, hi) := Halved(plane, next, breach, n); next.s <= lo.s < hi.s <= breach.s
  {
    if 0 < n {
      HalvedBetween(plane, next, breach, n - 1);
    }
  }

  /** The first round after which the two are within epsilon. */
  ghost predicate HalvedUntilClose(plane: Plane, cur: Phase, over: Phase, next: Phase, breach: Phase) {
    exists n: nat :: Halved(plane, cur, over, n) == (next, breach) && FarUntil(plane, cur, over, n) &&
                     EpsEq(next.s, breach.s, plane.eps)
  }

  ghost predicate FarUntil(plane: Plane, cur: Phase, over: Phase, n: nat) {
    forall k: nat :: k < n ==> !EpsEq(Halved(plane, cur, over, k).0.s, Halved(plane, cur, over, k).1.s, plane.eps)
  }

  /** Bisect until next is in bounds, breach out of bounds, and the two within epsilon. */
  method BisectToCurve(plane: Plane, cur: Phase, over: Phase) returns (next: Phase, breach: Phase)
    requires plane.Valid() && cur.s < over.s && 0.0 <= cur.v && !plane.UnderCurves(over.s, over.v)
    ensures cur.s <= next.s < breach.s <= over.s && EpsEq(next.s, breach.s, plane.eps)
    ensures next == cur || (cur.s < next.s && plane.UnderCurves(next.s, next.v))
    ensures 0.0 <= next.v && !plane.UnderCurves(breach.s, breach.v)
    ensures next == cur || 0.0 < next.v
    ensures HalvedUntilClose(plane, cur, over, next, breach)
  {
    next, breach := cur, over;
    ghost var width, rounds: nat := over.s - cur.s, 0;
    while !EpsEq(next.s, breach.s, plane.eps)
      invariant cur.s <= next.s < breach.s <= over.s && width == breach.s - next.s
      invariant next == cur || (cur.s < next.s && plane.UnderCurves(next.s, next.v))
      invariant 0.0 <= next.v && !plane.UnderCurves(breach.s, breach.v)
      invariant next == cur || 0.0 < next.v
      invariant Halved(plane, cur, over, rounds) == (next, breach) && FarUntil(plane, cur, over, rounds)
      decreases (width / plane.eps).Floor
    {
      ViolationIsPositive(plane, breach);
      HalfWidth(width, plane.eps);
      var mid := Phase(Midpoint(next.s, breach.s), Midpoint(next.v, breach.v));
      if !plane.UnderCurves(mid.s, mid.v) {
        breach := mid;
      } else {
        next := mid;
      }
      width, rounds := width / 2.0, rounds + 1;
    }
  }

  lemma HalfWidth(width: real, eps: real)
    requires 0.0 < eps < width
    ensures 0 <= (width / 2.0 / eps).Floor < (width / eps).Floor
  {
    var y := width / eps;
    assert y * eps == width;
    DivGe(width, 1.0, eps);
    DivIs(width / 2.0, eps, y / 2.0);
  }

  lemma ViolationIsPositive(plane: Plane, breach: Phase)
    requires plane.Valid() && !plane.UnderCurves(breach.s, breach.v)
    ensures 0.0 < breach.v
  {
    hide SomeMoves;
  }

  datatype Probe =
    | ProbeThrows
    | Commit(next: Phase)                            // under both curves
    | LimitHit(next: Phase, breach: real, rest: bool) // stop at next; rest: the limit beyond is zero

  /** A point committed at rest where a limit curve is zero. */
  ghost predicate OnZeroCurve(plane: Plane, p: Phase) {
    p.v == 0.0 && (plane.acc(p.s) == Bounded(0.0) || plane.vel(p.s) == Bounded(0.0))
  }

  /** The candidate lies on another segment, whose tangent does not continue this one's. */
  ghost predicate Breaks(plane: Plane, cur: Phase, candidate: Phase) {
    plane.SegmentIndex(candidate.s) != plane.SegmentIndex(cur.s) && plane.tangentBreak(candidate.s)
  }

  /** Whether the velocity curve decides over a breach: the acceleration curve was not reached, or is no sink
      there and the velocity curve is violated too. */
  ghost predicate VelocityDecides(plane: Plane, next: Phase, breach: Phase) {
    OverAcceleration(plane, breach) ==> plane.accSink(next.s).No? && !Under(breach.v, plane.vel(breach.s))
  }

  ghost predicate OverAcceleration(plane: Plane, breach: Phase) {
    plane.acc(breach.s).Bounded? && plane.acc(breach.s).v <= breach.v
  }

  /** What becomes of a breach: it stops the pass where it left the segment, or where the curve it is judged by
      falls faster than can be followed; the slope tests may throw; and otherwise it is committed on the
      lower of the two curves. */
  ghost predicate Decides(plane: Plane, cur: Phase, next: Phase, breach: Phase, r: Probe) {
    if plane.SegmentIndex(breach.s) != plane.SegmentIndex(cur.s) ||
       (OverAcceleration(plane, breach) && plane.accSink(next.s).Yes?) ||
       (VelocityDecides(plane, next, breach) && plane.velTrapped(next.s).Yes?)
    then r == LimitHit(next, breach.s, plane.vel(breach.s) == Bounded(0.0))
    else if (OverAcceleration(plane, breach) && plane.accSink(next.s).Throws?) ||
            (VelocityDecides(plane, next, breach) && plane.velTrapped(next.s).Throws?)
      then r == ProbeThrows
      else r.Commit? && r.next.s == breach.s && MinLimit(plane.acc(breach.s), plane.vel(breach.s)) == Bounded(r.next.v)
  }

  /** The answer of the limit check. */
  ghost predicate Checked(plane: Plane, cur: Phase, candidate: Phase, r: Probe) {
    if Breaks(plane, cur, candidate) then r == LimitHit(candidate, candidate.s, true)
    else if plane.UnderCurves(candidate.s, candidate.v) then r == Commit(candidate)
    else exists next, breach :: HalvedUntilClose(plane, cur, candidate, next, breach) && Decides(plane, cur, next, breach, r)
  }

  /** The limit check on a candidate next point: the tangent break, then the curves, then the
      bisection and the source-or-sink decisions. */
  method CheckLimits(plane: Plane, cur: Phase, candidate: Phase) returns (r: Probe)
    requires plane.Valid() && 0.0 <= cur.s < candidate.s <= plane.Length() && 0.0 <= cur.v
    ensures Checked(plane, cur, candidate, r)
    ensures r.Commit? ==> cur.s < r.next.s <= candidate.s && plane.UnderCurves(r.next.s, r.next.v)
    ensures r.LimitHit? ==>
              cur.s <= r.next.s <= r.breach <= candidate.s &&
              (r.next == cur || (r.rest && r.next == candidate && r.breach == candidate.s) ||
               (cur.s < r.next.s < r.breach && plane.UnderCurves(r.next.s, r.next.v)))
    ensures r.LimitHit? && r.next.s == r.breach ==> r.rest
    ensures r.LimitHit? && r.rest ==> plane.tangentBreak(r.breach) || plane.vel(r.breach) == Bounded(0.0)
    ensures !r.ProbeThrows? ==> r.next == cur || r.next == candidate || 0.0 < r.next.v || OnZeroCurve(plane, r.next)
  {
    hide HalvedUntilClose, SomeMoves;
    var crosses := plane.SegmentIndex(candidate.s) != plane.SegmentIndex(cur.s);
    if crosses && plane.tangentBreak(candidate.s) {
      return LimitHit(candidate, candidate.s, true);
    }
    if plane.UnderCurves(candidate.s, candidate.v) {
      return Commit(candidate);
    }
    var next, breach := BisectToCurve(plane, cur, candidate);
    r := Decide(plane, cur, next, breach);
  }

  /** The decisions over a breach. */
  method Decide(plane: Plane, cur: Phase, next: Phase, breach: Phase) returns (r: Probe)
    requires plane.Valid() && !plane.UnderCurves(breach.s, breach.v) && 0.0 < breach.v
    ensures Decides(plane, cur, next, breach, r)
    ensures r.Commit? ==> r.next.s == breach.s && plane.UnderCurves(r.next.s, r.next.v) && (0.0 < r.next.v || OnZeroCurve(plane, r.next))
    ensures r.LimitHit? ==> r == LimitHit(next, breach.s, plane.vel(breach.s) == Bounded(0.0))
  {
    hide SomeMoves;
    var accThere, velThere := plane.acc(breach.s), plane.vel(breach.s);
    var hit := LimitHit(next, breach.s, velThere == Bounded(0.0));
    if plane.SegmentIndex(breach.s) != plane.SegmentIndex(cur.s) {
      return hit;
    }
    if accThere.Bounded? && breach.v >= accThere.v {
      match plane.accSink(next.s)
      case Throws => return ProbeThrows;
      case Yes => return hit;
      case No =>
        // Numerical overshoot: commit the breach clamped to the acceleration curve, unless the
        // velocity curve was violated too.
        if Under(breach.v, velThere) {
          return Commit(Phase(breach.s, accThere.v));
        }
    }
    match plane.velTrapped(next.s)
    case Throws => r := ProbeThrows;
    case Yes => r := hit;
    case No => r := Commit(Phase(breach.s, MinLimit(accThere, velThere).v));
  }

  /** The Euler step a probe from cur takes, and the acceleration it is taken under. */
  ghost predicate StepsTo(plane: Plane, cur: Phase, mandated: Accel, a: real, euler: Phase) {
    0.0 <= cur.v && cur.s < euler.s && EulerStep(cur, a, plane.delta, plane.eps) == Some(euler) &&
    Chosen(plane, cur, mandated, a)
  }

  lemma StepsToOnce(plane: Plane, cur: Phase, mandated: Accel, a: real, euler: Phase, b: real, other: Phase)
    requires StepsTo(plane, cur, mandated, a, euler) && StepsTo(plane, cur, mandated, b, other)
    ensures a == b && euler == other
  {
    hide EulerStep, SDdotMin, SDdotMax, OnVelocityCurve;
  }

  /** A probe's step braked and stopped short of the segment's end, and the snap carried it on to the end
      at a negative velocity. */
  ghost predicate Overshoots(plane: Plane, cur: Phase, mandated: Accel, next: Phase) {
    plane.spans.starts != [] && next.v < 0.0 &&
    exists a, euler :: StepsTo(plane, cur, mandated, a, euler) && a < 0.0 && euler.s < plane.SegmentEnd(cur.s) &&
                       next == SnapForward(cur, euler, plane.SegmentEnd(cur.s), plane.eps)
  }

  /** Nothing adjusts the step: it ends short of where it would be snapped, under both curves, and is not
      following one. */
  ghost predicate Undisturbed(plane: Plane, cur: Phase, mandated: Accel, euler: Phase) {
    plane.spans.starts != [] && euler.s - plane.SegmentEnd(cur.s) < -2.0 * plane.eps && plane.UnderCurves(euler.s, euler.v) &&
    forall lo, hi :: !Follows(plane, cur, mandated, lo, hi)
  }

  /** The point a probe puts to the limit check: the step under the chosen acceleration, snapped to the segment's
      end, and put on the velocity curve where it follows that. */
  ghost predicate Proposes(plane: Plane, cur: Phase, mandated: Accel, candidate: Phase) {
    plane.spans.starts != [] && cur.s < plane.Length() &&
    exists a, euler :: StepsTo(plane, cur, mandated, a, euler) &&
                       Clamped(plane, cur, mandated, SnapForward(cur, euler, plane.SegmentEnd(cur.s), plane.eps), candidate)
  }

  /** The answer of a probe: the limit check's for the point proposed, and a throw where there is none. */
  ghost predicate Probed(plane: Plane, cur: Phase, mandated: Accel, r: Probe) {
    if exists candidate :: Proposes(plane, cur, mandated, candidate)
    then exists candidate :: Proposes(plane, cur, mandated, candidate) && Checked(plane, cur, candidate, r)
    else r.ProbeThrows?
  }

  lemma ProposesOnce(plane: Plane, cur: Phase, mandated: Accel, c: Phase, d: Phase)
    requires Proposes(plane, cur, mandated, c) && Proposes(plane, cur, mandated, d)
    ensures c == d
  {
    hide Chosen, EulerStep, Clamped, SnapForward;
    var a, euler :| StepsTo(plane, cur, mandated, a, euler) &&
                    Clamped(plane, cur, mandated, SnapForward(cur, euler, plane.SegmentEnd(cur.s), plane.eps), c);
    var b, other :| StepsTo(plane, cur, mandated, b, other) &&
                    Clamped(plane, cur, mandated, SnapForward(cur, other, plane.SegmentEnd(cur.s), plane.eps), d);
    StepsToOnce(plane, cur, mandated, a, euler, b, other);
    ClampedOnce(plane, cur, mandated, SnapForward(cur, euler, plane.SegmentEnd(cur.s), plane.eps), c, d);
  }

  lemma ClampedOnce(plane: Plane, cur: Phase, mandated: Accel, snapped: Phase, c: Phase, d: Phase)
    requires Clamped(plane, cur, mandated, snapped, c) && Clamped(plane, cur, mandated, snapped, d)
    ensures c == d
  {
    hide OntoCurve;
  }

  /** The proposal: choose an acceleration, step, snap, and follow the curve if it is near. Also where the probe
      reads the curves. */
  method Propose(plane: Plane, cur: Phase, mandated: Accel, velHere: Limit) returns (candidate: Option<Phase>, probedAt: real)
    requires plane.Valid() && 0.0 <= cur.s <= plane.Length() && 0.0 <= cur.v && velHere == plane.vel(cur.s)
    ensures candidate.None? ==> forall c :: !Proposes(plane, cur, mandated, c)
    ensures candidate.Some? ==>
              Proposes(plane, cur, mandated, candidate.value) && cur.s < candidate.value.s <= plane.Length() &&
              (candidate.value.v < 0.0 ==> Overshoots(plane, cur, mandated, candidate.value)) &&
              (cur.v == 0.0 && candidate.value.v == 0.0 ==> OnZeroCurve(plane, candidate.value))
  {
    hide Chosen, Follows, Clamped, OnZeroCurve, Overshoots, SomeMoves;
    probedAt := cur.s;
    if cur.s == plane.Length() {
      // A switching point on the path's end that is not the end itself: a step from here makes no
      // progress, and the source throws.
      return None, probedAt;
    }
    var selection := SelectAcceleration(plane, cur, mandated, velHere);
    forall a
      ensures Chosen(plane, cur, mandated, a) <==> !selection.SelectionThrows? && a == selection.a
    {
      SelectionIsChosen(plane, cur, mandated, selection, a);
    }
    hide SelectAcceleration;
    if selection.SelectionThrows? {
      return None, probedAt;
    }
    var euler := EulerStep(cur, selection.a, plane.delta, plane.eps);
    if euler.None? || euler.value.s <= cur.s {
      return None, probedAt;
    }
    hide EulerStep, SnapForward, ClampToCurve;
    var end := plane.SegmentEnd(cur.s);
    OnSegment(plane, cur.s);
    SnapForwardAhead(cur, euler.value, end, plane.eps);
    var snapped := SnapForward(cur, euler.value, end, plane.eps);
    probedAt := snapped.s;
    candidate := Some(ClampToCurve(plane, cur, snapped, selection));
    ClampsExactly(plane, cur, mandated, snapped, selection);
    assert StepsTo(plane, cur, mandated, selection.a, euler.value);
    ArrivalVelocity(plane, cur, mandated, selection.a, euler.value, candidate.value);
  }

  /** One whole probe from cur. */
  method ProbeStep(plane: Plane, cur: Phase, mandated: Accel, velHere: Limit) returns (r: Probe, probedAt: real)
    requires plane.Valid() && 0.0 <= cur.s <= plane.Length() && 0.0 <= cur.v && velHere == plane.vel(cur.s)
    ensures Probed(plane, cur, mandated, r)
    ensures r.Commit? ==> cur.s < r.next.s <= plane.Length() && plane.UnderCurves(r.next.s, r.next.v)
    ensures r.LimitHit? ==>
              cur.s <= r.next.s <= r.breach <= plane.Length() && cur.s < plane.Length() &&
              (r.next == cur || r.rest || plane.UnderCurves(r.next.s, r.next.v))
    ensures r.LimitHit? && r.next.s == r.breach ==> r.rest
    ensures r.LimitHit? && r.rest ==> plane.tangentBreak(r.breach) || plane.vel(r.breach) == Bounded(0.0)
    ensures !r.ProbeThrows? && r.next.v < 0.0 ==> Overshoots(plane, cur, mandated, r.next)
    ensures !r.ProbeThrows? && r.next.s != cur.s && cur.v == 0.0 && r.next.v == 0.0 ==> OnZeroCurve(plane, r.next)
  {
    hide Proposes, Checked, Overshoots, SomeMoves, Plane.UnderCurves;
    var candidate;
    candidate, probedAt := Propose(plane, cur, mandated, velHere);
    match candidate
    case None => r := ProbeThrows;
    case Some(c) => r := CheckLimits(plane, cur, c);
  }

  lemma UndisturbedIsProbed(plane: Plane, cur: Phase, mandated: Accel, a: real, euler: Phase)
    requires plane.Valid() && 0.0 <= cur.s < plane.Length()
    requires StepsTo(plane, cur, mandated, a, euler) && Undisturbed(plane, cur, mandated, euler)
    ensures Probed(plane, cur, mandated, Commit(euler))
  {
    hide Chosen, EulerStep, Follows, SomeMoves, HalvedUntilClose, Decides, Plane.UnderCurves, OnVelocityCurve, CanReach;
    assert SnapForward(cur, euler, plane.SegmentEnd(cur.s), plane.eps) == euler;
    assert Clamped(plane, cur, mandated, euler, euler);
    assert Proposes(plane, cur, mandated, euler);
    SameSegment(plane, cur.s, euler.s);
  }

  /** All of this determines the answer. */
  lemma ProbedOnce(plane: Plane, cur: Phase, mandated: Accel, r: Probe, q: Probe)
    requires Probed(plane, cur, mandated, r) && Probed(plane, cur, mandated, q)
    ensures r == q
  {
    hide Proposes, Checked;
    if c :| Proposes(plane, cur, mandated, c) {
      forall d | Proposes(plane, cur, mandated, d)
        ensures d == c
      {
        ProposesOnce(plane, cur, mandated, d, c);
      }
      CheckedOnce(plane, cur, c, r, q);
    }
  }

  lemma CheckedOnce(plane: Plane, cur: Phase, candidate: Phase, r: Probe, q: Probe)
    requires Checked(plane, cur, candidate, r) && Checked(plane, cur, candidate, q)
    ensures r == q
  {
    hide HalvedUntilClose, Decides, Breaks, Plane.UnderCurves;
    if !Breaks(plane, cur, candidate) && !plane.UnderCurves(candidate.s, candidate.v) {
      var next, breach :| HalvedUntilClose(plane, cur, candidate, next, breach) && Decides(plane, cur, next, breach, r);
      var again, beyond :| HalvedUntilClose(plane, cur, candidate, again, beyond) && Decides(plane, cur, again, beyond, q);
      HalvedOnce(plane, cur, candidate, next, breach, again, beyond);
      DecidesOnce(plane, cur, next, breach, r, q);
    }
  }

  lemma HalvedOnce(plane: Plane, cur: Phase, over: Phase, next: Phase, breach: Phase, again: Phase, beyond: Phase)
    requires HalvedUntilClose(plane, cur, over, next, breach) && HalvedUntilClose(plane, cur, over, again, beyond)
    ensures next == again && breach == beyond
  {
    hide Halved;
  }

  lemma DecidesOnce(plane: Plane, cur: Phase, next: Phase, breach: Phase, r: Probe, q: Probe)
    requires Decides(plane, cur, next, breach, r) && Decides(plane, cur, next, breach, q)
    ensures r == q
  {
    hide OverAcceleration, VelocityDecides;
  }

  /** Where a probe stops: short of the path's end, and short of the breach unless it is to come to rest there; and
      that only where the tangent breaks or the velocity curve is zero. */
  lemma StopsShort(plane: Plane, cur: Phase, mandated: Accel, r: Probe)
    requires plane.Valid() && 0.0 <= cur.s && Probed(plane, cur, mandated, r) && r.LimitHit?
    ensures cur.s < plane.Length() && cur.s <= r.next.s <= r.breach <= plane.Length()
    ensures r.rest || r.next.s < r.breach
    ensures r.rest ==> plane.tangentBreak(r.breach) || plane.vel(r.breach) == Bounded(0.0)
  {
    hide EulerStep, Chosen, OntoCurve, SomeMoves, Plane.UnderCurves, Halved, FarUntil, SnapForward;
    OnSegment(plane, cur.s);
    var candidate :| Proposes(plane, cur, mandated, candidate) && Checked(plane, cur, candidate, r);
    var a, euler :| StepsTo(plane, cur, mandated, a, euler) &&
                    Clamped(plane, cur, mandated, SnapForward(cur, euler, plane.SegmentEnd(cur.s), plane.eps), candidate);
    SnapForwardAhead(cur, euler, plane.SegmentEnd(cur.s), plane.eps);
    forall n: nat
      ensures var (lo, hi) := Halved(plane, cur, candidate, n); cur.s <= lo.s < hi.s <= candidate.s
    {
      HalvedBetween(plane, cur, candidate, n);
    }
  }

  /** An undisturbed step is proposed as it is, and committed. */
  lemma UndisturbedCommits(plane: Plane, cur: Phase, mandated: Accel, a: real, euler: Phase, r: Probe)
    requires plane.Valid() && 0.0 <= cur.s < plane.Length()
    requires StepsTo(plane, cur, mandated, a, euler) && Undisturbed(plane, cur, mandated, euler)
    ensures Probed(plane, cur, mandated, r) <==> r == Commit(euler)
  {
    UndisturbedIsProbed(plane, cur, mandated, a, euler);
    if Probed(plane, cur, mandated, r) {
      ProbedOnce(plane, cur, mandated, r, Commit(euler));
    }
  }

  /** Following the velocity curve: from a point on it that rises or falls no faster than the bounds allow, a step
      that lands within epsilon of the curve, or could reach it inside the bounds, is committed exactly
      on the curve where that is under the acceleration curve and the tangent does not break. */
  lemma FollowingStaysOnCurve(plane: Plane, cur: Phase, mandated: Accel, a: real, euler: Phase, snapped: Phase, on: Phase, r: Probe)
    requires plane.spans.starts != [] && cur.s < plane.Length() && StepsTo(plane, cur, mandated, a, euler)
    requires snapped == SnapForward(cur, euler, plane.SegmentEnd(cur.s), plane.eps) && OntoCurve(plane, cur, mandated, snapped)
    requires on == Phase(snapped.s, plane.vel(snapped.s).v) && !Breaks(plane, cur, on) && Under(on.v, plane.acc(on.s))
    ensures Probed(plane, cur, mandated, r) <==> r == Commit(on)
  {
    hide StepsTo, OntoCurve, HalvedUntilClose, Decides, Breaks, SnapForward;
    assert Clamped(plane, cur, mandated, snapped, on);
    assert Proposes(plane, cur, mandated, on);
    assert Checked(plane, cur, on, Commit(on));
    assert Probed(plane, cur, mandated, Commit(on));
    if Probed(plane, cur, mandated, r) {
      ProbedOnce(plane, cur, mandated, r, Commit(on));
    }
  }

  /** The velocity a step arrives with, before the limits are looked at. */
  lemma ArrivalVelocity(plane: Plane, cur: Phase, mandated: Accel, a: real, euler: Phase, candidate: Phase)
    requires plane.Valid() && 0.0 <= cur.s < plane.Length() && StepsTo(plane, cur, mandated, a, euler)
    requires Clamped(plane, cur, mandated, SnapForward(cur, euler, plane.SegmentEnd(cur.s), plane.eps), candidate)
    ensures candidate.v < 0.0 ==> Overshoots(plane, cur, mandated, candidate)
    ensures cur.v == 0.0 && candidate.v == 0.0 ==> OnZeroCurve(plane, candidate)
  {
    hide EulerStep, Chosen, SnapForward, SomeMoves, Follows, OnVelocityCurve, CanReach;
    OnSegment(plane, cur.s);
    var end := plane.SegmentEnd(cur.s);
    if candidate.v < 0.0 && (0.0 <= a || end <= euler.s) {
      SnapStaysForward(cur, a, plane.delta, end, plane.eps);
    }
    if cur.v == 0.0 && candidate.v == 0.0 {
      FromRestRises(cur, a, plane.delta, end, plane.eps);
    }
  }
}
