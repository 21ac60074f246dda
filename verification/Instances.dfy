/** Inputs on which the integrator does what its comments rule out (trajectory.cpp): a run that ends without
    an acceleration at its last point, and a crossing that the scan passes over. */
module Instances {
  import opened Reals
  import opened Limits
  import opened Trajectory
  import opened Window
  import opened PhasePlane
  import opened Integrator
  import BackwardSolve
  import PathCursor

  // ----- a straight path with one joint -----

  /** A joint that moves at the path's own speed. */
  function Straight(vMax: real, aMax: real): seq<Joint> {
    [Joint(1.0, 0.0, vMax, aMax)]
  }

  lemma StraightBounds(vMax: real, aMax: real, eps: real, u: real)
    requires 0.0 < eps <= 1.0 && 0.0 <= aMax
    ensures SomeMoves(Straight(vMax, aMax), eps)
    ensures SDdotMin(Straight(vMax, aMax), eps, u) == Bounded(-aMax) && SDdotMax(Straight(vMax, aMax), eps, u) == Bounded(aMax)
  {
    var js := Straight(vMax, aMax);
    assert Moving(js[0], eps);
    AffineForms(js[0], u);
    assert js[..0] == [];
    assert SDdotMin(js[..0], eps, u) == Unbounded && SDdotMax(js[..0], eps, u) == Unbounded;
    DivIs(aMax, 1.0, aMax);
    DivIs(0.0, 1.0, 0.0);
  }

  // ----- a last point without an acceleration -----

  /** Where the velocity limit drops at 3 and the search reports the path's end. */
  function EndPlane(): Plane {
    Plane(PathCursor.Spans([0.0], 3.9), 0.01, 1.0, 10.0, s => Straight(5.0, 1.0), s => Straight(5.0, 1.0), s => Unbounded,
          s => Bounded(if s <= 3.0 then 5.0 else 1.0), s => None, s => false, s => No, s => Yes,
          s => Some(SwitchingPoint(3.9, 0.0, PathEnd, Unset, Unset)))
  }

  const Found := SwitchingPoint(3.9, 0.0, PathEnd, Unset, Unset)

  lemma EndPlaneIsValid()
    ensures EndPlane().Valid()
  {
    var plane := EndPlane();
    forall s
      ensures SomeMoves(plane.joints(s), plane.eps) && SomeMoves(plane.jointsBehind(s), plane.eps)
    {
      StraightBounds(5.0, 1.0, plane.eps, 0.0);
    }
  }

  lemma OneSegment(s: real)
    requires 0.0 <= s <= 3.9
    ensures EndPlane().SegmentIndex(s) == 0 && EndPlane().SegmentStart(s) == 0.0 && EndPlane().SegmentEnd(s) == 3.9
  {
    PathCursor.FindIsTheSpan(EndPlane().spans, 0, s);
  }

  /** Away from the curve a step accelerates at the bound, and a backward step brakes at it. */
  lemma EndPlaneSelects(cur: Phase)
    requires 0.0 <= cur.s <= 3.9 && 0.0 <= cur.v <= 3.0
    ensures cur.s <= 3.0 ==> HasBounds(EndPlane(), cur, -1.0, 1.0) && Chosen(EndPlane(), cur, Unset, 1.0)
    ensures 0.0 < cur.s ==> ChosenBack(EndPlane(), cur, Unset, -1.0)
  {
    forall u: real
      ensures SDdotMin(Straight(5.0, 1.0), 0.01, u) == Bounded(-1.0) && SDdotMax(Straight(5.0, 1.0), 0.01, u) == Bounded(1.0)
    {
      StraightBounds(5.0, 1.0, 0.01, u);
    }
  }

  /** Where the third step, from (2, 2) to the boundary at (3.9, 2.76), is bisected to. */
  const Stopped := Phase(2.99453125, 2.3978125)
  const Breached := Phase(3.001953125, 2.40078125)

  function ForwardRun(): seq<Point>
  {
    var p := Phase(2.0, 2.0);
    assert Midpoint(p.v, Stopped.v) != 0.0;
    StepLinks(2.0, p, Stopped, Unset);
    [Point(0.0, 0.0, 0.0, Known(1.0)), Point(1.0, 0.5, 1.0, Known(1.0)),
     Point(2.0, 2.0, 2.0, Known(StepAcceleration(p, Stopped))), Point(2.0 + StepTime(p, Stopped), Stopped.s, Stopped.v, Unset)]
  }

  function BackwardRun(): seq<Point> {
    [Point(0.0, 3.9, 0.0, Unset), Point(1.0, 3.4, 1.0, Known(-1.0))]
  }

  function Ending(): seq<Point> {
    [Point(0.0, 0.0, 0.0, Known(1.0)), Point(1.0, 0.5, 1.0, Known(0.0)), Point(3.9, 3.4, 1.0, Known(-1.0)), Point(4.9, 3.9, 0.0, Unset)]
  }

  /** The forward pass steps from rest to (0.5, 1) and (2, 2), and on to the boundary over the velocity curve. */
  lemma ForwardSteps()
    ensures StepsTo(EndPlane(), Phase(0.0, 0.0), Unset, 1.0, Phase(0.5, 1.0))
    ensures StepsTo(EndPlane(), Phase(0.5, 1.0), Unset, 1.0, Phase(2.0, 2.0))
    ensures StepsTo(EndPlane(), Phase(2.0, 2.0), Unset, 1.0, Phase(4.5, 3.0))
    ensures EndPlane().UnderCurves(0.5, 1.0) && EndPlane().UnderCurves(2.0, 2.0)
    ensures SnapForward(Phase(2.0, 2.0), Phase(4.5, 3.0), EndPlane().SegmentEnd(2.0), 0.01) == Phase(3.9, 2.76)
    ensures !EndPlane().UnderCurves(3.9, 2.76)
  {
    UnitStep(Phase(0.0, 0.0), Phase(0.5, 1.0));
    UnitStep(Phase(0.5, 1.0), Phase(2.0, 2.0));
    UnitStep(Phase(2.0, 2.0), Phase(4.5, 3.0));
    hide StepsTo;
    OneSegment(2.0);
    Snapped(Phase(2.0, 2.0), Phase(4.5, 3.0), 3.9);
  }

  lemma Snapped(cur: Phase, next: Phase, end: real)
    requires cur == Phase(2.0, 2.0) && next == Phase(4.5, 3.0) && end == 3.9
    ensures SnapForward(cur, next, end, 0.01) == Phase(3.9, 2.76)
  {
    DivIs(1.9, 2.5, 0.76);
    assert (end - cur.s) / (next.s - cur.s) == 0.76;
    assert Lerp(2.0, 3.0, 0.76) == 2.76;
  }

  /** A step of unit time under a unit acceleration. */
  lemma UnitStep(cur: Phase, next: Phase)
    requires 0.0 <= cur.s <= 3.0 && 0.0 <= cur.v <= 3.0 && next == Phase(cur.s + cur.v + 0.5, cur.v + 1.0)
    ensures StepsTo(EndPlane(), cur, Unset, 1.0, next)
  {
    EndPlaneSelects(cur);
    hide Chosen;
  }

  /** One round of the bisection. */
  lemma Round(n: nat, lo: Phase, hi: Phase, mid: Phase, below: bool)
    requires Halved(EndPlane(), Phase(2.0, 2.0), Phase(3.9, 2.76), n) == (lo, hi) && 0.01 < hi.s - lo.s
    requires mid == Phase(Midpoint(lo.s, hi.s), Midpoint(lo.v, hi.v)) && 1.0 < mid.v <= 5.0 && (below <==> mid.s <= 3.0)
    requires FarUntil(EndPlane(), Phase(2.0, 2.0), Phase(3.9, 2.76), n)
    ensures Halved(EndPlane(), Phase(2.0, 2.0), Phase(3.9, 2.76), n + 1) == if below then (mid, hi) else (lo, mid)
    ensures FarUntil(EndPlane(), Phase(2.0, 2.0), Phase(3.9, 2.76), n + 1)
  {
    assert EndPlane().UnderCurves(mid.s, mid.v) <==> below;
  }

  lemma Bisection()
    ensures HalvedUntilClose(EndPlane(), Phase(2.0, 2.0), Phase(3.9, 2.76), Stopped, Breached)
  {
    var a, b := Phase(2.0, 2.0), Phase(3.9, 2.76);
    hide Halved, FarUntil;
    assert Halved(EndPlane(), a, b, 0) == (a, b) && FarUntil(EndPlane(), a, b, 0) by { NoRounds(a, b); }
    Round(0, a, b, Phase(2.95, 2.38), true);
    Round(1, Phase(2.95, 2.38), b, Phase(3.425, 2.57), false);
    Round(2, Phase(2.95, 2.38), Phase(3.425, 2.57), Phase(3.1875, 2.475), false);
    Round(3, Phase(2.95, 2.38), Phase(3.1875, 2.475), Phase(3.06875, 2.4275), false);
    Round(4, Phase(2.95, 2.38), Phase(3.06875, 2.4275), Phase(3.009375, 2.40375), false);
    Round(5, Phase(2.95, 2.38), Phase(3.009375, 2.40375), Phase(2.9796875, 2.391875), true);
    Round(6, Phase(2.9796875, 2.391875), Phase(3.009375, 2.40375), Stopped, true);
    Round(7, Stopped, Phase(3.009375, 2.40375), Breached, false);
  }

  lemma NoRounds(a: Phase, b: Phase)
    ensures Halved(EndPlane(), a, b, 0) == (a, b) && FarUntil(EndPlane(), a, b, 0)
  {
  }

  /** What the forward pass leaves, with the end the search reports from where it stopped. */
  lemma ForwardRunIsDone()
    ensures ForwardDone(EndPlane(), ForwardRun(), Found) && EndPlane().search(Stopped.s) == Some(Found)
  {
    var points, p := ForwardRun(), Phase(2.0, 2.0);
    StepLinks(2.0, p, Stopped, Unset);
    hide StepTime, StepAcceleration;
    assert Linked(points[0], points[1]) && Linked(points[1], points[2]) && Linked(points[2], points[3]);
    forall i | 0 <= i < |points[..3]|
      ensures SafePoint(EndPlane(), points[..3][i])
    {
      assert i == 0 || i == 1 || i == 2;
    }
  }

  /** The backward pass steps from the end to (3.4, 1), and on to (1.9, 2), each time braking at the bound. */
  lemma BackwardSteps()
    ensures StepsBack(EndPlane(), Phase(3.9, 0.0), Unset, -1.0, Phase(3.4, 1.0))
    ensures StepsBack(EndPlane(), Phase(3.4, 1.0), Unset, -1.0, Phase(1.9, 2.0))
    ensures Brakes(EndPlane(), Phase(3.4, 1.0), Phase(3.9, 0.0)) && Brakes(EndPlane(), Phase(1.9, 2.0), Phase(3.4, 1.0))
  {
    hide ChosenBack, SDdotMin, SDdotMax, BackwardSolve.Required;
    EndPlaneSelects(Phase(3.9, 0.0));
    EndPlaneSelects(Phase(3.4, 1.0));
    StraightBounds(5.0, 1.0, 0.01, 1.0 * 1.0);
    StraightBounds(5.0, 1.0, 0.01, 2.0 * 2.0);
    BackwardSolve.RequiredIsQuadratic(1.0, 0.0, 0.5);
    BackwardSolve.RequiredIsQuadratic(2.0, 1.0, 1.5);
  }

  lemma BackwardStepsStand()
    ensures SteppedBack(EndPlane(), Phase(3.9, 0.0), Unset, Reached(Phase(3.4, 1.0)))
    ensures SteppedBack(EndPlane(), Phase(3.4, 1.0), Unset, Reached(Phase(1.9, 2.0)))
  {
    BackwardSteps();
    OneSegment(3.9);
    OneSegment(3.4);
    hide StepsBack, Brakes, Plane.SegmentStart, SteppedBack;
    StepStands(EndPlane(), Phase(3.9, 0.0), Unset, -1.0, Phase(3.4, 1.0));
    StepStands(EndPlane(), Phase(3.4, 1.0), Unset, -1.0, Phase(1.9, 2.0));
  }

  /** The second backward step is found above the forward points, at the second of them. */
  lemma RunCrosses()
    ensures CrossedBy(EndPlane(), ForwardRun(), BackwardRun(), Found, 2, Point(0.0, 1.9, 2.0, Unset), 1)
  {
    var fwd, bwd, next := ForwardRun(), BackwardRun(), Point(0.0, 1.9, 2.0, Unset);
    ForwardRunIsDone();
    BackwardSteps();
    BackwardStepsStand();
    hide StepTime, StepAcceleration, Brakes, SteppedBack;
    RunRetreats();
    assert Rising(fwd);
    hide Retreating, Consistent;
    NotAboveThird(fwd, bwd[1], next);
    AboveSecond(fwd, next);
  }

  lemma AboveSecond(fwd: seq<Point>, next: Point)
    requires Rising(fwd) && |fwd| > 2 && fwd[1].s == 0.5 && fwd[1].sDot == 1.0 && fwd[2].s == 2.0 && fwd[2].sDot == 2.0
    requires next.s == 1.9 && next.sDot == 2.0
    ensures AboveSegment(fwd, next, 1)
  {
    DivLe(1.4, 0.95, 1.5);
  }

  lemma NotAboveThird(fwd: seq<Point>, cur: Point, next: Point)
    requires Rising(fwd) && |fwd| == 4 && fwd[2].s == 2.0 && fwd[2].sDot == 2.0
    requires cur.s == 3.4 && cur.sDot == 1.0 && next.s == 1.9 && next.sDot == 2.0
    ensures forall j: nat :: 1 < j ==> !AboveVertex(fwd, cur, next, j) && !AboveSegment(fwd, next, j)
  {
    DivGe(0.1, 0.0, 1.5);
    hide Lerp;
    forall j: nat | 1 < j
      ensures !AboveVertex(fwd, cur, next, j) && !AboveSegment(fwd, next, j)
    {
      if j == 2 {
        LerpDown(0.1 / 1.5);
      }
    }
  }

  lemma LerpDown(t: real)
    requires 0.0 <= t
    ensures Lerp(2.0, 1.0, t) <= 2.0
  {
  }

  lemma RunRetreats()
    requires ForwardDone(EndPlane(), ForwardRun(), Found) && Brakes(EndPlane(), Phase(3.4, 1.0), Phase(3.9, 0.0))
    requires SteppedBack(EndPlane(), Phase(3.9, 0.0), Unset, Reached(Phase(3.4, 1.0)))
    ensures Retreating(EndPlane(), ForwardRun(), BackwardRun(), Found, 2)
  {
    var fwd, bwd := ForwardRun(), BackwardRun();
    hide StepTime, StepAcceleration, Brakes, Consistent, SteppedBack;
    assert Linked(bwd[1].(time := 0.0), bwd[0].(time := bwd[1].time));
    assert BrakesOnto(EndPlane(), bwd[1], bwd[0]);
    assert !StepAbove(fwd, bwd[0], bwd[1]);
  }

  /** The splice there is the list exhibited. */
  lemma RunSplices()
    ensures Joinable(ForwardRun(), 1, BackwardRun()) && !TooSlow(EndPlane(), ForwardRun(), 1, BackwardRun())
    ensures SpliceOf(ForwardRun(), 1, BackwardRun()) == Ending()
  {
    var p, q, bwd := Phase(0.5, 1.0), Phase(3.4, 1.0), BackwardRun();
    assert StepTime(p, q) == 2.9 && StepAcceleration(p, q) == 0.0;
    hide StepTime, StepAcceleration;
    assert Retimed(bwd, 0, 5.9) == [];
    assert Retimed(bwd, 1, 4.9) == [Point(4.9, 3.9, 0.0, Unset)];
    assert Retimed(bwd, 2, 3.9) == [Point(3.9, 3.4, 1.0, Known(-1.0)), Point(4.9, 3.9, 0.0, Unset)];
  }

  /** The probes of that run: two steps committed as they are, and one stopped short of the drop. */
  lemma ProbesCommit()
    ensures Probed(EndPlane(), Phase(0.0, 0.0), Unset, Commit(Phase(0.5, 1.0)))
    ensures Probed(EndPlane(), Phase(0.5, 1.0), Unset, Commit(Phase(2.0, 2.0)))
  {
    EndPlaneIsValid();
    ForwardSteps();
    OneSegment(0.0);
    OneSegment(0.5);
    hide StepsTo, Probed, SomeMoves;
    UndisturbedCommits(EndPlane(), Phase(0.0, 0.0), Unset, 1.0, Phase(0.5, 1.0), Commit(Phase(0.5, 1.0)));
    UndisturbedCommits(EndPlane(), Phase(0.5, 1.0), Unset, 1.0, Phase(2.0, 2.0), Commit(Phase(2.0, 2.0)));
  }

  lemma ProbeStops()
    ensures Probed(EndPlane(), Phase(2.0, 2.0), Unset, LimitHit(Stopped, Breached.s, false))
  {
    ForwardSteps();
    Bisection();
    OneSegment(2.0);
    OneSegment(3.9);
    OneSegment(Breached.s);
    var cur, candidate := Phase(2.0, 2.0), Phase(3.9, 2.76);
    hide StepsTo, HalvedUntilClose, SnapForward;
    assert Clamped(EndPlane(), cur, Unset, candidate, candidate);
    assert Proposes(EndPlane(), cur, Unset, candidate);
    assert Decides(EndPlane(), cur, Stopped, Breached, LimitHit(Stopped, Breached.s, false));
    assert Checked(EndPlane(), cur, candidate, LimitHit(Stopped, Breached.s, false));
  }

  /** So the forward points are what a first pass on this plane leaves, and it goes on from the end reported. */
  lemma FirstPass()
    ensures ForwardPass(EndPlane(), [], ForwardRun(), Begin(), 0, To(Found))
  {
    ProbesCommit();
    ProbeStops();
    hide Probed, StepTime, StepAcceleration, Stuck;
    var run, probe := ForwardRun(), LimitHit(Stopped, Breached.s, false);
    assert PhaseOf(run[0]) == Phase(0.0, 0.0) && PhaseOf(run[1]) == Phase(0.5, 1.0) && PhaseOf(run[2]) == Phase(2.0, 2.0);
    var driven := run[..3];
    assert Commits(EndPlane(), driven, 0, Begin(), 0) && Commits(EndPlane(), driven, 0, Begin(), 1);
    assert Driven(EndPlane(), driven, 0, Begin());
    assert Arrived(EndPlane(), run, 0, Begin(), probe);
    NotStuck(EndPlane(), run, 0, Begin(), probe);
    assert StoppedOn(EndPlane(), run, 0, Begin(), probe, Some(Found));
  }

  /** The terminal sample can be missing. On this plane the forward pass stops short at the drop of the velocity
      curve, the search reports the path's end from there, the backward pass from that end crosses the forward
      points, and the splice is a finished list without an acceleration at its last point. */
  lemma TerminalSampleCanBeMissing()
    ensures EndPlane().Valid() && ForwardDone(EndPlane(), ForwardRun(), Found) && EndPlane().search(Stopped.s) == Some(Found)
    ensures IsSplice(EndPlane(), ForwardRun(), Ending(), Found) && Passes(EndPlane(), 1, Ending(), Found)
    ensures Finished(EndPlane(), Ending(), 4.9) && Timed(Ending()) && !Samplable(Ending(), 4.9)
  {
    EndPlaneIsValid();
    ForwardRunIsDone();
    RunCrosses();
    RunSplices();
    hide CrossedBy, Joinable, TooSlow, SpliceOf, ForwardDone, ForwardRun, BackwardRun, Plane.Valid;
    FirstPass();
    NoPasses(EndPlane());
    OneRun();
    EndingFinishes();
    TerminalSample(EndPlane(), Ending(), 4.9);
  }

  lemma OneRun()
    requires ForwardPass(EndPlane(), [], ForwardRun(), Begin(), 0, To(Found)) && IsSplice(EndPlane(), ForwardRun(), Ending(), Found)
    ensures Passes(EndPlane(), 1, Ending(), Found)
  {
    hide IsSplice, ForwardPass, StepTime, StepAcceleration;
    assert FromSearch(EndPlane(), Stopped.s, Found);
    assert PairOfPasses(EndPlane(), [], Begin(), ForwardRun(), Ending(), Found);
    assert Passes(EndPlane(), 0, [], Begin());
  }

  lemma EndingFinishes()
    ensures Finished(EndPlane(), Ending(), 4.9)
  {
    EndingLinks();
    hide Linked, Chained;
    var points := Ending();
    forall i | 0 <= i < |points|
      ensures SafePoint(EndPlane(), points[i])
    {
      assert i == 0 || i == 1 || i == 2 || i == 3;
    }
  }

  lemma EndingLinks()
    ensures Chained(Ending())
  {
    var points := Ending();
    assert Linked(points[0], points[1]) by { Links(points[0], points[1], 1.0); }
    assert Linked(points[1], points[2]) by { Links(points[1], points[2], 0.0); }
    assert Linked(points[2], points[3]) by { Links(points[2], points[3], -1.0); }
    hide Linked;
  }

  lemma Links(p: Point, q: Point, a: real)
    requires p.sDdot == Known(a) && p.time < q.time && p.s < q.s
    requires q.s == p.s + Midpoint(p.sDot, q.sDot) * (q.time - p.time) && q.sDot == p.sDot + a * (q.time - p.time)
    ensures Linked(p, q)
  {
  }

  // ----- a crossing that is passed over -----

  /** Where the search finds a switching point with a mandated backward acceleration, ahead of where the
      forward pass stops. */
  function MissPlane(): Plane {
    Plane(PathCursor.Spans([0.0], 4.0), 0.01, 8.0 / 11.0, 10.0, s => Straight(9.0, 7.0), s => Straight(9.0, 7.0), s => Unbounded,
          s => Unbounded, s => None, s => false, s => No, s => No,
          s => if s <= 3.0 then Some(SwitchingPoint(3.0, 5.0, VelocityEscape, Unset, Known(6.1875))) else None)
  }

  const Ahead := SwitchingPoint(3.0, 5.0, VelocityEscape, Unset, Known(6.1875))

  lemma MissPlaneIsValid()
    ensures MissPlane().Valid()
  {
    var plane := MissPlane();
    forall s
      ensures SomeMoves(plane.joints(s), plane.eps) && SomeMoves(plane.jointsBehind(s), plane.eps)
    {
      StraightBounds(9.0, 7.0, plane.eps, 0.0);
    }
  }

  /** The mandated backward step from there. */
  lemma MissingStep()
    ensures StepsBack(MissPlane(), Phase(3.0, 5.0), Known(6.1875), 6.1875, Phase(1.0, 0.5))
    ensures SteppedBack(MissPlane(), Phase(3.0, 5.0), Known(6.1875), Reached(Phase(1.0, 0.5)))
  {
    var dt: real := 8.0 / 11.0;
    assert 6.1875 * dt == 4.5 && 5.0 * dt == 40.0 / 11.0 && 0.5 * 6.1875 * dt * dt == 18.0 / 11.0;
    PathCursor.FindIsTheSpan(MissPlane().spans, 0, 3.0);
    StepStands(MissPlane(), Phase(3.0, 5.0), Known(6.1875), 6.1875, Phase(1.0, 0.5));
  }

  /** The lists of `LastCrossingIsMissed` are a backward pass under way: although backward crossed forward, nothing
      was reported, and the pass goes on. */
  lemma PassGoesOn()
    ensures MissPlane().Valid() && ForwardDone(MissPlane(), MissedForward(), Ahead) && MissPlane().search(2.0) == Some(Ahead)
    ensures Retreating(MissPlane(), MissedForward(), MissedBackward(), Ahead, 0)
  {
    MissPlaneIsValid();
    LastCrossingIsMissed();
    MissedForwardIsDone();
    MissedBackwardIsListed();
    MissingStep();
    hide Chained, Linked, NothingAbove, Below, Plane.Valid, BackwardList, ForwardDone, Interp, StepsBack, SteppedBack;
  }

  lemma MissedForwardIsDone()
    ensures ForwardDone(MissPlane(), MissedForward(), Ahead) && Ended(MissPlane(), MissedForward())
  {
    var fwd := MissedForward();
    Links(fwd[0], fwd[1], 1.0);
    hide Linked;
  }

  lemma MissedBackwardIsListed()
    ensures BackwardList(MissPlane(), MissedBackward(), Ahead)
  {
    LastCrossingIsMissed();
    var bwd := MissedBackward();
    hide Linked, NothingAbove, Below, Interp, Brakes;
    forall i | 0 <= i < |bwd|
      ensures SafePoint(MissPlane(), bwd[i])
    {
      assert i == 0 || i == 1;
    }
  }
}
