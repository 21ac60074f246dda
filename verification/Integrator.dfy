/** The TOTG integrator (trajectory.cpp, `trajectory::create`): forward passes under the limit curves
    alternate with backward passes from switching points, and each backward pass is spliced into the
    forward points where it crosses them. */
module Integrator {
  import opened Reals
  import opened Search
  import opened Limits
  import opened Trajectory
  import opened Window
  import opened PhasePlane
  import BackwardSolve
  import Session

  datatype Outcome =
    | To(sp: SwitchingPoint)
    | Failed                                                // the source throws
    | Spins(cur: Phase, at: Phase)                          // the backward solve onto cur loops for ever
    | Degenerate(cur: Phase, at: Phase, mandated: Accel)    // the step would have a negative or a zero mean velocity,
      // which the source does not check
    | OutOfFuel

  /** How two neighbouring points came to be joined: by a forward step, kept as selected or adjusted to a
      boundary, a curve or a mandate; across a splice; or by a backward step, the first of which may be
      mandated. */
  datatype Link = Selected | Adjusted | Bridged | Mandated | Braked {
    predicate Forward() {
      Selected? || Adjusted?
    }
  }

  // ----- steps that go wrong -----

  /** A forward step that would run backward, or not at all. */
  ghost predicate ForwardDegenerates(plane: Plane, r: Outcome) {
    r.Degenerate? &&
    (Overshoots(plane, r.cur, r.mandated, r.at) || (r.cur.v == 0.0 && OnZeroCurve(plane, r.at)))
  }

  ghost predicate BackwardDegenerates(plane: Plane, r: Outcome) {
    r.Degenerate? &&
    (Undershoots(plane, r.cur, r.mandated, r.at) || (r.mandated.Unset? && r.cur.v == 0.0 && HoldsAtRest(plane, r.at)))
  }

  /** The backward solve onto cur, from a step that left the velocity unchanged. */
  ghost predicate SpinsAt(plane: Plane, cur: Phase, at: Phase) {
    at.s < cur.s && BackwardSolve.Spins(plane.joints(at.s), plane.eps, cur.v, at.v, cur.s - at.s)
  }

  // ----- what the point list keeps -----

  ghost predicate SafePoint(plane: Plane, p: Point) {
    plane.Safe(p.s, p.sDot)
  }

  ghost predicate AllSafe(plane: Plane, points: seq<Point>) {
    forall i :: 0 <= i < |points| ==> SafePoint(plane, points[i])
  }

  /** Starts at rest at the origin of time and of the path. */
  ghost predicate FromRest(points: seq<Point>) {
    points != [] && points[0].time == 0.0 && points[0].s == 0.0 && points[0].sDot == 0.0
  }

  ghost predicate Forwardly(points: seq<Point>) {
    forall i :: 0 <= i < |points| ==> 0.0 <= points[i].sDot
  }

  /** A consistent point list from rest: linked, and never moving backward. */
  ghost predicate Consistent(points: seq<Point>) {
    FromRest(points) && Chained(points) && Forwardly(points)
  }

  /** A list that ends at the switching point it will be resumed from. */
  ghost predicate Resumable(plane: Plane, points: seq<Point>, sp: SwitchingPoint) {
    |points| >= 2 && Consistent(points) && AllSafe(plane, points) &&
    points[|points| - 1].s == sp.s && points[|points| - 1].sDot == sp.sDot && points[|points| - 1].sDdot == sp.forward
  }

  /** A list a forward pass left behind: everything but its last point is safe, and the switching
      point it found is at or ahead of that last point. */
  ghost predicate ForwardDone(plane: Plane, points: seq<Point>, sp: SwitchingPoint) {
    Ended(plane, points) && points[|points| - 1].s <= sp.s && SwitchOk(plane, sp)
  }

  ghost predicate SwitchOk(plane: Plane, sp: SwitchingPoint) {
    0.0 <= sp.s <= plane.Length() && 0.0 <= sp.sDot && plane.Safe(sp.s, sp.sDot) && !sp.kind.PathBegin? &&
    (sp.kind.PathEnd? ==> sp.s == plane.Length() && sp.sDot == 0.0)
  }

  /** Appending a point the last one leads to keeps a list consistent. */
  lemma Append(points: seq<Point>, p: Point)
    requires Consistent(points) && Linked(points[|points| - 1], p) && 0.0 <= p.sDot
    ensures Consistent(points + [p])
  {
    hide Linked;
    var all := points + [p];
    forall i | 0 <= i < |all| - 1
      ensures Linked(all[i], all[i + 1])
    {
      if i < |points| - 1 {
        assert Linked(points[i], points[i + 1]);
      }
    }
  }

  /** The last point's acceleration may be replaced. */
  lemma Relabel(points: seq<Point>, a: Accel)
    requires Consistent(points)
    ensures Consistent(points[..|points| - 1] + [points[|points| - 1].(sDdot := a)])
  {
    assert points != [];
    hide FromRest;
    var n := |points| - 1;
    var all := points[..n] + [points[n].(sDdot := a)];
    forall i | 0 <= i < |all| - 1
      ensures Linked(all[i], all[i + 1])
    {
      assert Linked(points[i], points[i + 1]);
    }
    assert FromRest(all) by { FirstKept(points, all); }
  }

  lemma FirstKept(points: seq<Point>, all: seq<Point>)
    requires FromRest(points) && all != [] && all[0].time == points[0].time && all[0].s == points[0].s && all[0].sDot == points[0].sDot
    ensures FromRest(all)
  {
  }

  /** The time of a step, from the mean velocity over it, and the acceleration that makes up the
      difference in velocity over that time. */
  function StepTime(cur: Phase, next: Phase): (dt: real)
    requires Midpoint(cur.v, next.v) != 0.0
  {
    (next.s - cur.s) / Midpoint(cur.v, next.v)
  }

  function StepAcceleration(cur: Phase, next: Phase): real
    requires Midpoint(cur.v, next.v) != 0.0 && StepTime(cur, next) != 0.0
  {
    (next.v - cur.v) / StepTime(cur, next)
  }

  /** They are exactly the time and acceleration that link its ends. */
  lemma StepLinks(time: real, cur: Phase, next: Phase, last: Accel)
    requires cur.s < next.s && 0.0 < Midpoint(cur.v, next.v)
    ensures 0.0 < StepTime(cur, next)
    ensures Linked(Point(time, cur.s, cur.v, Known(StepAcceleration(cur, next))),
                   Point(time + StepTime(cur, next), next.s, next.v, last))
  {
    var m := Midpoint(cur.v, next.v);
    var dt := (next.s - cur.s) / m;
    assert dt * m == next.s - cur.s;
    assert 0.0 < dt;
    assert (next.v - cur.v) / dt * dt == next.v - cur.v;
  }

  /** Pushing a step: the pending point gets the acceleration that reaches the next one. */
  lemma PushStep(points: seq<Point>, time: real, cur: Phase, next: Phase, last: Accel)
    requires Consistent(points + [Point(time, cur.s, cur.v, Unset)])
    requires cur.s < next.s && 0.0 < Midpoint(cur.v, next.v) && 0.0 <= next.v
    ensures StepTime(cur, next) != 0.0
    ensures Consistent(points + [Point(time, cur.s, cur.v, Known(StepAcceleration(cur, next)))] +
                       [Point(time + StepTime(cur, next), next.s, next.v, last)])
  {
    hide Linked, FromRest, Chained, Forwardly, StepTime, StepAcceleration;
    StepLinks(time, cur, next, last);
    var pending := points + [Point(time, cur.s, cur.v, Unset)];
    var a := Known(StepAcceleration(cur, next));
    Relabel(pending, a);
    assert pending[..|pending| - 1] == points;
    Append(points + [Point(time, cur.s, cur.v, a)], Point(time + StepTime(cur, next), next.s, next.v, last));
  }

  /** The start of every run. */
  function Begin(): SwitchingPoint {
    SwitchingPoint(0.0, 0.0, PathBegin, Unset, Unset)
  }

  // ----- what a forward pass does -----

  /** Only the first step of a pass can be mandated. */
  function MandatedAt(from: SwitchingPoint, start: nat, i: nat): Accel {
    if i == start then from.forward else Unset
  }

  /** The points from `start` on are those of a pass from a switching point: from each of them the probe
      commits the next, short of the path's end. */
  ghost predicate Driven(plane: Plane, points: seq<Point>, start: nat, from: SwitchingPoint) {
    start < |points| && PhaseOf(points[start]) == Phase(from.s, from.sDot) &&
    forall i :: start <= i < |points| - 1 ==> Commits(plane, points, start, from, i)
  }

  ghost predicate Commits(plane: Plane, points: seq<Point>, start: nat, from: SwitchingPoint, i: nat)
    requires i < |points| - 1
  {
    Probed(plane, PhaseOf(points[i]), MandatedAt(from, start, i), Commit(PhaseOf(points[i + 1]))) && points[i + 1].s != plane.Length()
  }

  /** The pass so far, and the probe's answer at its last point. */
  ghost predicate Answers(plane: Plane, points: seq<Point>, start: nat, from: SwitchingPoint, probe: Probe) {
    Driven(plane, points, start, from) &&
    Probed(plane, PhaseOf(points[|points| - 1]), MandatedAt(from, start, |points| - 1), probe)
  }

  /** At rest at s, where the velocity must vanish. */
  function RestAt(s: real): SwitchingPoint {
    SwitchingPoint(s, 0.0, DiscontinuousVelocityLimit, Unset, Unset)
  }

  function EndOf(plane: Plane): SwitchingPoint {
    SwitchingPoint(plane.Length(), 0.0, PathEnd, Known(0.0), Unset)
  }

  /** No probe gets ahead of the last point. */
  ghost predicate Stuck(plane: Plane, points: seq<Point>, start: nat, from: SwitchingPoint, probe: Probe) {
    Answers(plane, points, start, from, probe) && probe.LimitHit? && probe.next.s == points[|points| - 1].s
  }

  /** The last probe goes to the last point. */
  ghost predicate Arrived(plane: Plane, points: seq<Point>, start: nat, from: SwitchingPoint, probe: Probe) {
    |points| >= 2 && Answers(plane, points[..|points| - 1], start, from, probe) && !probe.ProbeThrows? &&
    probe.next == PhaseOf(points[|points| - 1]) && probe.next.s != points[|points| - 2].s
  }

  /** Where the pass ended and what it goes on from: what the search finds from there when a limit stopped it;
      the breach, at rest, when that is forced; or the path's end. */
  ghost predicate StoppedOn(plane: Plane, points: seq<Point>, start: nat, from: SwitchingPoint, probe: Probe, found: Option<SwitchingPoint>) {
    points != [] && points[|points| - 1].sDdot.Unset? &&
    if Stuck(plane, points, start, from, probe) then found == plane.search(points[|points| - 1].s)
    else
      Arrived(plane, points, start, from, probe) &&
      if probe.Commit? then points[|points| - 1].s == plane.Length() && found == Some(EndOf(plane))
      else found == if probe.rest then Some(RestAt(probe.breach)) else plane.search(points[|points| - 1].s)
  }

  ghost predicate Stopped(plane: Plane, points: seq<Point>, start: nat, from: SwitchingPoint, found: Option<SwitchingPoint>) {
    exists probe :: StoppedOn(plane, points, start, from, probe, found)
  }

  /** Every outcome of a forward pass, by the pass that leads to it. */
  ghost predicate ForwardOutcome(plane: Plane, points: seq<Point>, start: nat, from: SwitchingPoint, fuel: nat, r: Outcome) {
    match r
    case To(sp) => Stopped(plane, points, start, from, Some(sp))
    case Failed =>
      Stopped(plane, points, start, from, None) || exists p: Point :: Answers(plane, points + [p], start, from, ProbeThrows)
    case Degenerate(cur, at, mandated) =>
      exists p: Point, probe :: Answers(plane, points + [p], start, from, probe) && DegeneratesAt(plane, p, probe, cur, at) &&
                                mandated == MandatedAt(from, start, |points|)
    case OutOfFuel => |points| == start + fuel && exists p: Point :: Driven(plane, points + [p], start, from)
    case Spins(_, _) => false
  }

  ghost predicate DegeneratesAt(plane: Plane, p: Point, probe: Probe, cur: Phase, at: Phase) {
    cur == PhaseOf(p) && !probe.ProbeThrows? && probe.next == at && at.s != cur.s && (at.v < 0.0 || Midpoint(cur.v, at.v) == 0.0)
  }

  /** The points a pass keeps: all but the switching point, which it replaces. */
  function Kept(points: seq<Point>): seq<Point> {
    if points == [] then [] else points[..|points| - 1]
  }

  ghost predicate ForwardPass(plane: Plane, before: seq<Point>, after: seq<Point>, from: SwitchingPoint, fuel: nat, r: Outcome) {
    |Kept(before)| <= |after| && after[..|Kept(before)|] == Kept(before) && ForwardOutcome(plane, after, |Kept(before)|, from, fuel, r)
  }

  /** One of three ways a forward pass ends: at a limit, with what the search finds from there; on the path's end;
      or with a forced rest, where the tangent breaks or the velocity curve is zero. */
  ghost predicate FromSearch(plane: Plane, reached: real, sp: SwitchingPoint) {
    reached < plane.Length() && plane.search(reached) == Some(sp)
  }

  ghost predicate FromEnd(plane: Plane, reached: real, sp: SwitchingPoint) {
    reached == plane.Length() && sp == EndOf(plane)
  }

  ghost predicate FromForcedRest(plane: Plane, reached: real, sp: SwitchingPoint) {
    reached <= sp.s <= plane.Length() && sp == RestAt(sp.s) && (plane.tangentBreak(sp.s) || plane.vel(sp.s) == Bounded(0.0))
  }

  ghost predicate PassEnd(plane: Plane, reached: real, sp: SwitchingPoint) {
    FromSearch(plane, reached, sp) || FromEnd(plane, reached, sp) || FromForcedRest(plane, reached, sp)
  }

  /** And there is no fourth. The last probe decides which; the path's end excludes the other two, and a
      forced rest can only coincide with a search that reports the very same point. */
  lemma PassEnds(plane: Plane, points: seq<Point>, start: nat, from: SwitchingPoint, sp: SwitchingPoint)
    requires plane.Valid() && Stopped(plane, points, start, from, Some(sp)) && forall i :: 0 <= i < |points| ==> 0.0 <= points[i].s
    ensures var reached := points[|points| - 1].s;
            PassEnd(plane, reached, sp) && !(FromEnd(plane, reached, sp) && (FromSearch(plane, reached, sp) || FromForcedRest(plane, reached, sp)))
  {
    hide Probed, Plane.Valid, Commits;
    var n := |points|;
    var probe :| StoppedOn(plane, points, start, from, probe, Some(sp));
    if Stuck(plane, points, start, from, probe) {
      StopsShort(plane, PhaseOf(points[n - 1]), MandatedAt(from, start, n - 1), probe);
    } else if probe.LimitHit? {
      StopsShort(plane, PhaseOf(points[n - 2]), MandatedAt(from, start, n - 2), probe);
    }
  }

  lemma FirstDriven(plane: Plane, points: seq<Point>, p: Point, from: SwitchingPoint)
    requires PhaseOf(p) == Phase(from.s, from.sDot)
    ensures Driven(plane, points + [p], |points|, from)
  {
  }

  /** The pending point's acceleration plays no part. */
  lemma Restated(plane: Plane, points: seq<Point>, p: Point, q: Point, start: nat, from: SwitchingPoint, probe: Probe)
    requires Answers(plane, points + [p], start, from, probe) && PhaseOf(p) == PhaseOf(q)
    ensures Answers(plane, points + [q], start, from, probe)
  {
    hide Probed;
    var was, now := points + [p], points + [q];
    assert PhaseOf(now[start]) == PhaseOf(was[start]);
    forall i | start <= i < |now| - 1
      ensures Commits(plane, now, start, from, i)
    {
      assert Commits(plane, was, start, from, i);
    }
  }

  lemma DriveOn(plane: Plane, points: seq<Point>, q: Point, start: nat, from: SwitchingPoint)
    requires Answers(plane, points, start, from, Commit(PhaseOf(q))) && q.s != plane.Length()
    ensures Driven(plane, points + [q], start, from)
  {
    hide Probed;
    var all := points + [q];
    forall i | start <= i < |all| - 1
      ensures Commits(plane, all, start, from, i)
    {
      if i < |points| - 1 {
        assert Commits(plane, points, start, from, i);
      }
    }
  }

  lemma LastAnswers(plane: Plane, points: seq<Point>, p: Point, start: nat, from: SwitchingPoint, probe: Probe)
    requires Driven(plane, points + [p], start, from) && Probed(plane, PhaseOf(p), MandatedAt(from, start, |points|), probe)
    ensures Answers(plane, points + [p], start, from, probe)
  {
    hide Driven, Probed;
  }

  lemma FailsAt(plane: Plane, points: seq<Point>, p: Point, start: nat, from: SwitchingPoint, fuel: nat)
    requires Answers(plane, points + [p], start, from, ProbeThrows)
    ensures ForwardOutcome(plane, points, start, from, fuel, Failed)
  {
    hide Answers;
  }

  lemma OutOfSteps(plane: Plane, points: seq<Point>, p: Point, start: nat, from: SwitchingPoint, fuel: nat)
    requires Driven(plane, points + [p], start, from) && |points| == start + fuel
    ensures ForwardOutcome(plane, points, start, from, fuel, OutOfFuel)
  {
    hide Driven;
  }

  lemma DegeneratesHere(plane: Plane, points: seq<Point>, p: Point, start: nat, from: SwitchingPoint, probe: Probe, fuel: nat, r: Outcome)
    requires r.Degenerate? && Answers(plane, points + [p], start, from, probe) && DegeneratesAt(plane, p, probe, r.cur, r.at)
    requires r.mandated == MandatedAt(from, start, |points|)
    ensures ForwardOutcome(plane, points, start, from, fuel, r)
  {
    hide Answers, DegeneratesAt;
  }

  lemma StuckHere(plane: Plane, points: seq<Point>, start: nat, from: SwitchingPoint, probe: Probe, fuel: nat, r: Outcome)
    requires points != [] && points[|points| - 1].sDdot.Unset? && Stuck(plane, points, start, from, probe)
    requires Searches(plane, points, r)
    ensures ForwardOutcome(plane, points, start, from, fuel, r)
  {
    hide Stuck;
    assert StoppedOn(plane, points, start, from, probe, plane.search(points[|points| - 1].s));
  }

  /** r is what the search finds from the last point. */
  ghost predicate Searches(plane: Plane, points: seq<Point>, r: Outcome) {
    points != [] && match plane.search(points[|points| - 1].s) case None => r == Failed case Some(sp) => r == To(sp)
  }

  lemma ArrivesAt(plane: Plane, points: seq<Point>, last: Point, start: nat, from: SwitchingPoint, probe: Probe)
    requires points != [] && Answers(plane, points, start, from, probe) && !probe.ProbeThrows? && probe.next == PhaseOf(last)
    requires last.s != points[|points| - 1].s
    ensures Arrived(plane, points + [last], start, from, probe)
  {
    hide Answers;
    var all := points + [last];
    assert all[..|all| - 1] == points;
  }

  lemma ArrivesHere(plane: Plane, points: seq<Point>, start: nat, from: SwitchingPoint, probe: Probe, fuel: nat, r: Outcome)
    requires Arrived(plane, points, start, from, probe) && points[|points| - 1].sDdot.Unset? && points[|points| - 2].s < points[|points| - 1].s
    requires if probe.Commit? then points[|points| - 1].s == plane.Length() && r == To(EndOf(plane))
             else if probe.rest then r == To(RestAt(probe.breach)) else Searches(plane, points, r)
    ensures ForwardOutcome(plane, points, start, from, fuel, r)
  {
    hide Answers;
    NotStuck(plane, points, start, from, probe);
    if r.To? {
      assert StoppedOn(plane, points, start, from, probe, Some(r.sp));
    } else {
      assert StoppedOn(plane, points, start, from, probe, None);
    }
  }

  /** A probe that got somewhere does not lead back there. */
  lemma NotStuck(plane: Plane, points: seq<Point>, start: nat, from: SwitchingPoint, probe: Probe)
    requires Arrived(plane, points, start, from, probe) && points[|points| - 2].s < points[|points| - 1].s
    ensures !Stuck(plane, points, start, from, probe)
  {
    hide Probed;
    var n := |points|;
    if Stuck(plane, points, start, from, probe) {
      var i: nat := n - 2;
      assert points[..n - 1][i] == points[i];
      assert Commits(plane, points, start, from, i);
      ProbedOnce(plane, PhaseOf(points[i]), MandatedAt(from, start, i), probe, Commit(PhaseOf(points[n - 1])));
    }
  }

  class Integrator {
    const plane: Plane
    var points: seq<Point>
    var duration: real
    ghost var links: seq<Link>  // how each point was joined to the next
    ghost var reached: real     // where the latest forward pass stopped

    constructor (plane: Plane)
      ensures this.plane == plane && points == [] && duration == 0.0 && links == []
    {
      this.plane, points, duration := plane, [], 0.0;
      links, reached := [], 0.0;
    }

    /** A pass resumes from the switching point the last splice ended on, or starts the path. */
    ghost predicate CanResume(sp: SwitchingPoint)
      reads this
    {
      if points == [] then sp == Begin() && links == []
      else Resumable(plane, points, sp) && LinksOk(plane, points, links)
    }

    /** The switching point the backward pass left is taken off, to be pushed again with the acceleration the
        next forward pass gives it. */
    method TakeOff(from: SwitchingPoint) returns (time: real)
      requires plane.Valid() && CanResume(from) && from.s <= plane.Length()
      modifies `points, `duration
      ensures Pending(plane, points, links, time, Phase(from.s, from.sDot)) && points == Kept(old(points))
    {
      hide Consistent, AllSafe, Resumable, SafePoint, LinksOk, Plane.Valid;
      time := 0.0;
      if points == [] {
        FreshStart(plane);
      } else {
        Resumed(plane, points, links, from);
        time := points[|points| - 1].time;
        points := points[..|points| - 1];
        duration := points[|points| - 1].time;
      }
    }

    /** One more point, with the link to the one after it. */
    method Push(p: Point, ghost link: Link)
      modifies `points, `links
      ensures points == old(points) + [p] && links == old(links) + [link]
    {
      points := points + [p];
      links := links + [link];
    }

    /** The last point of a forward pass. */
    method StopAt(p: Point)
      modifies `points, `reached
      ensures points == old(points) + [p] && reached == p.s
    {
      points := points + [p];
      reached := p.s;
    }

    /** A pass that a limit stopped at its last point, or that reached the path's end: what it goes on from. */
    method EndPass(last: Point, probe: Probe) returns (r: Outcome)
      requires plane.Valid() && !probe.ProbeThrows? && probe.next == PhaseOf(last) && Ended(plane, points + [last]) && 0.0 <= last.s
      requires probe.Commit? ==> last.s == plane.Length()
      requires probe.LimitHit? ==>
                 last.s <= probe.breach <= plane.Length() && (probe.rest || last.s < probe.breach) &&
                 (probe.rest ==> plane.tangentBreak(probe.breach) || plane.vel(probe.breach) == Bounded(0.0))
      modifies `points, `reached
      ensures points == old(points) + [last] && reached == last.s
      ensures r.To? ==> ForwardDone(plane, points, r.sp)
      ensures r.To? ==> PassEnd(plane, reached, r.sp)
      ensures if probe.Commit? then r == To(EndOf(plane)) else if probe.rest then r == To(RestAt(probe.breach)) else Searches(plane, points, r)
    {
      hide ForwardDone, Ended, Plane.Valid;
      StopAt(last);
      if probe.LimitHit? {
        if probe.rest {
          Finish(plane, points, RestAt(probe.breach));
          return To(SwitchingPoint(probe.breach, 0.0, DiscontinuousVelocityLimit, Unset, Unset));
        }
        r := Searched(probe.next);
        return;
      }
      Finish(plane, points, EndOf(plane));
      r := To(SwitchingPoint(last.s, 0.0, PathEnd, Known(0.0), Unset));
    }

    method IntegrateForwardFrom(from: SwitchingPoint, fuel: nat) returns (r: Outcome)
      requires plane.Valid() && CanResume(from) && from.s <= plane.Length()
      modifies this
      ensures r.To? ==> ForwardDone(plane, points, r.sp) && LinksOk(plane, points, links) && Drives(old(links), links)
      ensures r.To? ==> points != [] && reached == points[|points| - 1].s && 0.0 <= reached
      ensures ForwardPass(plane, old(points), points, from, fuel, r)
      ensures r.To? ==> PassEnd(plane, reached, r.sp)
      ensures r.Degenerate? ==>
                ForwardDegenerates(plane, r) &&
                (r.mandated.Unset? || (r.cur == Phase(from.s, from.sDot) && r.mandated == from.forward))
      ensures !r.Spins?
    {
      hide Consistent, AllSafe, Resumable, ForwardDone, SafePoint, Ended, LinksOk, Drives, Overshoots, OnZeroCurve,
        Plane.Valid, Plane.UnderCurves, StepTime, StepAcceleration, Selects, Probed, Driven, Answers, Stopped, Kept, ForwardOutcome;
      var time := TakeOff(from);
      ghost var start := |points|;
      FirstDriven(plane, points, Point(time, from.s, from.sDot, Unset), from);
      var cur := Phase(from.s, from.sDot);
      var mandated := from.forward;
      var probed: Option<(real, Limit)> := None;
      DrivesNothing(links);
      for step := 0 to fuel
        invariant Pending(plane, points, links, time, cur) && Drives(old(links), links)
        invariant probed.Some? ==> probed.value.1 == plane.vel(probed.value.0)
        invariant mandated.Unset? || (cur == Phase(from.s, from.sDot) && mandated == from.forward)
        invariant |points| == start + step && mandated == MandatedAt(from, start, |points|)
        invariant start == |Kept(old(points))| && points[..start] == Kept(old(points))
        invariant Driven(plane, points + [Point(time, cur.s, cur.v, Unset)], start, from)
      {
        hide Pending;
        PendingRange(plane, points, links, time, cur);
        var velHere := if probed.Some? && probed.value.0 == cur.s then probed.value.1 else plane.vel(cur.s);
        var probe, probedAt := ProbeStep(plane, cur, mandated, velHere);
        probed := Some((probedAt, plane.vel(probedAt)));
        ghost var pending := Point(time, cur.s, cur.v, Unset);
        LastAnswers(plane, points, pending, start, from, probe);
        if probe.ProbeThrows? {
          FailsAt(plane, points, pending, start, from, fuel);
          return Failed;
        }
        var next := probe.next;
        if next.s == cur.s {
          // The limit is too close to resolve: stop here and search from here.
          StopHere(plane, points, links, time, cur);
          StopAt(Point(time, cur.s, cur.v, Unset));
          r := Searched(cur);
          StuckHere(plane, points, start, from, probe, fuel, r);
          return;
        }
        if next.v < 0.0 || Midpoint(cur.v, next.v) == 0.0 {
          DegeneratesHere(plane, points, pending, start, from, probe, fuel, Degenerate(cur, next, mandated));
          return Degenerate(cur, next, mandated);
        }
        ghost var link := if Selects(plane, cur, next) then Selected else Adjusted;
        mandated := Unset;
        Advance(plane, points, links, time, cur, next, link);
        DrivesOn(old(links), links, link);
        Restated(plane, points, pending, Point(time, cur.s, cur.v, Known(StepAcceleration(cur, next))), start, from, probe);
        Push(Point(time, cur.s, cur.v, Known(StepAcceleration(cur, next))), link);
        time := time + StepTime(cur, next);
        var ahead := Point(time, next.s, next.v, Unset);
        if probe.LimitHit? || next.s == plane.Length() {
          ArrivesAt(plane, points, ahead, start, from, probe);
          r := EndPass(ahead, probe);
          ArrivesHere(plane, points, start, from, probe, fuel, r);
          return;
        }
        DriveOn(plane, points, ahead, start, from);
        cur := next;
      }
      r := OutOfFuel;
      OutOfSteps(plane, points, Point(time, cur.s, cur.v, Unset), start, from, fuel);
    }

    /** `find_switching_point` from where the pass stopped. */
    method Searched(at: Phase) returns (r: Outcome)
      requires plane.Valid() && 0.0 <= at.s < plane.Length()
      requires Ended(plane, points) && points[|points| - 1].s == at.s
      ensures r.To? ==> ForwardDone(plane, points, r.sp) && FromSearch(plane, at.s, r.sp)
      ensures Searches(plane, points, r)
    {
      match plane.search(at.s)
      case None => r := Failed;
      case Some(sp) => r := To(sp);
    }

    method IntegrateBackwardsFrom(from: SwitchingPoint, fuel: nat) returns (r: Outcome)
      requires plane.Valid() && ForwardDone(plane, points, from) && LinksOk(plane, points, links)
      modifies this
      ensures reached == old(reached)
      ensures BackwardOutcome(plane, old(points), points, from, fuel, r)
      ensures r.To? ==>
                r.sp == from && Resumable(plane, points, from) && duration == points[|points| - 1].time &&
                LinksOk(plane, points, links) && Replaces(old(links), links, from.backward)
      ensures r.Degenerate? ==> BackwardDegenerates(plane, r) && (r.mandated.Unset? || r.mandated == from.backward)
      ensures r.Spins? ==> SpinsAt(plane, r.cur, r.at)
    {
      hide ForwardDone, SafePoint, Resumable, LinksOk, Replaces, Retreating, CrossesAt, Joinable, SpliceOf, Undershoots, HoldsAtRest, Brakes,
        StepTime, StepAcceleration, SteppedBack, Blocked, TooSlow, StepAbove, BackwardOutcome;
      if |points| < 2 {
        NothingToMeet(plane, points, from, fuel);
        return Failed;
      }
      if from.s <= points[0].s || from.s < points[|points| - 1].s {
        NothingToMeet(plane, points, from, fuel);
        return Failed;
      }
      StartBackward(plane, points, from);
      var window: nat := |points| - 2;
      var backward := [Point(0.0, from.s, from.sDot, from.forward)];
      for step := 0 to fuel
        invariant Retreating(plane, points, backward, from, window) && |backward| == step + 1
        invariant points == old(points) && links == old(links) && reached == old(reached)
      {
        RetreatRange(plane, points, backward, from, window);
        var last := backward[|backward| - 1];
        var cur := Phase(last.s, last.sDot);
        var mandated := if |backward| == 1 then from.backward else Unset;
        var probe := BackwardStep(plane, cur, mandated);
        match probe
        case StepThrows =>
          ThrowsBack(plane, points, backward, from, window, fuel);
          return Failed;
        case SpinsForEver(at) =>
          SpunBack(plane, points, backward, from, window, at, fuel);
          return Spins(cur, at);
        case Reached(at) =>
          var next := Point(0.0, at.s, at.v, Unset);
          var scan;
          ghost var before := window;
          scan, window := SlideWindow(points, window, last, next);
          if scan.Crosses? {
            ghost var crossed := points;
            assert CrossedBy(plane, points, backward, from, before, next, scan.at);
            var ok := Splice(scan.at, backward, from);
            if !ok {
              NeverTurned(plane, crossed, scan.at, backward, from);
              SlowBack(plane, crossed, points, backward, from, before, next, scan.at, fuel);
              return Failed;
            }
            SplicedBack(plane, crossed, points, backward, from, before, next, scan.at, fuel);
            return To(from);
          }
          assert ClearBack(plane, points, backward, from, before, next);
          var limit := MinLimit(plane.acc(at.s), plane.vel(at.s));
          BlockedExactly(plane, at);
          if limit.Bounded? && (limit.v <= 0.0 || at.v > limit.v + plane.eps) {
            BlockedBack(plane, points, backward, from, before, next, fuel);
            return Failed;
          }
          if at.v < 0.0 || Midpoint(at.v, cur.v) == 0.0 {
            DegeneratedBack(plane, points, backward, from, before, next, fuel, Degenerate(cur, at, mandated));
            return Degenerate(cur, at, mandated);
          }
          ExtendBackward(plane, points, backward, from, before, window, at, cur);
          backward := backward + [Point(StepTime(at, cur), at.s, at.v, Known(StepAcceleration(at, cur)))];
      }
      r := OutOfFuel;
      CutOffBack(plane, points, backward, from, window, fuel);
    }

    /** Cut the forward points after `at`, which has a crossing right of it, and join the backward
        points on in forward order with running times. */
    method Splice(at: nat, backward: seq<Point>, from: SwitchingPoint) returns (ok: bool)
      requires plane.Valid() && |points| >= 2 && at < |points| - 1 && BackwardOk(plane, points, backward, from)
      requires backward != [] && points[at].s < backward[|backward| - 1].s && LinksOk(plane, points, links)
      modifies this
      ensures reached == old(reached)
      ensures ok ==> !TooSlow(plane, old(points), at, backward)
      ensures !ok ==> TooSlow(plane, old(points), at, backward) || Turned(old(points), at, backward)
      ensures ok ==> Joinable(old(points), at, backward) && points == SpliceOf(old(points), at, backward)
      ensures ok ==>
                Resumable(plane, points, from) && duration == points[|points| - 1].time &&
                LinksOk(plane, points, links) && Replaces(old(links), links, from.backward)
    {
      hide Consistent, AllSafe, BackwardOk, BackwardList, SafePoint, Resumable, Linked, EndsAt, LinksOk, SamePlace, Replaces, Replaced,
        StepTime, StepAcceleration, SpliceOf, Rejoining, Joinable;
      BackwardRange(plane, points, backward, from);
      KeepForward(plane, points, backward, from, at);
      CutLinks(plane, points, links, at, |backward|, from.backward);
      ghost var joins := Replaced(links, at, |backward|, from.backward);
      points := points[..at + 1];
      links := joins[..at];
      var last := points[|points| - 1];
      var p, q := PhaseOf(last), PhaseOf(backward[|backward| - 1]);
      if EpsEq(Midpoint(p.v, q.v), 0.0, plane.eps) {
        return false;
      }
      var dt := StepTime(p, q);
      if dt <= 0.0 {
        return false;
      }
      JoinAt(plane, points, backward, p, q);
      RelabelLinks(plane, points, links, Known(StepAcceleration(p, q)));
      points := points[..|points| - 1] + [last.(sDdot := Known(StepAcceleration(p, q)))];
      var total := last.time + dt;
      var i := |backward|;
      RejoinFirst(old(points), at, backward, points, p, q, total);
      while i > 0
        invariant 0 <= i <= |backward| && points != [] && |joins| == at + |backward| && |points| == at + 1 + |backward| - i
        invariant Consistent(points) && AllSafe(plane, points)
        invariant i > 0 ==> Linked(points[|points| - 1], backward[i - 1].(time := total))
        invariant i < |backward| ==> SamePlace(points[|points| - 1], backward[i])
        invariant i == 0 ==> EndsAt(points, from)
        invariant links == joins[..|points| - 1] && LinksOk(plane, points, links) && reached == old(reached)
        invariant Rejoining(old(points), at, backward, points, i, total)
      {
        i := i - 1;
        AppendBackward(plane, points, backward, from, i, total);
        RejoinNext(old(points), at, backward, points, i, total);
        AppendLink(plane, points, old(links), backward, from, at, i, total);
        points := points + [backward[i].(time := total)];
        links := joins[..|points| - 1];
        total := total + backward[i].time;
      }
      duration := points[|points| - 1].time;
      ok := true;
      Rejoined(old(points), at, backward, points, total);
      Spliced(plane, points, from);
      ReplacedAll(old(links), links, at, |backward|, from.backward);
    }

    /** The whole generation: alternate the passes until one is spliced at the path's end. Every outcome is the
        one that a run of passes leads to. However long it runs, a list it finishes is consistent from rest
        to rest, spans the whole path, is nowhere more than eps above either limit curve, and ends on a
        backward pass; its last acceleration is set exactly when the last forward pass itself reached the
        path's end, and always where the search never reports that end. */
    method Create(fuel: nat) returns (r: Outcome)
      requires plane.Valid() && points == [] && links == []
      modifies this
      ensures Generates(plane, points, fuel, r)
      ensures r.To? ==> r.sp.kind.PathEnd? && Finished(plane, points, duration)
      ensures r.To? ==> LinksOk(plane, points, links) && links != [] && !links[|links| - 1].Forward()
      ensures r.To? ==> (points[|points| - 1].sDdot.Known? <==> reached == plane.Length())
      ensures r.To? && points[|points| - 1].sDdot.Unset? ==> plane.search(reached) == Some(r.sp)
      ensures r.To? && !SearchesEnd(plane) ==> points[|points| - 1].sDdot.Known?
      ensures r.Degenerate? ==> ForwardDegenerates(plane, r) || BackwardDegenerates(plane, r)
      ensures r.Spins? ==> SpinsAt(plane, r.cur, r.at)
    {
      hide Resumable, ForwardDone, SwitchOk, Finished, LinksOk, Replaces, Drives, ForwardDegenerates, BackwardDegenerates, SpinsAt,
        Passes, ForwardPass, BackwardOutcome, PassEnd, SomeMoves;
      var sp := SwitchingPoint(0.0, 0.0, PathBegin, Unset, Unset);
      NoPasses(plane);
      for step := 0 to fuel
        invariant CanResume(sp) && sp.s <= plane.Length()
        invariant Passes(plane, step, points, sp) && !sp.kind.PathEnd?
      {
        ghost var resumed := points;
        r := IntegrateForwardFrom(sp, fuel);
        if !r.To? {
          StopsForward(plane, step, resumed, sp, points, fuel, r);
          return;
        }
        ghost var driven, to := points, r.sp;
        if r.sp.s <= sp.s {
          StopsBetween(plane, step, resumed, sp, driven, to, [], points, fuel, Failed);
          return Failed;
        }
        EndOfPass(plane, points, r.sp);
        ghost var drove := links;
        r := IntegrateBackwardsFrom(r.sp, fuel);
        if !r.To? {
          StopsBetween(plane, step, resumed, sp, driven, to, points, points, fuel, r);
          return;
        }
        OnePassMore(plane, step, resumed, sp, driven, points, to, fuel);
        sp := r.sp;
        if sp.kind.PathEnd? {
          assert Generates(plane, points, fuel, r);
          EndKind(plane, reached, sp);
          AtPathEnd(plane, points, sp);
          EndsOnBackward(drove, links, sp.backward);
          return;
        }
        Continues(plane, points, sp);
      }
      r := OutOfFuel;
    }
  }

  /** So many pairs of passes, each forward one resumed where the last splice ended, lead to these points and
      this switching point. */
  ghost predicate Passes(plane: Plane, n: nat, points: seq<Point>, sp: SwitchingPoint) {
    if n == 0 then points == [] && sp == Begin()
    else exists before, from, driven ::
           Passes(plane, n - 1, before, from) && !from.kind.PathEnd? && PairOfPasses(plane, before, from, driven, points, sp)
  }

  ghost predicate PairOfPasses(plane: Plane, before: seq<Point>, from: SwitchingPoint, driven: seq<Point>, points: seq<Point>, sp: SwitchingPoint) {
    driven != [] && PassEnd(plane, driven[|driven| - 1].s, sp) && from.s < sp.s &&
    ForwardPass(plane, before, driven, from, 0, To(sp)) && IsSplice(plane, driven, points, sp)
  }

  /** Every outcome of the generation: the run of passes to the path's end, or the one that stopped in the middle
      of a pass, made no progress, or was long enough to be cut off. */
  ghost predicate Generates(plane: Plane, points: seq<Point>, fuel: nat, r: Outcome) {
    if r.To? then exists n: nat :: n <= fuel && Passes(plane, n, points, r.sp) && r.sp.kind.PathEnd?
    else exists n: nat, before, from :: n <= fuel && Passes(plane, n, before, from) && !from.kind.PathEnd? &&
                                        ((n == fuel && r.OutOfFuel?) || (n < fuel && StopsIn(plane, before, from, points, fuel, r)))
  }

  ghost predicate StopsIn(plane: Plane, before: seq<Point>, from: SwitchingPoint, points: seq<Point>, fuel: nat, r: Outcome) {
    ForwardPass(plane, before, points, from, fuel, r) ||
    exists driven, sp, left :: ForwardPass(plane, before, driven, from, fuel, To(sp)) && GoesBack(plane, from, driven, left, sp, fuel, r)
  }

  /** After a forward pass to sp: no progress, or the backward pass from there. */
  ghost predicate GoesBack(plane: Plane, from: SwitchingPoint, driven: seq<Point>, left: seq<Point>, sp: SwitchingPoint, fuel: nat, r: Outcome) {
    if sp.s <= from.s then r == Failed else BackwardOutcome(plane, driven, left, sp, fuel, r)
  }

  lemma NoPasses(plane: Plane)
    ensures Passes(plane, 0, [], Begin())
  {
  }

  lemma StopsForward(plane: Plane, n: nat, before: seq<Point>, from: SwitchingPoint, points: seq<Point>, fuel: nat, r: Outcome)
    requires n < fuel && Passes(plane, n, before, from) && !from.kind.PathEnd? && !r.To? && ForwardPass(plane, before, points, from, fuel, r)
    ensures Generates(plane, points, fuel, r)
  {
    hide Passes, ForwardPass;
    assert StopsIn(plane, before, from, points, fuel, r);
  }

  lemma StopsBetween(plane: Plane, n: nat, before: seq<Point>, from: SwitchingPoint, driven: seq<Point>, sp: SwitchingPoint, left: seq<Point>,
                     points: seq<Point>, fuel: nat, r: Outcome)
    requires n < fuel && Passes(plane, n, before, from) && !from.kind.PathEnd? && !r.To?
    requires ForwardPass(plane, before, driven, from, fuel, To(sp))
    requires GoesBack(plane, from, driven, left, sp, fuel, r)
    ensures Generates(plane, points, fuel, r)
  {
    hide Passes, ForwardPass, GoesBack;
    assert StopsIn(plane, before, from, points, fuel, r);
  }

  lemma OnePassMore(plane: Plane, n: nat, before: seq<Point>, from: SwitchingPoint, driven: seq<Point>, points: seq<Point>, sp: SwitchingPoint,
                    fuel: nat)
    requires Passes(plane, n, before, from) && !from.kind.PathEnd? && ForwardPass(plane, before, driven, from, fuel, To(sp)) && from.s < sp.s
    requires BackwardOutcome(plane, driven, points, sp, fuel, To(sp)) && driven != [] && PassEnd(plane, driven[|driven| - 1].s, sp)
    ensures Passes(plane, n + 1, points, sp)
  {
    hide IsSplice, Stopped, Kept, PassEnd;
    assert PairOfPasses(plane, before, from, driven, points, sp);
  }

  /** The end a search reports carries no acceleration; the end a pass reaches does. */
  lemma EndKind(plane: Plane, reached: real, sp: SwitchingPoint)
    requires plane.Valid() && sp.kind.PathEnd? && 0.0 <= reached
    requires PassEnd(plane, reached, sp)
    ensures sp.forward.Known? <==> reached == plane.Length()
    ensures sp.forward.Unset? ==> plane.search(reached) == Some(sp)
  {
    hide SomeMoves;
  }

  /** The search reports the path's end from somewhere. */
  ghost predicate SearchesEnd(plane: Plane) {
    exists s :: plane.search(s).Some? && plane.search(s).value.kind.PathEnd?
  }

  /** The scan found the step on from the backward points above the forward ones, rightmost at `at`. */
  ghost predicate CrossedBy(plane: Plane, points: seq<Point>, backward: seq<Point>, from: SwitchingPoint, window: nat, next: Point, at: nat) {
    AnswersBack(plane, points, backward, from, window, Reached(PhaseOf(next))) && next.s < backward[|backward| - 1].s &&
    CrossesAt(points, backward[|backward| - 1], next, at)
  }

  /** The list a backward pass leaves: the splice, at the forward point where it was found to cross, of the
      backward points it had. */
  ghost predicate IsSplice(plane: Plane, before: seq<Point>, after: seq<Point>, from: SwitchingPoint) {
    exists backward, window: nat, next, at: nat ::
      CrossedBy(plane, before, backward, from, window, next, at) && Joinable(before, at, backward) &&
      !TooSlow(plane, before, at, backward) && after == SpliceOf(before, at, backward)
  }

  /** A finished trajectory. */
  ghost predicate Finished(plane: Plane, points: seq<Point>, duration: real) {
    |points| >= 2 && Consistent(points) && AllSafe(plane, points) &&
    points[|points| - 1].s == plane.Length() && points[|points| - 1].sDot == 0.0 && duration == points[|points| - 1].time
  }

  lemma EndOfPass(plane: Plane, points: seq<Point>, sp: SwitchingPoint)
    requires ForwardDone(plane, points, sp)
    ensures sp.s <= plane.Length() && (sp.kind.PathEnd? ==> sp.s == plane.Length() && sp.sDot == 0.0)
  {
    hide Ended;
  }

  lemma AtPathEnd(plane: Plane, points: seq<Point>, sp: SwitchingPoint)
    requires Resumable(plane, points, sp) && sp.s == plane.Length() && sp.sDot == 0.0
    ensures points != [] && Finished(plane, points, points[|points| - 1].time) && points[|points| - 1].sDdot == sp.forward
  {
    hide Consistent, AllSafe;
  }

  lemma Continues(plane: Plane, points: seq<Point>, sp: SwitchingPoint)
    requires Resumable(plane, points, sp)
    ensures points != []
  {
    hide Consistent, AllSafe;
  }

  // ----- what a finished trajectory is good for -----

  /** A finished trajectory is what the streaming session asks of one, and complete exactly when its terminal
      acceleration is set. */
  lemma FinishedIsBuilt(plane: Plane, points: seq<Point>, duration: real)
    requires Finished(plane, points, duration)
    ensures Session.Built(Session.Traj(points, plane.Length()))
    ensures Session.Complete(Session.Traj(points, plane.Length())) <==> points[|points| - 1].sDdot.Known?
  {
    hide AllSafe, Linked;
    FinishedIsTimed(plane, points, duration);
  }

  lemma FinishedIsTimed(plane: Plane, points: seq<Point>, duration: real)
    requires Finished(plane, points, duration)
    ensures Timed(points) && Duration(points) == duration
  {
    hide AllSafe, Linked;
    forall i, j | 0 <= i < j < |points|
      ensures Times(points)[i] < Times(points)[j]
    {
      ChainedIncreases(points, i, j);
    }
  }

  /** Sampling a finished trajectory at exactly its duration reads its last point, so it yields a
      sample, at rest at the path's end, exactly when that point's acceleration is set. By `Create`, that
      is exactly when the last forward pass itself reached the path's end, and not when the search reported
      the end, with no acceleration. */
  lemma TerminalSample(plane: Plane, points: seq<Point>, duration: real)
    requires Finished(plane, points, duration)
    ensures Timed(points) && (Samplable(points, duration) <==> points[|points| - 1].sDdot.Known?)
    ensures Samplable(points, duration) ==>
              StateFrom(PointAt(points, duration), duration) == State(plane.Length(), 0.0, points[|points| - 1].sDdot.a)
  {
    hide Linked, AllSafe, StateFrom;
    FinishedIsTimed(plane, points, duration);
    PointAtOwnTime(points, |points| - 1);
    assert Times(points)[0] < Times(points)[|points| - 1];
    if points[|points| - 1].sDdot.Known? {
      StateAtOwnTime(points[|points| - 1]);
    }
  }

  lemma StateAtOwnTime(p: Point)
    requires p.sDdot.Known?
    ensures StateFrom(p, p.time) == State(p.s, p.sDot, p.sDdot.a)
  {
    var dt: real := 0.0;
    assert p.sDot * dt == 0.0 && 0.5 * p.sDdot.a * dt * dt == 0.0 && p.sDdot.a * dt == 0.0;
  }

  /** Every time short of the duration can be sampled. */
  lemma EarlierSamples(plane: Plane, points: seq<Point>, duration: real, t: real)
    requires Finished(plane, points, duration) && 0.0 <= t < duration
    ensures Timed(points) && Samplable(points, t)
  {
    hide AllSafe, Linked;
    FinishedIsTimed(plane, points, duration);
    var n := UpperBound(Times(points), t);
    assert Times(points)[0] == 0.0 && Times(points)[|points| - 1] == duration;
    assert 0 < n < |points|;
    KnownIfLinked(points[n - 1], points[n]);
  }

  lemma KnownIfLinked(p: Point, q: Point)
    requires Linked(p, q)
    ensures p.sDdot.Known?
  {
  }

  /** The curves and geometry of a plane belong together. */
  ghost predicate TracksVelocity(plane: Plane, s: real) {
    exists l, i :: IsVelocityLimit(plane.joints(s), plane.eps, |plane.joints(s)|, l, i) &&
                   (l.Bounded? ==> plane.vel(s).Bounded? && plane.vel(s).v <= l.v)
  }

  ghost predicate TracksAcceleration(plane: Plane, s: real) {
    ValidLimits(plane.joints(s)) &&
    exists l :: IsAccelerationLimitSq(plane.joints(s), plane.eps, l) && plane.acc(s).Bounded? == l.Bounded? &&
                (l.Bounded? ==> plane.acc(s).v * plane.acc(s).v == l.v)
  }

  /** In joint terms: at every point of a finished trajectory where the curves track the geometry, no
      moving joint exceeds its velocity limit by more than eps*|q'|. */
  lemma FinishedRespectsVelocities(plane: Plane, points: seq<Point>, duration: real, k: nat, i: nat)
    requires plane.Valid() && Finished(plane, points, duration) && k < |points| && TracksVelocity(plane, points[k].s)
    requires var js := plane.joints(points[k].s); i < |js| && Moving(js[i], plane.eps)
    ensures var j := plane.joints(points[k].s)[i]; Abs(j.dq) * points[k].sDot <= j.vMax + plane.eps * Abs(j.dq)
  {
    hide Consistent, SomeMoves, IsVelocityLimit, Moving;
    var p, js := points[k], plane.joints(points[k].s);
    assert SafePoint(plane, p);
    var l, m :| IsVelocityLimit(js, plane.eps, |js|, l, m) && (l.Bounded? ==> plane.vel(p.s).Bounded? && plane.vel(p.s).v <= l.v);
    VelocityCurve(js, plane.eps, l, m, p.sDot - plane.eps);
    WithSlack(js[i], p.sDot, plane.eps);
  }

  lemma WithSlack(j: Joint, sDot: real, eps: real)
    requires WithinVelocity(j, sDot - eps)
    ensures Abs(j.dq) * sDot <= j.vMax + eps * Abs(j.dq)
  {
    var d := Abs(j.dq);
    assert d * (sDot - eps) == d * sDot - eps * d;
  }

  /** The minimum acceleration exceeds no moving joint's limit by more than slack*|q'|. */
  ghost predicate MinimumFits(js: seq<Joint>, eps: real, u: real, slack: real) {
    SDdotMin(js, eps, u).Bounded? &&
    forall i :: 0 <= i < |js| && Moving(js[i], eps) ==> NearlyMeetsLimit(js[i], u, SDdotMin(js, eps, u).v, slack)
  }

  /** The same for accelerations: at every such point the bounds cross by no more than a slack of order
      eps, so the minimum acceleration keeps every moving joint within its limit to slack*|q'|, and the
      curvature term of every stationary joint the curve looks at is within its limit to 2*eps*sDot*|q''|. */
  lemma FinishedRespectsAccelerations(plane: Plane, points: seq<Point>, duration: real, k: nat, js: seq<Joint>, v: real, slack: real)
    requires plane.Valid() && Finished(plane, points, duration) && k < |points| && TracksAcceleration(plane, points[k].s)
    requires js == plane.joints(points[k].s) && v == points[k].sDot && slack == BackwardSolve.CrossSlack(js, plane.eps, v)
    ensures !Crossed(SDdotMin(js, plane.eps, v * v), SDdotMax(js, plane.eps, v * v), slack)
    ensures MinimumFits(js, plane.eps, v * v, slack)
    ensures BackwardSolve.StationaryNearlyFits(js, plane.eps, v)
  {
    hide Consistent, IsAccelerationLimitSq, SomeMoves, MinimumFits, ValidLimits, BackwardSolve.CrossSlack;
    SafeAndForward(plane, points, duration, k);
    var l := TrackedLimit(plane, points[k].s);
    hide *;
    BackwardSolve.CrossingNearCurve(js, plane.eps, v, l, plane.acc(points[k].s));
    BackwardSolve.SlackIsNonNegative(js, plane.eps, v);
    MinimumNearlyMeets(js, plane.eps, v * v, slack);
  }

  /** The squared limit a tracking curve is the root of. */
  lemma TrackedLimit(plane: Plane, s: real) returns (l: Limit)
    requires plane.Valid() && TracksAcceleration(plane, s)
    ensures BelowAll(plane.joints(s), plane.eps, l) && plane.acc(s).Bounded? == l.Bounded? && ValidLimits(plane.joints(s))
    ensures plane.acc(s).Bounded? ==> 0.0 <= plane.acc(s).v && plane.acc(s).v * plane.acc(s).v == l.v
    ensures 0.0 < plane.eps && SomeMoves(plane.joints(s), plane.eps)
  {
    hide BelowAll, Attained, SomeMoves, ValidLimits;
    l :| IsAccelerationLimitSq(plane.joints(s), plane.eps, l) && plane.acc(s).Bounded? == l.Bounded? &&
         (l.Bounded? ==> plane.acc(s).v * plane.acc(s).v == l.v);
  }

  lemma SafeAndForward(plane: Plane, points: seq<Point>, duration: real, k: nat)
    requires Finished(plane, points, duration) && k < |points|
    ensures plane.Safe(points[k].s, points[k].sDot) && UnderBy(points[k].sDot, plane.acc(points[k].s), plane.eps)
    ensures 0.0 <= points[k].sDot
  {
    assert SafePoint(plane, points[k]);
  }

  /** Where the bounds cross by no more than a slack, the lower one exceeds no joint's limit by more. */
  lemma MinimumNearlyMeets(js: seq<Joint>, eps: real, u: real, slack: real)
    requires SomeMoves(js, eps) && 0.0 <= slack && !Crossed(SDdotMin(js, eps, u), SDdotMax(js, eps, u), slack)
    ensures MinimumFits(js, eps, u, slack)
  {
    hide NearlyMeetsLimit, LowerFrom, UpperFrom, SDdotMin, SDdotMax;
    SDdotMinIsGreatest(js, eps, u);
    SDdotMaxIsLeast(js, eps, u);
    forall i | 0 <= i < |js| && Moving(js[i], eps)
      ensures NearlyMeetsLimit(js[i], u, SDdotMin(js, eps, u).v, slack)
    {
      NearBounds(js[i], u, SDdotMin(js, eps, u).v, slack);
    }
  }

  /** And over every braked link of a finished trajectory the acceleration itself, which is constant until
      the next point, keeps every moving joint at the link's start within its limit to
      (eps + slack)*|q'|. */
  lemma FinishedBrakesWithinLimits(plane: Plane, points: seq<Point>, duration: real, links: seq<Link>, k: nat,
                                   js: seq<Joint>, v: real, slack: real)
    requires plane.Valid() && Finished(plane, points, duration) && LinksOk(plane, points, links)
    requires k < |links| && links[k].Braked? && TracksAcceleration(plane, points[k].s)
    requires js == plane.joints(points[k].s) && v == points[k].sDot && slack == BackwardSolve.CrossSlack(js, plane.eps, v)
    ensures points[k].sDdot.Known?
    ensures forall i :: 0 <= i < |js| && Moving(js[i], plane.eps) ==>
                          NearlyMeetsLimit(js[i], v * v, points[k].sDdot.a, plane.eps + slack)
  {
    hide AllSafe, SomeMoves, TracksAcceleration, Brakes, SDdotMin, SDdotMax, NearlyMeetsLimit, Moving, MinimumFits,
      BackwardSolve.CrossSlack;
    var p, q := points[k], points[k + 1];
    assert BrakesOnto(plane, p, q) && Linked(p, q);
    FinishedRespectsAccelerations(plane, points, duration, k, js, v, slack);
    SafeAndForward(plane, points, duration, k);
    BackwardSolve.SlackIsNonNegative(js, plane.eps, v);
    LinkQuotient(p, q);
    hide Finished, LinksOk, Linked;
    BackwardLinkMeetsLimits(plane, Phase(p.s, v), Phase(q.s, q.sDot), v * v, slack);
  }

  /** An Euler step kept as it is stores the acceleration it was taken under. */
  lemma StepKeepsAcceleration(plane: Plane, cur: Phase, mandated: Accel, a: real, euler: Phase)
    requires StepsTo(plane, cur, mandated, a, euler) && Midpoint(cur.v, euler.v) != 0.0
    ensures StepTime(cur, euler) != 0.0 && StepAcceleration(cur, euler) == a
  {
    hide *;
    StepEnergy(plane, cur, mandated, a, euler);
    EnergyGives(cur, euler, a);
  }

  lemma StepEnergy(plane: Plane, cur: Phase, mandated: Accel, a: real, euler: Phase)
    requires StepsTo(plane, cur, mandated, a, euler)
    ensures cur.s < euler.s && euler.v * euler.v - cur.v * cur.v == 2.0 * a * (euler.s - cur.s)
  {
    hide EulerStep, SelectAcceleration;
    EulerIsConstantAcceleration(cur, a, plane.delta, plane.eps);
  }

  lemma EnergyGives(cur: Phase, next: Phase, a: real)
    requires cur.s < next.s && Midpoint(cur.v, next.v) != 0.0 && next.v * next.v - cur.v * cur.v == 2.0 * a * (next.s - cur.s)
    ensures StepTime(cur, next) != 0.0 && StepAcceleration(cur, next) == a
  {
    QuotientGives(cur.v, next.v, a, next.s - cur.s, StepTime(cur, next));
  }

  lemma QuotientGives(v: real, w: real, a: real, ds: real, dt: real)
    requires 0.0 < ds && Midpoint(v, w) != 0.0 && dt == ds / Midpoint(v, w) && w * w - v * v == 2.0 * a * ds
    ensures dt != 0.0 && (w - v) / dt == a
  {
    var m := Midpoint(v, w);
    assert dt * m == ds;
    var g := w - v;
    assert g * m == a * ds;
    assert a * (dt * m) == (a * dt) * m;
    SameFactor(g, a * dt, m);
    DivIs(g, dt, a);
  }

  lemma SameFactor(x: real, y: real, m: real)
    requires m != 0.0 && x * m == y * m
    ensures x == y
  {
    DivIs(x * m, m, x);
    DivIs(x * m, m, y);
  }

  /** A selected acceleration lies between the checked bounds at cur. */
  lemma SelectedIsWithin(plane: Plane, cur: Phase, a: real, euler: Phase, u: real)
    requires plane.Valid() && StepsTo(plane, cur, Unset, a, euler) && u == Square(cur.v)
    ensures forall i :: 0 <= i < |plane.joints(cur.s)| && Moving(plane.joints(cur.s)[i], plane.eps) ==>
                          NearlyMeetsLimit(plane.joints(cur.s)[i], u, a, plane.eps)
  {
    hide SDdotMin, SDdotMax, NearlyMeetsLimit, Moving, EulerStep, SomeMoves;
    CheckedBoundsMeetLimits(plane.joints(cur.s), plane.eps, u, a);
  }

  /** Over every selected link of a finished trajectory the acceleration, which is constant until the next point,
      is the selected one, and it keeps every moving joint at the link's start within its limit to
      eps*|q'|. */
  lemma FinishedSelectsWithinLimits(plane: Plane, points: seq<Point>, duration: real, links: seq<Link>, k: nat,
                                    js: seq<Joint>, u: real)
    requires plane.Valid() && Finished(plane, points, duration) && LinksOk(plane, points, links)
    requires k < |links| && links[k].Selected? && js == plane.joints(points[k].s) && u == Square(points[k].sDot)
    ensures points[k].sDdot.Known? && StepsTo(plane, PhaseOf(points[k]), Unset, points[k].sDdot.a, PhaseOf(points[k + 1]))
    ensures forall i :: 0 <= i < |js| && Moving(js[i], plane.eps) ==> NearlyMeetsLimit(js[i], u, points[k].sDdot.a, plane.eps)
  {
    hide AllSafe, NearlyMeetsLimit, Moving, StepsTo, Plane.Valid;
    var p, q := points[k], points[k + 1];
    assert Selects(plane, PhaseOf(p), PhaseOf(q)) && Linked(p, q);
    var a :| StepsTo(plane, PhaseOf(p), Unset, a, PhaseOf(q));
    LinkQuotient(p, q);
    StepKeepsAcceleration(plane, PhaseOf(p), Unset, a, PhaseOf(q));
    hide Finished, LinksOk, Linked, Selects;
    SelectedIsWithin(plane, PhaseOf(p), a, PhaseOf(q), u);
  }

  /** A link's stored acceleration is the one computed from its ends. */
  lemma LinkQuotient(p: Point, q: Point)
    requires Linked(p, q)
    ensures Midpoint(p.sDot, q.sDot) != 0.0
    ensures var dt := (q.s - p.s) / Midpoint(p.sDot, q.sDot); dt == q.time - p.time && (q.sDot - p.sDot) / dt == p.sDdot.a
  {
    var dt, m := q.time - p.time, Midpoint(p.sDot, q.sDot);
    assert m * dt == q.s - p.s;
    DivIs(q.s - p.s, m, dt);
    DivIs(q.sDot - p.sDot, dt, p.sDdot.a);
  }

  // ----- how the points are joined -----

  /** The constant acceleration from p to q is the minimum acceleration at p, within eps. */
  ghost predicate BrakesOnto(plane: Plane, p: Point, q: Point) {
    p.s < q.s && Brakes(plane, Phase(p.s, p.sDot), Phase(q.s, q.sDot))
  }

  /** The step from cur is the Euler step under the acceleration selected there. */
  ghost predicate Selects(plane: Plane, cur: Phase, next: Phase) {
    exists a :: StepsTo(plane, cur, Unset, a, next)
  }

  /** One link between any two neighbours; every braked one brakes, and of the forward ones those are selected
      that are steps as selected. */
  ghost predicate LinksOk(plane: Plane, points: seq<Point>, links: seq<Link>) {
    |points| == |links| + 1 &&
    (forall i :: 0 <= i < |links| && links[i].Braked? ==> BrakesOnto(plane, points[i], points[i + 1])) &&
    forall i :: 0 <= i < |links| && links[i].Forward() ==> (links[i].Selected? <==> Selects(plane, PhaseOf(points[i]), PhaseOf(points[i + 1])))
  }

  /** A forward pass adds forward links. */
  ghost predicate Drives(before: seq<Link>, after: seq<Link>) {
    |before| <= |after| && after[..|before|] == before && forall i :: |before| <= i < |after| ==> after[i].Forward()
  }

  /** The links of n backward points, in forward order: all braked, but for the one into the switching
      point when that was mandated. */
  function BackwardLinks(n: nat, mandated: Accel): (r: seq<Link>)
    requires 1 <= n
    ensures |r| == n - 1
  {
    seq(n - 1, x requires 0 <= x < n - 1 => if x == n - 2 && mandated.Known? then Mandated else Braked)
  }

  function Replaced(before: seq<Link>, at: nat, n: nat, mandated: Accel): (r: seq<Link>)
    requires at <= |before| && 1 <= n
    ensures |r| == at + n
  {
    before[..at] + [Bridged] + BackwardLinks(n, mandated)
  }

  /** A splice keeps the links up to a forward point, bridges from it to the lowest backward point, and
      goes on with the backward pass's own. */
  ghost predicate Replaces(before: seq<Link>, after: seq<Link>, mandated: Accel) {
    exists at: nat :: at < |before| && at < |after| && after[..at] == before[..at] && after[at].Bridged? &&
                      forall i :: at < i < |after| ==> after[i] == if i == |after| - 1 && mandated.Known? then Mandated else Braked
  }

  ghost predicate SamePlace(p: Point, q: Point) {
    p.s == q.s && p.sDot == q.sDot
  }

  lemma DrivesNothing(links: seq<Link>)
    ensures Drives(links, links)
  {
  }

  lemma DrivesOn(before: seq<Link>, links: seq<Link>, link: Link)
    requires Drives(before, links) && link.Forward()
    ensures Drives(before, links + [link])
  {
  }

  /** One more point and the link to it. */
  lemma LinkOn(plane: Plane, points: seq<Point>, links: seq<Link>, p: Point, link: Link)
    requires points != [] && LinksOk(plane, points, links) && (link.Braked? ==> BrakesOnto(plane, points[|points| - 1], p))
    requires link.Forward() ==> (link.Selected? <==> Selects(plane, PhaseOf(points[|points| - 1]), PhaseOf(p)))
    ensures LinksOk(plane, points + [p], links + [link])
  {
    hide BrakesOnto, Selects;
    var all, joins := points + [p], links + [link];
    forall i | 0 <= i < |joins| && joins[i].Braked?
      ensures BrakesOnto(plane, all[i], all[i + 1])
    {
      if i < |links| {
        assert BrakesOnto(plane, points[i], points[i + 1]);
      }
    }
    forall i | 0 <= i < |joins| && joins[i].Forward()
      ensures joins[i].Selected? <==> Selects(plane, PhaseOf(all[i]), PhaseOf(all[i + 1]))
    {
      if i < |links| {
        assert links[i].Selected? <==> Selects(plane, PhaseOf(points[i]), PhaseOf(points[i + 1]));
      }
    }
  }

  lemma RelabelLinks(plane: Plane, points: seq<Point>, links: seq<Link>, a: Accel)
    requires points != [] && LinksOk(plane, points, links)
    ensures LinksOk(plane, points[..|points| - 1] + [points[|points| - 1].(sDdot := a)], links)
  {
    hide Brakes, Selects;
    var all := points[..|points| - 1] + [points[|points| - 1].(sDdot := a)];
    forall i | 0 <= i < |links| && links[i].Braked?
      ensures BrakesOnto(plane, all[i], all[i + 1])
    {
      assert BrakesOnto(plane, points[i], points[i + 1]);
    }
    forall i | 0 <= i < |links| && links[i].Forward()
      ensures links[i].Selected? <==> Selects(plane, PhaseOf(all[i]), PhaseOf(all[i + 1]))
    {
      assert links[i].Selected? <==> Selects(plane, PhaseOf(points[i]), PhaseOf(points[i + 1]));
    }
  }

  lemma CutLinks(plane: Plane, points: seq<Point>, links: seq<Link>, at: nat, n: nat, mandated: Accel)
    requires LinksOk(plane, points, links) && at < |points| - 1 && 1 <= n
    ensures at < |links| && LinksOk(plane, points[..at + 1], Replaced(links, at, n, mandated)[..at])
  {
    hide BrakesOnto, Selects;
    assert Replaced(links, at, n, mandated)[..at] == links[..at];
  }

  /** One more backward point in forward order brings the next of the replaced links. */
  lemma AppendLink(plane: Plane, points: seq<Point>, before: seq<Link>, backward: seq<Point>, from: SwitchingPoint,
                   at: nat, i: nat, total: real)
    requires at <= |before| && i < |backward| && |points| == at + |backward| - i && BackwardList(plane, backward, from)
    requires LinksOk(plane, points, Replaced(before, at, |backward|, from.backward)[..|points| - 1])
    requires i + 1 < |backward| ==> SamePlace(points[|points| - 1], backward[i + 1])
    ensures LinksOk(plane, points + [backward[i].(time := total)], Replaced(before, at, |backward|, from.backward)[..|points|])
    ensures SamePlace(backward[i].(time := total), backward[i])
  {
    hide Brakes, Linked, AllSafe, Forwardly, SwitchOk, LinksOk;
    var joins := Replaced(before, at, |backward|, from.backward);
    assert joins[..|points|] == joins[..|points| - 1] + [joins[|points| - 1]];
    if i + 1 < |backward| {
      assert joins[|points| - 1] == BackwardLinks(|backward|, from.backward)[|backward| - i - 2];
      assert joins[|points| - 1].Braked? ==> BrakesOnto(plane, backward[i + 1], backward[i]);
    }
    LinkOn(plane, points, joins[..|points| - 1], backward[i].(time := total), joins[|points| - 1]);
  }

  lemma ReplacedAll(before: seq<Link>, links: seq<Link>, at: nat, n: nat, mandated: Accel)
    requires at < |before| && 1 <= n && links == Replaced(before, at, n, mandated)[..at + n]
    ensures Replaces(before, links, mandated)
  {
    assert links == Replaced(before, at, n, mandated);
    assert links[..at] == before[..at];
  }

  lemma EndsOnBackward(before: seq<Link>, links: seq<Link>, mandated: Accel)
    requires Replaces(before, links, mandated)
    ensures links != [] && !links[|links| - 1].Forward()
  {
  }

  // ----- the forward pass -----

  /** Mid-pass: the list with its pending point is consistent and joined, everything in it is safe, and
      the pending point is safe too. */
  ghost predicate Pending(plane: Plane, points: seq<Point>, links: seq<Link>, time: real, cur: Phase) {
    Consistent(points + [Point(time, cur.s, cur.v, Unset)]) && AllSafe(plane, points) && plane.Safe(cur.s, cur.v) &&
    0.0 <= cur.s <= plane.Length() && 0.0 <= cur.v &&
    LinksOk(plane, points + [Point(time, cur.s, cur.v, Unset)], links)
  }

  lemma PendingRange(plane: Plane, points: seq<Point>, links: seq<Link>, time: real, cur: Phase)
    requires Pending(plane, points, links, time, cur)
    ensures 0.0 <= cur.s <= plane.Length() && 0.0 <= cur.v
  {
  }

  lemma FreshStart(plane: Plane)
    requires plane.Valid()
    ensures Pending(plane, [], [], 0.0, Phase(0.0, 0.0))
  {
    hide SomeMoves;
    assert [] + [Point(0.0, 0.0, 0.0, Unset)] == [Point(0.0, 0.0, 0.0, Unset)];
  }

  /** Taking the switching point off a resumable list leaves it pending. */
  lemma Resumed(plane: Plane, points: seq<Point>, links: seq<Link>, sp: SwitchingPoint)
    requires Resumable(plane, points, sp) && LinksOk(plane, points, links) && sp.s <= plane.Length()
    ensures |points| >= 2
    ensures Pending(plane, points[..|points| - 1], links, points[|points| - 1].time, Phase(sp.s, sp.sDot))
  {
    hide Linked, LinksOk;
    ChainedIncreases(points, 0, |points| - 1);
    assert SafePoint(plane, points[|points| - 1]);
    Relabel(points, Unset);
    RelabelLinks(plane, points, links, Unset);
  }

  /** Pushing the pending point leaves the next one pending, if that is under the curves. */
  lemma Advance(plane: Plane, points: seq<Point>, links: seq<Link>, time: real, cur: Phase, next: Phase, link: Link)
    requires Pending(plane, points, links, time, cur) && cur.s < next.s <= plane.Length() && 0.0 <= next.v && Midpoint(cur.v, next.v) != 0.0
    requires link.Forward() && (link.Selected? <==> Selects(plane, cur, next))
    ensures StepTime(cur, next) != 0.0
    ensures var all := points + [Point(time, cur.s, cur.v, Known(StepAcceleration(cur, next)))] +
                       [Point(time + StepTime(cur, next), next.s, next.v, Unset)];
            Ended(plane, all) && LinksOk(plane, all, links + [link])
    ensures plane.UnderCurves(next.s, next.v) && plane.Valid() ==>
              Pending(plane, points + [Point(time, cur.s, cur.v, Known(StepAcceleration(cur, next)))], links + [link],
                      time + StepTime(cur, next), next)
  {
    hide Consistent, LinksOk, SomeMoves, StepTime, StepAcceleration, Selects;
    PushStep(points, time, cur, next, Unset);
    var a := Known(StepAcceleration(cur, next));
    var pending := points + [Point(time, cur.s, cur.v, Unset)];
    var pushed := points + [Point(time, cur.s, cur.v, a)];
    var all := pushed + [Point(time + StepTime(cur, next), next.s, next.v, Unset)];
    assert all[..|all| - 1] == pushed;
    RelabelLinks(plane, pending, links, a);
    assert pending[..|pending| - 1] == points;
    LinkOn(plane, pushed, links, Point(time + StepTime(cur, next), next.s, next.v, Unset), link);
  }

  lemma RestIsSafe(plane: Plane, s: real)
    requires plane.Valid()
    ensures plane.Safe(s, 0.0)
  {
    hide SomeMoves;
  }

  /** Like Pending, without the safety of the pending point, and with it pushed. */
  ghost predicate Ended(plane: Plane, points: seq<Point>) {
    points != [] && Consistent(points) && AllSafe(plane, points[..|points| - 1])
  }

  lemma StopHere(plane: Plane, points: seq<Point>, links: seq<Link>, time: real, cur: Phase)
    requires Pending(plane, points, links, time, cur)
    ensures Ended(plane, points + [Point(time, cur.s, cur.v, Unset)])
    ensures LinksOk(plane, points + [Point(time, cur.s, cur.v, Unset)], links)
  {
    hide Chained, Forwardly, LinksOk;
    var all := points + [Point(time, cur.s, cur.v, Unset)];
    assert all[..|all| - 1] == points;
  }

  lemma Finish(plane: Plane, points: seq<Point>, sp: SwitchingPoint)
    requires plane.Valid() && Ended(plane, points) && points[|points| - 1].s <= sp.s && 0.0 <= sp.s <= plane.Length()
    requires sp.sDot == 0.0 && !sp.kind.PathBegin? && (sp.kind.PathEnd? ==> sp.s == plane.Length())
    ensures ForwardDone(plane, points, sp)
  {
    hide Chained, Forwardly;
    RestIsSafe(plane, sp.s);
  }

  // ----- one backward step -----

  datatype BackwardProbe = StepThrows | SpinsForEver(at: Phase) | Reached(at: Phase)

  /** The acceleration a backward step is taken under: the one mandated at a switching point, or the
      minimum of the segment being entered. None where the bounds there are infeasible. */
  function BackwardAcceleration(plane: Plane, cur: Phase, mandated: Accel): Option<real>
    requires plane.spans.starts != []
  {
    if mandated.Known? then Some(mandated.a)
    else
      var js := if cur.s == plane.SegmentStart(cur.s) then plane.jointsBehind(cur.s) else plane.joints(cur.s);
      var bounds := CheckedBounds(SDdotMin(js, plane.eps, Square(cur.v)), SDdotMax(js, plane.eps, Square(cur.v)), plane.eps);
      if bounds.Infeasible? || bounds.lo.Unbounded? then None else Some(bounds.lo.v)
  }

  /** A backward step has no acceleration to take exactly where, unmandated, the bounds of the segment being
      entered are infeasible. */
  lemma BackwardFailsExactly(plane: Plane, cur: Phase, mandated: Accel, js: seq<Joint>, u: real)
    requires plane.Valid() && u == Square(cur.v)
    requires js == if cur.s == plane.SegmentStart(cur.s) then plane.jointsBehind(cur.s) else plane.joints(cur.s)
    ensures BackwardAcceleration(plane, cur, mandated).None? <==>
            mandated.Unset? && CheckedBounds(SDdotMin(js, plane.eps, u), SDdotMax(js, plane.eps, u), plane.eps).Infeasible?
  {
    hide SDdotMin, SDdotMax, SomeMoves;
    MovingBounds(js, plane.eps, u);
  }

  /** The joints of the segment a backward step enters. */
  function EnteredJoints(plane: Plane, cur: Phase): seq<Joint>
    requires plane.spans.starts != []
  {
    if cur.s == plane.SegmentStart(cur.s) then plane.jointsBehind(cur.s) else plane.joints(cur.s)
  }

  /** The acceleration of a backward step from cur: the one mandated, or the lower checked bound on the segment
      being entered. */
  ghost predicate ChosenBack(plane: Plane, cur: Phase, mandated: Accel, a: real) {
    plane.spans.starts != [] &&
    if mandated.Known? then a == mandated.a
    else
      var js := EnteredJoints(plane, cur);
      var bounds := CheckedBounds(SDdotMin(js, plane.eps, Square(cur.v)), SDdotMax(js, plane.eps, Square(cur.v)), plane.eps);
      bounds.Feasible? && bounds.lo == Bounded(a)
  }

  lemma BackwardIsChosen(plane: Plane, cur: Phase, mandated: Accel, a: real)
    requires plane.spans.starts != []
    ensures ChosenBack(plane, cur, mandated, a) <==> BackwardAcceleration(plane, cur, mandated) == Some(a)
  {
    hide SDdotMin, SDdotMax;
  }

  /** The Euler step back from cur, and the acceleration it is taken under. */
  ghost predicate StepsBack(plane: Plane, cur: Phase, mandated: Accel, a: real, euler: Phase) {
    plane.spans.starts != [] && 0.0 <= cur.v && euler.s < cur.s &&
    ChosenBack(plane, cur, mandated, a) && EulerStep(cur, a, -plane.delta, plane.eps) == Some(euler)
  }

  /** Where that step ends, on the segment's start if it came near it: a position ahead of the path's start. */
  ghost predicate ComesTo(plane: Plane, cur: Phase, mandated: Accel, at: Phase) {
    plane.spans.starts != [] && 0.0 < at.s < cur.s &&
    exists a, euler :: StepsBack(plane, cur, mandated, a, euler) && at == SnapBackward(cur, euler, plane.SegmentStart(cur.s), plane.eps)
  }

  lemma ComesToOnce(plane: Plane, cur: Phase, mandated: Accel, p: Phase, q: Phase)
    requires ComesTo(plane, cur, mandated, p) && ComesTo(plane, cur, mandated, q)
    ensures p == q
  {
    hide EulerStep, SnapBackward, SDdotMin, SDdotMax, EnteredJoints;
  }

  /** What becomes of that velocity: kept when mandated, and otherwise solved for, which can give up or spin. */
  ghost predicate Settles(plane: Plane, cur: Phase, mandated: Accel, at: Phase, r: BackwardProbe)
    requires at.s < cur.s
  {
    if mandated.Known? then r == Reached(at)
    else
      var js, ds := plane.joints(at.s), cur.s - at.s;
      match r
      case StepThrows =>
        !BackwardSolve.EpsZero(BackwardSolve.Residual(js, plane.eps, at.v, cur.v, ds), plane.eps) &&
        BackwardSolve.GivesUp(js, plane.eps, cur.v, at.v, ds, plane.wall)
      case SpinsForEver(p) => p == at && BackwardSolve.Spins(js, plane.eps, cur.v, at.v, ds)
      case Reached(p) => p.s == at.s && BackwardSolve.Solved(js, plane.eps, cur.v, at.v, ds, plane.wall, p.v)
  }

  /** The answer of a backward step, which throws where there is no acceleration, no progress, or no path left. */
  ghost predicate SteppedBack(plane: Plane, cur: Phase, mandated: Accel, r: BackwardProbe) {
    if exists at :: ComesTo(plane, cur, mandated, at)
    then exists at :: ComesTo(plane, cur, mandated, at) && Settles(plane, cur, mandated, at, r)
    else r.StepThrows?
  }

  /** A backward step that ends clear of the segment's start, at a velocity that is mandated or brakes as it is,
      stands. */
  lemma StepStands(plane: Plane, cur: Phase, mandated: Accel, a: real, euler: Phase)
    requires StepsBack(plane, cur, mandated, a, euler) && plane.SegmentStart(cur.s) + 2.0 * plane.eps < euler.s && 0.0 < euler.s
    requires mandated.Known? || Brakes(plane, euler, cur)
    ensures SteppedBack(plane, cur, mandated, Reached(euler))
  {
    hide EulerStep, ChosenBack, SDdotMin, BackwardSolve.Residual;
    assert ComesTo(plane, cur, mandated, euler) by {
      assert SnapBackward(cur, euler, plane.SegmentStart(cur.s), plane.eps) == euler;
    }
    assert Settles(plane, cur, mandated, euler, Reached(euler));
  }

  /** A backward step lost velocity and stopped short of the segment's start, and the snap carried it on
      to the start at a negative velocity. */
  ghost predicate Undershoots(plane: Plane, cur: Phase, mandated: Accel, at: Phase) {
    plane.spans.starts != [] && at.v < 0.0 &&
    exists a, euler :: StepsBack(plane, cur, mandated, a, euler) && 0.0 < a && plane.SegmentStart(cur.s) < euler.s &&
                       at == SnapBackward(cur, euler, plane.SegmentStart(cur.s), plane.eps)
  }

  /** At rest where the minimum acceleration is zero within eps, so that the solve may stay at rest. */
  ghost predicate HoldsAtRest(plane: Plane, at: Phase) {
    at.v == 0.0 && BackwardSolve.EpsZero(SDdotMin(plane.joints(at.s), plane.eps, 0.0), plane.eps)
  }

  /** The Euler step back, snapped. */
  method StepBack(plane: Plane, cur: Phase, mandated: Accel) returns (at: Option<Phase>)
    requires plane.Valid() && 0.0 < cur.s <= plane.Length() && 0.0 <= cur.v
    ensures at.None? ==> forall p :: !ComesTo(plane, cur, mandated, p)
    ensures at.Some? ==>
              ComesTo(plane, cur, mandated, at.value) && (at.value.v < 0.0 ==> Undershoots(plane, cur, mandated, at.value)) &&
              (cur.v == 0.0 ==> 0.0 < at.value.v)
  {
    StartsBefore(plane, cur.s);
    var start := plane.SegmentStart(cur.s);
    var chosen := BackwardAcceleration(plane, cur, mandated);
    hide SomeMoves, ChosenBack, BackwardAcceleration, Undershoots;
    forall a
      ensures ChosenBack(plane, cur, mandated, a) <==> chosen == Some(a)
    {
      BackwardIsChosen(plane, cur, mandated, a);
    }
    if chosen.None? {
      return None;
    }
    var a := chosen.value;
    var euler := EulerStep(cur, a, -plane.delta, plane.eps);
    if euler.None? {
      return None;
    }
    BackwardEulerDescends(cur, a, -plane.delta, plane.eps);
    hide EulerStep;
    var snapped := SnapBackward(cur, euler.value, start, plane.eps);
    assert StepsBack(plane, cur, mandated, a, euler.value);
    if snapped.s >= cur.s || snapped.s <= 0.0 {
      return None;
    }
    ArrivesBack(plane, cur, mandated, a, euler.value);
    at := Some(snapped);
  }

  /** One backward step from cur: an Euler step under the chosen acceleration; snapped to the segment's
      start; and then, unless mandated, the velocity from which a forward step brakes onto cur at the
      minimum acceleration of its own position. */
  method BackwardStep(plane: Plane, cur: Phase, mandated: Accel) returns (r: BackwardProbe)
    requires plane.Valid() && 0.0 < cur.s <= plane.Length() && 0.0 <= cur.v
    ensures SteppedBack(plane, cur, mandated, r)
    ensures r.Reached? ==> 0.0 < r.at.s < cur.s
    ensures r.Reached? && mandated.Unset? ==> Brakes(plane, r.at, cur)
    ensures r.Reached? && r.at.v < 0.0 ==> Undershoots(plane, cur, mandated, r.at)
    ensures r.Reached? && r.at.v == 0.0 && cur.v == 0.0 ==> mandated.Unset? && HoldsAtRest(plane, r.at)
    ensures r.SpinsForEver? ==> mandated.Unset? && SpinsAt(plane, cur, r.at)
  {
    hide SomeMoves, ChosenBack, StepsBack, HoldsAtRest, Undershoots, SnapBackward, SDdotMin, BackwardSolve.GivesUp, BackwardSolve.FoundAfter,
      BackwardSolve.Residual;
    var stepped := StepBack(plane, cur, mandated);
    if stepped.None? {
      return StepThrows;
    }
    var at := stepped.value;
    r := Reached(at);
    if mandated.Unset? {
      var solved, low, high :=
        BackwardSolve.SolveBackwardStep(plane.joints(at.s), plane.eps, cur.v, at.v, cur.s - at.s, plane.wall);
      match solved
      case CeilingExceeded(_) => r := StepThrows;
      case NeverTerminates => r := SpinsForEver(at);
      case Root(v) =>
        r := Reached(Phase(at.s, v));
        StaysAtRest(plane, Phase(at.s, v), cur);
    }
    assert Settles(plane, cur, mandated, at, r);
  }

  /** The velocity a backward step arrives with, before the solve. */
  lemma ArrivesBack(plane: Plane, cur: Phase, mandated: Accel, a: real, euler: Phase)
    requires plane.Valid() && 0.0 < cur.s <= plane.Length() && StepsBack(plane, cur, mandated, a, euler)
    ensures var at := SnapBackward(cur, euler, plane.SegmentStart(cur.s), plane.eps);
            (at.v < 0.0 ==> Undershoots(plane, cur, mandated, at)) && (cur.v == 0.0 ==> 0.0 < at.v)
  {
    hide EulerStep, ChosenBack, SnapBackward, SomeMoves;
    StartsBefore(plane, cur.s);
    var start := plane.SegmentStart(cur.s);
    if SnapBackward(cur, euler, start, plane.eps).v < 0.0 && (a <= 0.0 || euler.s <= start) {
      SnapStaysBackward(cur, a, -plane.delta, start, plane.eps);
    }
    if cur.v == 0.0 {
      FromRestRisesBackward(cur, a, -plane.delta, start, plane.eps);
    }
  }

  lemma StaysAtRest(plane: Plane, at: Phase, cur: Phase)
    requires at.s < cur.s && Brakes(plane, at, cur)
    ensures at.v == 0.0 && cur.v == 0.0 ==> HoldsAtRest(plane, at)
  {
    hide SDdotMin;
    if at.v == 0.0 && cur.v == 0.0 {
      assert at.v * at.v == 0.0;
    }
  }

  /** The constant acceleration from `at` to `to` is the minimum acceleration at `at`, within eps. */
  ghost predicate Brakes(plane: Plane, at: Phase, to: Phase)
    requires at.s < to.s
  {
    BackwardSolve.EpsZero(BackwardSolve.Residual(plane.joints(at.s), plane.eps, at.v, to.v, to.s - at.s), plane.eps)
  }

  /** So where the bounds at its position cross by no more than a slack, the acceleration a backward step
      is linked with keeps every moving joint there within its limit, to (eps + slack)*|q'|. */
  lemma BackwardLinkMeetsLimits(plane: Plane, at: Phase, to: Phase, u: real, slack: real)
    requires plane.Valid() && at.s < to.s && Brakes(plane, at, to) && Midpoint(at.v, to.v) != 0.0 && u == at.v * at.v && 0.0 <= slack
    requires !Crossed(SDdotMin(plane.joints(at.s), plane.eps, u), SDdotMax(plane.joints(at.s), plane.eps, u), slack)
    ensures var js, dt := plane.joints(at.s), (to.s - at.s) / Midpoint(at.v, to.v);
            dt != 0.0 &&
            forall i :: 0 <= i < |js| && Moving(js[i], plane.eps) ==>
                          NearlyMeetsLimit(js[i], u, (to.v - at.v) / dt, plane.eps + slack)
  {
    hide NearlyMeetsLimit, SDdotMin, SDdotMax;
    var ds, m := to.s - at.s, Midpoint(at.v, to.v);
    var dt := ds / m;
    assert dt * m == ds;
    assert (to.v - at.v) / dt == BackwardSolve.Required(at.v, to.v, ds);
    BackwardSolve.BrakingMeetsLimits(plane.joints(at.s), plane.eps, at.v, u, to.v, ds, slack);
  }

  // ----- backward points -----

  /** Backward points run down from the switching point; each after the first stores, in place of a
      time, the dt to the one before it, links to it over that dt, and brakes onto it unless mandated.
      All of them are safe. */
  ghost predicate BackwardList(plane: Plane, backward: seq<Point>, from: SwitchingPoint) {
    AllSafe(plane, backward) && Forwardly(backward) && SwitchOk(plane, from) &&
    backward != [] && backward[0] == Point(0.0, from.s, from.sDot, from.forward) &&
    0.0 < backward[|backward| - 1].s &&
    (forall i :: 0 < i < |backward| && (1 < i || from.backward.Unset?) ==> BrakesOnto(plane, backward[i], backward[i - 1])) &&
    forall i :: 0 < i < |backward| ==> Linked(backward[i].(time := 0.0), backward[i - 1].(time := backward[i].time))
  }

  /** Mid-pass: the forward list as the forward pass left it, and the backward list so far. */
  ghost predicate BackwardOk(plane: Plane, points: seq<Point>, backward: seq<Point>, from: SwitchingPoint) {
    Ended(plane, points) && BackwardList(plane, backward, from)
  }

  /** The backward pass under way: its points, what they have been scanned against, and the window. */
  ghost predicate Retreating(plane: Plane, points: seq<Point>, backward: seq<Point>, from: SwitchingPoint, window: nat) {
    backward != [] && |points| >= 2 && BackwardOk(plane, points, backward, from) && Rising(points) &&
    WindowAt(points, window, backward[|backward| - 1].s) && Falling(backward) && NothingAbove(points, backward) &&
    Retraced(plane, backward, from)
  }

  /** Only the first backward step can be mandated. */
  function MandatedBack(from: SwitchingPoint, i: nat): Accel {
    if i == 0 then from.backward else Unset
  }

  /** A limit curve stops the pass at p. */
  ghost predicate Blocked(plane: Plane, p: Phase) {
    !plane.Safe(p.s, p.v) || plane.acc(p.s) == Bounded(0.0) || plane.vel(p.s) == Bounded(0.0)
  }

  /** Each backward point is the step from the one before it. */
  ghost predicate Retraced(plane: Plane, backward: seq<Point>, from: SwitchingPoint) {
    forall i :: 0 <= i < |backward| - 1 ==> Retraces(plane, backward, from, i)
  }

  ghost predicate Retraces(plane: Plane, backward: seq<Point>, from: SwitchingPoint, i: nat)
    requires i < |backward| - 1
  {
    SteppedBack(plane, PhaseOf(backward[i]), MandatedBack(from, i), Reached(PhaseOf(backward[i + 1]))) &&
    !Blocked(plane, PhaseOf(backward[i + 1]))
  }

  lemma BlockedExactly(plane: Plane, p: Phase)
    requires plane.Valid()
    ensures var limit := MinLimit(plane.acc(p.s), plane.vel(p.s));
            Blocked(plane, p) <==> limit.Bounded? && (limit.v <= 0.0 || p.v > limit.v + plane.eps)
  {
    hide SomeMoves;
  }

  lemma RetraceOn(plane: Plane, backward: seq<Point>, from: SwitchingPoint, p: Point)
    requires backward != [] && Retraced(plane, backward, from) && !Blocked(plane, PhaseOf(p))
    requires SteppedBack(plane, PhaseOf(backward[|backward| - 1]), MandatedBack(from, |backward| - 1), Reached(PhaseOf(p)))
    ensures Retraced(plane, backward + [p], from)
  {
    hide SteppedBack, Blocked;
    var all := backward + [p];
    forall i | 0 <= i < |all| - 1
      ensures Retraces(plane, all, from, i)
    {
      if i < |backward| - 1 {
        assert Retraces(plane, backward, from, i);
      }
    }
  }

  /** The answer of the step from the last of the backward points. */
  ghost predicate AnswersBack(plane: Plane, points: seq<Point>, backward: seq<Point>, from: SwitchingPoint, window: nat, r: BackwardProbe) {
    Retreating(plane, points, backward, from, window) &&
    SteppedBack(plane, PhaseOf(backward[|backward| - 1]), MandatedBack(from, |backward| - 1), r)
  }

  /** A splice at forward point `at` would have a mean velocity of nearly zero. */
  ghost predicate TooSlow(plane: Plane, points: seq<Point>, at: nat, backward: seq<Point>)
    requires at < |points| && backward != []
  {
    EpsEq(Midpoint(points[at].sDot, backward[|backward| - 1].sDot), 0.0, plane.eps)
  }

  /** It would take no time, or less; which it never does, since nothing moves backward. */
  ghost predicate Turned(points: seq<Point>, at: nat, backward: seq<Point>)
    requires at < |points| && backward != []
  {
    var p, q := PhaseOf(points[at]), PhaseOf(backward[|backward| - 1]);
    Midpoint(p.v, q.v) != 0.0 && StepTime(p, q) <= 0.0
  }

  lemma NeverTurned(plane: Plane, points: seq<Point>, at: nat, backward: seq<Point>, from: SwitchingPoint)
    requires BackwardOk(plane, points, backward, from) && at < |points| && points[at].s < backward[|backward| - 1].s
    ensures !Turned(points, at, backward)
  {
    hide Linked, AllSafe, Chained, BrakesOnto, StepAcceleration;
    BackwardRange(plane, points, backward, from);
    var p, q := PhaseOf(points[at]), PhaseOf(backward[|backward| - 1]);
    if Midpoint(p.v, q.v) != 0.0 {
      StepLinks(0.0, p, q, Unset);
    }
  }

  /** Why a backward pass fails: the step throws, it crosses the forward points where nothing moves, or it meets a
      limit curve before it crosses. */
  ghost predicate FailsBack(plane: Plane, points: seq<Point>, backward: seq<Point>, from: SwitchingPoint, window: nat) {
    AnswersBack(plane, points, backward, from, window, StepThrows) ||
    (exists next: Point, at: nat :: CrossedBy(plane, points, backward, from, window, next, at) && TooSlow(plane, points, at, backward)) ||
    exists next: Point :: ClearBack(plane, points, backward, from, window, next) && Blocked(plane, PhaseOf(next))
  }

  /** The step goes to next without crossing the forward points. */
  ghost predicate ClearBack(plane: Plane, points: seq<Point>, backward: seq<Point>, from: SwitchingPoint, window: nat, next: Point) {
    AnswersBack(plane, points, backward, from, window, Reached(PhaseOf(next))) && next.s < backward[|backward| - 1].s &&
    !StepAbove(points, backward[|backward| - 1], next)
  }

  /** Every outcome of a backward pass, by the pass that leads to it. */
  ghost predicate BackwardOutcome(plane: Plane, before: seq<Point>, after: seq<Point>, from: SwitchingPoint, fuel: nat, r: Outcome) {
    match r
    case To(sp) => sp == from && IsSplice(plane, before, after, from)
    case Failed =>
      |before| < 2 || from.s <= before[0].s || from.s < before[|before| - 1].s ||
      exists backward, window: nat :: FailsBack(plane, before, backward, from, window)
    case Spins(cur, at) =>
      exists backward, window: nat :: AnswersBack(plane, before, backward, from, window, SpinsForEver(at)) &&
                                      cur == PhaseOf(backward[|backward| - 1])
    case Degenerate(cur, at, mandated) =>
      exists backward, window: nat, next :: ClearBack(plane, before, backward, from, window, next) &&
                                            DegeneratesBack(plane, backward, from, next, cur, at, mandated)
    case OutOfFuel => exists backward, window: nat :: Retreating(plane, before, backward, from, window) && |backward| == fuel + 1
  }

  lemma NothingToMeet(plane: Plane, points: seq<Point>, from: SwitchingPoint, fuel: nat)
    requires |points| < 2 || from.s <= points[0].s || from.s < points[|points| - 1].s
    ensures BackwardOutcome(plane, points, points, from, fuel, Failed)
  {
  }

  lemma ThrowsBack(plane: Plane, points: seq<Point>, backward: seq<Point>, from: SwitchingPoint, window: nat, fuel: nat)
    requires AnswersBack(plane, points, backward, from, window, StepThrows)
    ensures BackwardOutcome(plane, points, points, from, fuel, Failed)
  {
    hide AnswersBack;
    assert FailsBack(plane, points, backward, from, window);
  }

  lemma SpunBack(plane: Plane, points: seq<Point>, backward: seq<Point>, from: SwitchingPoint, window: nat, at: Phase, fuel: nat)
    requires backward != [] && AnswersBack(plane, points, backward, from, window, SpinsForEver(at))
    ensures BackwardOutcome(plane, points, points, from, fuel, Spins(PhaseOf(backward[|backward| - 1]), at))
  {
    hide Retreating, SteppedBack;
  }

  lemma SlowBack(plane: Plane, before: seq<Point>, after: seq<Point>, backward: seq<Point>, from: SwitchingPoint, window: nat, next: Point,
                 at: nat, fuel: nat)
    requires CrossedBy(plane, before, backward, from, window, next, at) && at < |before| && backward != [] && TooSlow(plane, before, at, backward)
    ensures BackwardOutcome(plane, before, after, from, fuel, Failed)
  {
    hide AnswersBack, CrossesAt, TooSlow;
    assert FailsBack(plane, before, backward, from, window);
  }

  lemma SplicedBack(plane: Plane, before: seq<Point>, after: seq<Point>, backward: seq<Point>, from: SwitchingPoint, window: nat, next: Point,
                    at: nat, fuel: nat)
    requires CrossedBy(plane, before, backward, from, window, next, at) && Joinable(before, at, backward) &&
             !TooSlow(plane, before, at, backward) && after == SpliceOf(before, at, backward)
    ensures BackwardOutcome(plane, before, after, from, fuel, To(from))
  {
    hide CrossedBy, TooSlow, SpliceOf, Joinable;
  }

  lemma BlockedBack(plane: Plane, points: seq<Point>, backward: seq<Point>, from: SwitchingPoint, window: nat, next: Point, fuel: nat)
    requires ClearBack(plane, points, backward, from, window, next) && Blocked(plane, PhaseOf(next))
    ensures BackwardOutcome(plane, points, points, from, fuel, Failed)
  {
    hide ClearBack, Blocked;
    assert FailsBack(plane, points, backward, from, window);
  }

  lemma DegeneratedBack(plane: Plane, points: seq<Point>, backward: seq<Point>, from: SwitchingPoint, window: nat, next: Point, fuel: nat,
                        r: Outcome)
    requires backward != [] && r.Degenerate? && ClearBack(plane, points, backward, from, window, next)
    requires DegeneratesBack(plane, backward, from, next, r.cur, r.at, r.mandated)
    ensures BackwardOutcome(plane, points, points, from, fuel, r)
  {
    hide AnswersBack, DegeneratesBack, StepAbove;
  }

  lemma CutOffBack(plane: Plane, points: seq<Point>, backward: seq<Point>, from: SwitchingPoint, window: nat, fuel: nat)
    requires Retreating(plane, points, backward, from, window) && |backward| == fuel + 1
    ensures BackwardOutcome(plane, points, points, from, fuel, OutOfFuel)
  {
    hide Retreating;
  }

  ghost predicate DegeneratesBack(plane: Plane, backward: seq<Point>, from: SwitchingPoint, next: Point, cur: Phase, at: Phase, mandated: Accel)
    requires backward != []
  {
    cur == PhaseOf(backward[|backward| - 1]) && at == PhaseOf(next) && mandated == MandatedBack(from, |backward| - 1) &&
    !Blocked(plane, at) && (at.v < 0.0 || Midpoint(at.v, cur.v) == 0.0)
  }

  lemma RetreatRange(plane: Plane, points: seq<Point>, backward: seq<Point>, from: SwitchingPoint, window: nat)
    requires Retreating(plane, points, backward, from, window)
    ensures |points| >= 2 && Rising(points) && points[0].s == 0.0
    ensures backward != [] && 0.0 < backward[|backward| - 1].s <= plane.Length() && 0.0 <= backward[|backward| - 1].sDot
    ensures WindowAt(points, window, backward[|backward| - 1].s) && BackwardOk(plane, points, backward, from)
  {
    hide Linked, AllSafe, Chained, BrakesOnto, Rising, Falling, NothingAbove, WindowAt, Retraced;
    BackwardRange(plane, points, backward, from);
  }

  lemma BackwardRange(plane: Plane, points: seq<Point>, backward: seq<Point>, from: SwitchingPoint)
    requires BackwardOk(plane, points, backward, from)
    ensures BackwardList(plane, backward, from) && points != [] && points[0].s == 0.0
    ensures backward != [] && 0.0 < backward[|backward| - 1].s <= plane.Length() && 0.0 <= backward[|backward| - 1].sDot
  {
    hide Linked, AllSafe, Chained, BrakesOnto;
    if |backward| > 1 {
      BackwardDescends(backward, 0, |backward| - 1);
    }
  }

  lemma {:induction false} BackwardDescends(backward: seq<Point>, i: nat, j: nat)
    requires forall k :: 0 < k < |backward| ==> Linked(backward[k].(time := 0.0), backward[k - 1].(time := backward[k].time))
    requires i < j < |backward|
    ensures backward[j].s < backward[i].s
    decreases j - i
  {
    assert backward[j].s < backward[j - 1].s;
    if i < j - 1 {
      BackwardDescends(backward, i, j - 1);
    }
  }

  lemma StartBackward(plane: Plane, points: seq<Point>, from: SwitchingPoint)
    requires ForwardDone(plane, points, from) && |points| >= 2 && points[0].s < from.s
    ensures Retreating(plane, points, [Point(0.0, from.s, from.sDot, from.forward)], from, |points| - 2)
  {
    hide Linked;
    forall i, j | 0 <= i < j < |points|
      ensures points[i].s < points[j].s
    {
      ChainedIncreases(points, i, j);
    }
  }

  /** A step that crosses nothing and is safe extends the backward points. */
  lemma ExtendBackward(plane: Plane, points: seq<Point>, backward: seq<Point>, from: SwitchingPoint, before: nat, window: nat,
                       at: Phase, cur: Phase)
    requires Retreating(plane, points, backward, from, before) && WindowAt(points, window, at.s)
    requires cur == Phase(backward[|backward| - 1].s, backward[|backward| - 1].sDot)
    requires 0.0 < at.s < cur.s && 0.0 <= at.v && plane.Safe(at.s, at.v) && Midpoint(at.v, cur.v) != 0.0
    requires !StepAbove(points, backward[|backward| - 1], Point(0.0, at.s, at.v, Unset))
    requires |backward| > 1 || from.backward.Unset? ==> Brakes(plane, at, cur)
    requires SteppedBack(plane, cur, MandatedBack(from, |backward| - 1), Reached(at)) && !Blocked(plane, at)
    ensures StepTime(at, cur) != 0.0
    ensures Retreating(plane, points, backward + [Point(StepTime(at, cur), at.s, at.v, Known(StepAcceleration(at, cur)))], from, window)
  {
    var last := backward[|backward| - 1];
    hide StepTime, StepAcceleration;
    StepLinks(0.0, at, cur, last.sDdot);
    var p := Point(StepTime(at, cur), at.s, at.v, Known(StepAcceleration(at, cur)));
    hide Linked, Midpoint, Brakes, StepAbove, WindowAt, Ended, SteppedBack, Blocked;
    RetraceOn(plane, backward, from, p);
    hide Retraced;
    SameStep(points, last, Point(0.0, at.s, at.v, Unset), p);
    NothingAboveGrows(points, backward, p);
    hide NothingAbove, Rising, Falling;
    ExtendList(plane, backward, from, p);
  }

  /** One more backward point, linked and braking onto the last. */
  lemma ExtendList(plane: Plane, backward: seq<Point>, from: SwitchingPoint, p: Point)
    requires BackwardList(plane, backward, from) && SafePoint(plane, p) && 0.0 <= p.sDot && 0.0 < p.s
    requires var cur := backward[|backward| - 1];
             Linked(p.(time := 0.0), cur.(time := p.time)) && (|backward| > 1 || from.backward.Unset? ==> BrakesOnto(plane, p, cur))
    ensures BackwardList(plane, backward + [p], from)
  {
    hide Linked, BrakesOnto, SafePoint, SwitchOk;
    var all := backward + [p];
    forall i | 0 < i < |all|
      ensures Linked(all[i].(time := 0.0), all[i - 1].(time := all[i].time))
      ensures 1 < i || from.backward.Unset? ==> BrakesOnto(plane, all[i], all[i - 1])
    {
      if i < |backward| {
        assert all[i] == backward[i] && all[i - 1] == backward[i - 1];
      }
    }
  }

  /** The scan looks only at positions and velocities. */
  lemma SameStep(points: seq<Point>, cur: Point, a: Point, b: Point)
    requires Rising(points) && a.s < cur.s && a.s == b.s && a.sDot == b.sDot
    ensures StepAbove(points, cur, a) <==> StepAbove(points, cur, b)
  {
    hide Lerp;
    forall k: nat
      ensures AboveVertex(points, cur, a, k) <==> AboveVertex(points, cur, b, k)
      ensures AboveSegment(points, a, k) <==> AboveSegment(points, b, k)
    {
    }
  }

  lemma NothingAboveGrows(points: seq<Point>, backward: seq<Point>, p: Point)
    requires Rising(points) && Falling(backward) && NothingAbove(points, backward)
    requires p.s < backward[|backward| - 1].s && !StepAbove(points, backward[|backward| - 1], p)
    ensures Falling(backward + [p]) && NothingAbove(points, backward + [p])
  {
    hide StepAbove;
    var all := backward + [p];
    forall i, j | 0 <= i < j < |all|
      ensures all[j].s < all[i].s
    {
    }
    forall j | 0 <= j < |all| - 1
      ensures !StepAbove(points, all[j], all[j + 1])
    {
      if j < |backward| - 1 {
        assert !StepAbove(points, backward[j], backward[j + 1]);
      }
    }
  }

  // ----- the splice -----

  ghost predicate EndsAt(points: seq<Point>, sp: SwitchingPoint) {
    |points| >= 2 && points[|points| - 1].s == sp.s && points[|points| - 1].sDot == sp.sDot && points[|points| - 1].sDdot == sp.forward
  }

  /** Cutting after `at` drops the last forward point, so everything kept is safe. */
  lemma KeepForward(plane: Plane, points: seq<Point>, backward: seq<Point>, from: SwitchingPoint, at: nat)
    requires at < |points| - 1 && BackwardOk(plane, points, backward, from)
    ensures Consistent(points[..at + 1]) && AllSafe(plane, points[..at + 1]) && 0.0 <= points[at].sDot
  {
    hide Linked;
    var kept := points[..at + 1];
    forall i | 0 <= i < |kept| - 1
      ensures Linked(kept[i], kept[i + 1])
    {
      assert Linked(points[i], points[i + 1]);
    }
    forall i | 0 <= i < |kept|
      ensures SafePoint(plane, kept[i])
    {
      assert points[..|points| - 1][i] == kept[i];
    }
  }

  function PhaseOf(p: Point): Phase {
    Phase(p.s, p.sDot)
  }

  /** Forward point `at` can be joined to the lowest backward point. */
  ghost predicate Joinable(points: seq<Point>, at: nat, backward: seq<Point>) {
    at < |points| && backward != [] &&
    var p, q := PhaseOf(points[at]), PhaseOf(backward[|backward| - 1]);
    Midpoint(p.v, q.v) != 0.0 && StepTime(p, q) != 0.0
  }

  /** The backward points from i - 1 down to the first, in forward order, at running times. */
  function Retimed(backward: seq<Point>, i: nat, total: real): seq<Point>
    requires i <= |backward|
  {
    if i == 0 then [] else [backward[i - 1].(time := total)] + Retimed(backward, i - 1, total + backward[i - 1].time)
  }

  /** The list a splice leaves: the forward points up to `at`, whose acceleration now reaches the lowest
      backward point, and the backward points. */
  ghost function SpliceOf(points: seq<Point>, at: nat, backward: seq<Point>): seq<Point>
    requires Joinable(points, at, backward)
  {
    var p, q := PhaseOf(points[at]), PhaseOf(backward[|backward| - 1]);
    points[..at] + [points[at].(sDdot := Known(StepAcceleration(p, q)))] +
    Retimed(backward, |backward|, points[at].time + StepTime(p, q))
  }

  /** Mid-splice: with the backward points still to come, the list so far is the splice. */
  ghost predicate Rejoining(points: seq<Point>, at: nat, backward: seq<Point>, kept: seq<Point>, i: nat, total: real) {
    Joinable(points, at, backward) && i <= |backward| && kept + Retimed(backward, i, total) == SpliceOf(points, at, backward)
  }

  lemma RejoinFirst(points: seq<Point>, at: nat, backward: seq<Point>, kept: seq<Point>, p: Phase, q: Phase, total: real)
    requires at < |points| && backward != [] && p == PhaseOf(points[at]) && q == PhaseOf(backward[|backward| - 1])
    requires Midpoint(p.v, q.v) != 0.0 && StepTime(p, q) != 0.0 && total == points[at].time + StepTime(p, q)
    requires kept == points[..at + 1][..at] + [points[at].(sDdot := Known(StepAcceleration(p, q)))]
    ensures Rejoining(points, at, backward, kept, |backward|, total)
  {
    hide StepTime, StepAcceleration, Retimed;
    assert points[..at + 1][..at] == points[..at];
  }

  lemma RejoinNext(points: seq<Point>, at: nat, backward: seq<Point>, kept: seq<Point>, i: nat, total: real)
    requires i < |backward| && Rejoining(points, at, backward, kept, i + 1, total)
    ensures Rejoining(points, at, backward, kept + [backward[i].(time := total)], i, total + backward[i].time)
  {
    hide SpliceOf, Joinable;
    var p := [backward[i].(time := total)];
    assert kept + (p + Retimed(backward, i, total + backward[i].time)) == kept + p + Retimed(backward, i, total + backward[i].time);
  }

  lemma Rejoined(points: seq<Point>, at: nat, backward: seq<Point>, kept: seq<Point>, total: real)
    requires Rejoining(points, at, backward, kept, 0, total)
    ensures Joinable(points, at, backward) && kept == SpliceOf(points, at, backward)
  {
    hide SpliceOf, Joinable;
  }

  /** The recomputed acceleration links the last kept forward point to the lowest backward one. */
  lemma JoinAt(plane: Plane, points: seq<Point>, backward: seq<Point>, p: Phase, q: Phase)
    requires points != [] && Consistent(points) && AllSafe(plane, points) && backward != []
    requires p == PhaseOf(points[|points| - 1]) && q == PhaseOf(backward[|backward| - 1])
    requires p.s < q.s && 0.0 <= p.v && 0.0 <= q.v && Midpoint(p.v, q.v) != 0.0
    ensures 0.0 < StepTime(p, q)
    ensures var last, joined := points[|points| - 1], backward[|backward| - 1];
            var relabelled := points[..|points| - 1] + [last.(sDdot := Known(StepAcceleration(p, q)))];
            Consistent(relabelled) && AllSafe(plane, relabelled) &&
            Linked(relabelled[|relabelled| - 1], joined.(time := last.time + StepTime(p, q)))
  {
    var last, joined := points[|points| - 1], backward[|backward| - 1];
    hide StepTime, StepAcceleration;
    StepLinks(last.time, p, q, joined.sDdot);
    var a := Known(StepAcceleration(p, q));
    hide Linked, Midpoint, Consistent;
    Relabel(points, a);
    var relabelled := points[..|points| - 1] + [last.(sDdot := a)];
    forall i | 0 <= i < |relabelled|
      ensures SafePoint(plane, relabelled[i])
    {
      assert SafePoint(plane, points[i]);
    }
  }

  /** A link keeps under a shift of its start time. */
  lemma ShiftLink(p: Point, q: Point, dt: real, t: real)
    requires Linked(p.(time := 0.0), q.(time := dt))
    ensures Linked(p.(time := t), q.(time := t + dt))
  {
    assert t + dt - t == dt;
  }

  /** One more backward point, in forward order. */
  lemma AppendBackward(plane: Plane, points: seq<Point>, backward: seq<Point>, from: SwitchingPoint, i: nat, total: real)
    requires points != [] && Consistent(points) && AllSafe(plane, points) && BackwardList(plane, backward, from) && i < |backward|
    requires Linked(points[|points| - 1], backward[i].(time := total))
    ensures var all := points + [backward[i].(time := total)];
            Consistent(all) && AllSafe(plane, all) && (i == 0 ==> EndsAt(all, from)) &&
            (i > 0 ==> Linked(all[|all| - 1], backward[i - 1].(time := total + backward[i].time)))
  {
    hide Linked;
    var p := backward[i].(time := total);
    var all := points + [p];
    assert SafePoint(plane, backward[i]);
    Append(points, p);
    if i > 0 {
      ShiftLink(backward[i], backward[i - 1], backward[i].time, total);
    }
  }

  lemma Spliced(plane: Plane, points: seq<Point>, from: SwitchingPoint)
    requires points != [] && Consistent(points) && AllSafe(plane, points) && EndsAt(points, from)
    ensures Resumable(plane, points, from)
  {
    hide Consistent, AllSafe;
  }
}
