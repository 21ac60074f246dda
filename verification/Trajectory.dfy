/** Finished trajectories: lists of integration points joined by constant-acceleration motion, and
    the time cursor that samples them (trajectory.cpp, `trajectory::cursor`). */
module Trajectory {
  import opened Reals
  import opened Search

  /** A path acceleration; `Unset` is the source's NaN. */
  datatype Accel = Known(a: real) | Unset

  datatype Point = Point(time: real, s: real, sDot: real, sDdot: Accel)

  function Times(points: seq<Point>): (ts: seq<real>)
    ensures |ts| == |points| && forall i :: 0 <= i < |ts| ==> ts[i] == points[i].time
  {
    seq(|points|, i requires 0 <= i < |points| => points[i].time)
  }

  /** What the trajectory constructor checks of times: at least two points, from zero, increasing. */
  ghost predicate Timed(points: seq<Point>) {
    |points| >= 2 && points[0].time == 0.0 && Increasing(Times(points))
  }

  function Duration(points: seq<Point>): real
    requires points != []
  {
    points[|points| - 1].time
  }

  // ----- kinematic consistency -----

  /** q follows p under p's constant acceleration. */
  ghost predicate Linked(p: Point, q: Point) {
    p.time < q.time && p.s < q.s && p.sDdot.Known? &&
    q.s - p.s == Midpoint(p.sDot, q.sDot) * (q.time - p.time) &&
    q.sDot - p.sDot == p.sDdot.a * (q.time - p.time)
  }

  ghost predicate Chained(points: seq<Point>) {
    forall i :: 0 <= i < |points| - 1 ==> Linked(points[i], points[i + 1])
  }

  /** Chained points have increasing times and increasing positions. */
  lemma {:induction false} ChainedIncreases(points: seq<Point>, i: nat, j: nat)
    requires Chained(points) && i < j < |points|
    ensures points[i].time < points[j].time && points[i].s < points[j].s
    decreases j - i
  {
    assert Linked(points[j - 1], points[j]);
    if i < j - 1 {
      ChainedIncreases(points, i, j - 1);
    }
  }

  // ----- sampling -----

  datatype State = State(s: real, sDot: real, sDdot: real)

  /** The phase state dt after p, under p's constant acceleration. */
  function StateFrom(p: Point, t: real): State
    requires p.sDdot.Known?
  {
    var dt := t - p.time;
    State(p.s + p.sDot * dt + 0.5 * p.sDdot.a * dt * dt, p.sDot + p.sDdot.a * dt, p.sDdot.a)
  }

  /** The integration point that holds time t. */
  function PointAt(points: seq<Point>, t: real): Point
    requires points != [] && points[0].time <= t
  {
    var n := UpperBound(Times(points), t);
    if n == 0 then points[0] else points[n - 1]
  }

  /** A link's motion lands exactly on its next point. */
  lemma LinkLands(p: Point, q: Point)
    requires Linked(p, q)
    ensures StateFrom(p, q.time).s == q.s && StateFrom(p, q.time).sDot == q.sDot
  {
    var dt := q.time - p.time;
    assert q.sDot == p.sDot + p.sDdot.a * dt;
    assert q.s == p.s + (p.sDot + p.sDot + p.sDdot.a * dt) / 2.0 * dt;
  }

  /** Between two points with non-negative velocities the velocity stays between theirs and the
      position between theirs, so the cursor's clamp to the path length never acts. */
  lemma LinkStaysBetween(p: Point, q: Point, t: real)
    requires Linked(p, q) && p.time <= t <= q.time && 0.0 <= p.sDot && 0.0 <= q.sDot
    ensures Min(p.sDot, q.sDot) <= StateFrom(p, t).sDot <= Max(p.sDot, q.sDot)
    ensures p.s <= StateFrom(p, t).s <= q.s
  {
    MotionBetween(p.sDot, q.sDot, p.sDdot.a, t - p.time, q.time - t, q.time - p.time, p.s, q.s, StateFrom(p, t).sDot, StateFrom(p, t).s);
  }

  lemma MotionBetween(x: real, y: real, a: real, dt: real, left: real, whole: real, from: real, to: real, v: real, s: real)
    requires 0.0 <= x && 0.0 <= y && 0.0 <= dt && 0.0 <= left && whole == dt + left
    requires y - x == a * whole && to - from == Midpoint(x, y) * whole
    requires v == x + a * dt && s == from + x * dt + 0.5 * a * dt * dt
    ensures Min(x, y) <= v <= Max(x, y) && from <= s <= to
  {
    SplitMotion(x, y, a, dt, left, whole, from, s, v);
    hide Midpoint;
    VelocityBetween(x, y, a, dt, left);
    RestOfLink(x, v, y, a, dt, left);
    DistanceCovered(x, v, dt);
    DistanceCovered(v, y, left);
  }

  lemma SplitMotion(x: real, y: real, a: real, dt: real, left: real, whole: real, from: real, s: real, v: real)
    requires whole == dt + left && y - x == a * whole && v == x + a * dt && s == from + x * dt + 0.5 * a * dt * dt
    ensures y == v + a * left && s == from + Midpoint(x, v) * dt
  {
    assert a * whole == a * dt + a * left;
    var z := a * dt;
    assert Midpoint(x, v) * dt == x * dt + 0.5 * (z * dt);
    assert 0.5 * a * dt * dt == 0.5 * (z * dt);
  }

  lemma DistanceCovered(x: real, y: real, dt: real)
    requires 0.0 <= x && 0.0 <= y && 0.0 <= dt
    ensures 0.0 <= Midpoint(x, y) * dt
  {
  }

  lemma VelocityBetween(x: real, y: real, a: real, dt: real, left: real)
    requires 0.0 <= dt && 0.0 <= left && y == x + a * dt + a * left
    ensures Min(x, y) <= x + a * dt <= Max(x, y)
  {
    if 0.0 <= a {
      assert 0.0 <= a * dt && 0.0 <= a * left;
    } else {
      assert 0.0 <= (-a) * dt && 0.0 <= (-a) * left;
    }
  }

  lemma RestOfLink(x: real, v: real, y: real, a: real, dt: real, left: real)
    requires v == x + a * dt && y == v + a * left
    ensures Midpoint(x, y) * (dt + left) == Midpoint(x, v) * dt + Midpoint(v, y) * left
  {
    assert (y - v) * dt == (v - x) * left by {
      assert (a * left) * dt == (a * dt) * left;
    }
    assert Midpoint(x, y) * (dt + left) - Midpoint(x, v) * dt - Midpoint(v, y) * left ==
           ((y - v) * dt - (v - x) * left) / 2.0;
  }

  // ----- the time cursor -----

  lemma TimedEnds(points: seq<Point>)
    requires Timed(points)
    ensures |points| >= 2 && 0.0 == points[0].time < Duration(points)
  {
    assert Times(points)[0] < Times(points)[|points| - 1];
  }

  lemma HeldAt(points: seq<Point>, k: nat, t: real)
    requires k < |points| && points[k].time <= t && (k + 1 < |points| ==> t < points[k + 1].time)
    ensures Holds(Times(points), k, t)
  {
  }

  /** The binary search finds the slot that holds a time. */
  lemma JumpHolds(points: seq<Point>, it: nat, t: real)
    requires Timed(points) && 0.0 <= t && it == UpperBound(Times(points), t)
    ensures 0 < it <= |points| && Holds(Times(points), it - 1, t)
  {
    HoldsIsUpperBound(Times(points), it - 1, t);
  }

  datatype When = At(t: real) | BeforeStart | AfterEnd

  datatype Sample = Sample(time: real, state: State)
  datatype SampleResult = Sampled(sample: Sample) | OutOfRange

  /** `trajectory::cursor`: a time, the hint that holds it, and where the path cursor was put. The
      path position is missing where the held point's acceleration is unset, because a NaN puts
      the path cursor at its sentinel. */
  class Cursor {
    const points: seq<Point>
    const length: real
    var hint: nat
    var time: When
    var position: Limit

    ghost predicate Valid()
      reads this
    {
      Timed(points) && hint < |points| && (time.BeforeStart? || time.AfterEnd? || Settled(time.t))
    }

    /** The hint holds t and the path cursor sits where p's motion puts it, clamped to the path. */
    ghost predicate Settled(t: real)
      requires Timed(points)
      reads this
    {
      0.0 <= t <= Duration(points) && hint < |points| && points[hint] == PointAt(points, t) &&
      Holds(Times(points), hint, t) &&
      position == if points[hint].sDdot.Known? then Bounded(Min(StateFrom(points[hint], t).s, length)) else Unbounded
    }

    constructor (points: seq<Point>, length: real)
      requires Timed(points)
      ensures Valid() && this.points == points && this.length == length
    {
      this.points, this.length := points, length;
      hint, time := 0, BeforeStart;
      position := Bounded(0.0);
    }

    method Seek(t: real)
      requires Valid()
      modifies this
      ensures Valid()
      ensures t < 0.0 ==> time == BeforeStart && hint == old(hint) && position == old(position)
      ensures t > Duration(points) ==> time == AfterEnd && hint == old(hint) && position == old(position)
      ensures 0.0 <= t <= Duration(points) ==> time == At(t) && Settled(t)
    {
      TimedEnds(points);
      hide StateFrom, PointAt, UpperBound, Timed, Times, Holds, Settled;
      if t < 0.0 {
        time := BeforeStart;
        return;
      }
      if t > points[|points| - 1].time {
        time := AfterEnd;
        return;
      }
      time := At(t);
      var slot: nat;
      if points[hint].time <= t && (hint + 1 == |points| || t < points[hint + 1].time) {
        // The current interval.
        slot := hint;
        HeldAt(points, slot, t);
      } else if hint + 1 != |points| && points[hint + 1].time <= t && (hint + 2 == |points| || t < points[hint + 2].time) {
        // One interval forward.
        slot := hint + 1;
        HeldAt(points, slot, t);
      } else if hint != 0 && points[hint - 1].time <= t && t < points[hint].time {
        // One interval backward.
        slot := hint - 1;
        HeldAt(points, slot, t);
      } else {
        // A large jump.
        var it := UpperBound(Times(points), t);
        JumpHolds(points, it, t);
        slot := if it == 0 then 0 else it - 1;
      }
      hint := slot;
      PlacePathCursor(t);
    }

    method PlacePathCursor(t: real)
      requires Timed(points) && Holds(Times(points), hint, t) && 0.0 <= t <= Duration(points) && time == At(t)
      modifies this`position
      ensures Valid() && Settled(t)
    {
      hide StateFrom, UpperBound, Increasing;
      HoldsIsUpperBound(Times(points), hint, t);
      assert points[hint] == PointAt(points, t);
      hide PointAt;
      position := if points[hint].sDdot.Known? then Bounded(Min(StateFrom(points[hint], t).s, length)) else Unbounded;
    }

    /** A sample exists exactly when the cursor is in range over a point whose acceleration is set,
        and is then that point's motion, with the position clamped to the path. */
    method GetSample() returns (r: SampleResult)
      requires Valid()
      ensures r.Sampled? <==> time.At? && PointAt(points, time.t).sDdot.Known?
      ensures r.Sampled? ==>
                var state := StateFrom(PointAt(points, time.t), time.t);
                r.sample == Sample(time.t, state.(s := Min(state.s, length)))
    {
      if !time.At? || position.Unbounded? {
        return OutOfRange;
      }
      var p0 := points[hint];
      var dt := time.t - p0.time;
      r := Sampled(Sample(time.t, State(position.v, p0.sDot + p0.sDdot.a * dt, p0.sDdot.a)));
    }
  }

  /** The trajectory can be sampled at t: t is within its duration, and held by a point whose
      acceleration is set. */
  ghost predicate Samplable(points: seq<Point>, t: real)
    requires Timed(points)
  {
    0.0 <= t <= Duration(points) && PointAt(points, t).sDdot.Known?
  }

  /** `trajectory::sample`, with a cursor of its own. */
  method SampleAt(points: seq<Point>, length: real, t: real) returns (r: SampleResult)
    requires Timed(points)
    ensures r.Sampled? <==> Samplable(points, t)
    ensures r.Sampled? ==>
              var state := StateFrom(PointAt(points, t), t);
              r.sample == Sample(t, state.(s := Min(state.s, length)))
  {
    hide PointAt, StateFrom;
    var cursor := new Cursor(points, length);
    cursor.Seek(t);
    r := cursor.GetSample();
  }

  /** Sampling a consistent trajectory at the time of one of its points returns that point, if
      its acceleration is set. */
  lemma PointAtOwnTime(points: seq<Point>, k: nat)
    requires Timed(points) && k < |points|
    ensures PointAt(points, points[k].time) == points[k]
  {
    HoldsIsUpperBound(Times(points), k, points[k].time);
  }
}
