/** The streaming session (streaming/session.cpp): extend, pivot, stage, rebase and sample. Building
    a trajectory from waypoints is a deterministic partial function; everything else is here. */
module Session {
  import opened Reals
  import opened Search
  import opened Trajectory
  import opened UniformSampler

  type Row = seq<real>

  /** A built trajectory: its integration points and the length of its path. */
  datatype Traj = Traj(points: seq<Point>, length: real)

  /** What trajectory construction guarantees of a trajectory it returns: linked, and from rest at the
      start of its path to rest at the end. Its last acceleration may be unset. */
  ghost predicate Built(t: Traj) {
    Timed(t.points) && Chained(t.points) && RestToRest(t.points) && t.points[|t.points| - 1].s == t.length &&
    forall i :: 0 <= i < |t.points| ==> 0.0 <= t.points[i].sDot
  }

  /** It can be sampled at its very end too. */
  predicate Complete(t: Traj) {
    t.points != [] && t.points[|t.points| - 1].sDdot.Known?
  }

  /** Every time within a built trajectory can be sampled, but for the end of one whose last acceleration is
      unset. */
  lemma BuiltSamples(t: Traj, when: real)
    requires Built(t) && 0.0 <= when <= DurationOf(t)
    ensures Samplable(t.points, when) <==> when < DurationOf(t) || Complete(t)
  {
    hide UpperBound, PointAt, Increasing, Linked;
    var k := SlotOf(t.points, when);
    if k + 1 < |t.points| {
      LinkIsKnown(t.points, k);
      HeldBeforeEnd(t.points, k, when);
    }
  }

  lemma LinkIsKnown(points: seq<Point>, k: nat)
    requires Chained(points) && k + 1 < |points|
    ensures points[k].sDdot.Known?
  {
    assert Linked(points[k], points[k + 1]);
  }

  lemma HeldBeforeEnd(points: seq<Point>, k: nat, when: real)
    requires Timed(points) && k + 1 < |points| && Holds(Times(points), k, when)
    ensures when < Duration(points)
  {
    HeldSplits(Times(points), k, when, |points| - 1);
  }

  predicate RestToRest(points: seq<Point>) {
    points != [] && points[0].s == 0.0 && points[0].sDot == 0.0 && points[|points| - 1].sDot == 0.0
  }

  function DurationOf(t: Traj): real
    requires t.points != []
  {
    Duration(t.points)
  }

  /** The phase state of a built trajectory at one of its own times. */
  ghost function StateAt(t: Traj, when: real): State
    requires Built(t) && Samplable(t.points, when)
  {
    StateFrom(PointAt(t.points, when), when)
  }

  /** A built trajectory's motion never passes the end of its path, so what the cursor samples is
      the motion itself. */
  lemma ClampIsIdle(t: Traj, when: real)
    requires Built(t) && Samplable(t.points, when)
    ensures StateAt(t, when).s <= t.length
  {
    hide UpperBound, StateFrom, PointAt, Increasing, Linked;
    var ps := t.points;
    var k := SlotOf(ps, when);
    if k + 1 < |ps| {
      assert Linked(ps[k], ps[k + 1]);
      LinkStaysBetween(ps[k], ps[k + 1], when);
      EndsLast(t, k + 1);
    } else {
      LandsAtRestart(ps[k], when);
    }
  }

  lemma EndsLast(t: Traj, k: nat)
    requires Built(t) && k < |t.points|
    ensures t.points[k].s <= t.length
  {
    hide Linked;
    if k < |t.points| - 1 {
      ChainedIncreases(t.points, k, |t.points| - 1);
    }
  }

  lemma LandsAtRestart(p: Point, when: real)
    requires p.sDdot.Known? && when == p.time
    ensures StateFrom(p, when).s == p.s
  {
  }

  // ----- the branch -----

  /** `std::ranges::mismatch`: how many leading points the two lists share. */
  function FirstMismatch(a: seq<Point>, b: seq<Point>): (m: nat)
    ensures m <= |a| && m <= |b| && a[..m] == b[..m]
    ensures m < |a| && m < |b| ==> a[m] != b[m]
  {
    if a == [] || b == [] || a[0] != b[0] then 0
    else
      var rest := FirstMismatch(a[1..], b[1..]);
      assert a[..rest + 1] == [a[0]] + a[1..][..rest] && b[..rest + 1] == [b[0]] + b[1..][..rest];
      rest + 1
  }

  /** `find_branch_local_time`. */
  function BranchLocalTime(existing: seq<Point>, candidate: seq<Point>): real
    requires existing != []
  {
    var m := FirstMismatch(existing, candidate);
    if m == |existing| then Duration(existing) else existing[m].time
  }

  /** The branch is at the first point at which the two differ, and at the end where there is none. */
  lemma BranchIsFirstDifference(existing: seq<Point>, candidate: seq<Point>, k: nat)
    requires k <= |existing| && k <= |candidate| && existing[..k] == candidate[..k] && existing != []
    ensures k < |existing| && (k == |candidate| || existing[k] != candidate[k]) ==> BranchLocalTime(existing, candidate) == existing[k].time
    ensures k == |existing| ==> BranchLocalTime(existing, candidate) == Duration(existing)
  {
    var m := FirstMismatch(existing, candidate);
    hide FirstMismatch;
    SharedPrefix(existing, candidate, k);
    SharedPrefix(existing, candidate, m);
  }

  lemma SharedPrefix(a: seq<Point>, b: seq<Point>, n: nat)
    requires n <= |a| && n <= |b| && a[..n] == b[..n]
    ensures forall j :: 0 <= j < n ==> a[j] == b[j]
  {
    forall j | 0 <= j < n
      ensures a[j] == b[j]
    {
      assert a[..n][j] == b[..n][j];
    }
  }

  /** Whatever points of its own the candidate has by time t, it has not changed its acceleration at them. */
  predicate StaysOn(existing: seq<Point>, candidate: seq<Point>, t: real) {
    var m := FirstMismatch(existing, candidate);
    forall j :: 0 < m <= j < |candidate| && candidate[j].time <= t ==> candidate[j].sDdot == candidate[m - 1].sDdot
  }

  /** The two trajectories are in the same phase state at every time up to t. */
  ghost predicate SameUpTo(a: Traj, b: Traj, t: real)
    requires Built(a) && Built(b)
  {
    forall u :: 0.0 <= u <= t ==> Samplable(a.points, u) && Samplable(b.points, u) && StateAt(a, u) == StateAt(b, u)
  }

  /** Up to a time before the branch the two trajectories are in the same phase states exactly when the
      candidate keeps, at whatever points of its own it has by then, the acceleration it had before the
      mismatch. The source checks only the existing trajectory's side of the mismatch. */
  lemma BranchAgreement(existing: Traj, candidate: Traj, t: real)
    requires Built(existing) && Built(candidate)
    requires 0.0 <= t < BranchLocalTime(existing.points, candidate.points) && t < DurationOf(candidate)
    ensures SameUpTo(existing, candidate, t) <==> StaysOn(existing.points, candidate.points, t)
  {
    hide FirstMismatch, StaysOn, StateAt, BranchLocalTime;
    if StaysOn(existing.points, candidate.points, t) {
      forall u | 0.0 <= u <= t
        ensures Samplable(existing.points, u) && Samplable(candidate.points, u) && StateAt(existing, u) == StateAt(candidate, u)
      {
        StaysEarlier(existing.points, candidate.points, u, t);
        StaysTogether(existing, candidate, u);
      }
    } else {
      var u := TurnsOff(existing, candidate, t);
    }
  }

  lemma StaysEarlier(existing: seq<Point>, candidate: seq<Point>, u: real, t: real)
    requires u <= t && StaysOn(existing, candidate, t)
    ensures StaysOn(existing, candidate, u)
  {
  }

  lemma PointHeld(points: seq<Point>, k: nat, t: real)
    requires Timed(points) && Holds(Times(points), k, t) && 0.0 <= t
    ensures PointAt(points, t) == points[k]
  {
    hide UpperBound;
    HoldsIsUpperBound(Times(points), k, t);
  }

  /** The slot that holds a time. */
  lemma SlotOf(points: seq<Point>, t: real) returns (k: nat)
    requires Timed(points) && 0.0 <= t
    ensures k < |points| && Holds(Times(points), k, t) && PointAt(points, t) == points[k]
  {
    hide UpperBound;
    k := UpperBound(Times(points), t) - 1;
    HoldsIsUpperBound(Times(points), k, t);
  }

  lemma SharedPoint(existing: seq<Point>, candidate: seq<Point>, k: nat)
    requires k < FirstMismatch(existing, candidate)
    ensures k < |existing| && k < |candidate| && existing[k] == candidate[k]
  {
    var m := FirstMismatch(existing, candidate);
    assert existing[k] == existing[..m][k] == candidate[..m][k] == candidate[k];
  }

  /** Before the branch the existing trajectory holds time by a shared point: by the slot of the candidate,
      or by the last shared point where the candidate has gone on to points of its own. */
  lemma HeldByShared(existing: seq<Point>, candidate: seq<Point>, n: nat, t: real)
    requires Timed(existing) && Timed(candidate) && 0.0 <= t < BranchLocalTime(existing, candidate)
    requires Holds(Times(candidate), n, t)
    ensures var m := FirstMismatch(existing, candidate);
            0 < m && Holds(Times(existing), if n < m then n else m - 1, t)
  {
    hide FirstMismatch, UpperBound;
    var m := FirstMismatch(existing, candidate);
    var k := SlotOf(existing, t);
    if m < |existing| {
      HeldSplits(Times(existing), k, t, m);
    }
    var last: int := m - 1;
    SharedPoint(existing, candidate, last);
    if n < m {
      SharedPoint(existing, candidate, n);
      if n + 1 < m {
        SharedPoint(existing, candidate, n + 1);
      }
    } else {
      HeldSplits(Times(candidate), n, t, last);
    }
  }

  /** Equal accelerations make a link's motion go on unchanged past its end. */
  lemma SameMotion(p: Point, q: Point, t: real)
    requires Linked(p, q) && p.sDdot == q.sDdot
    ensures StateFrom(p, t) == StateFrom(q, t)
  {
    MotionArithmetic(p.s, p.sDot, p.sDdot.a, q.time - p.time, t - q.time, q.s, q.sDot, t - p.time);
  }

  lemma MotionArithmetic(s: real, v: real, a: real, d: real, e: real, s1: real, v1: real, all: real)
    requires v1 - v == a * d && s1 - s == Midpoint(v, v1) * d && all == d + e
    ensures v + a * all == v1 + a * e
    ensures s + v * all + 0.5 * a * all * all == s1 + v1 * e + 0.5 * a * e * e
  {
    var x := a * d;
    assert a * all == x + a * e;
    assert Midpoint(v, v1) * d == v * d + 0.5 * (x * d);
    assert v * all == v * d + v * e;
    assert v1 * e == v * e + x * e;
    assert 0.5 * a * all * all == 0.5 * (x * d) + x * e + 0.5 * a * e * e by {
      assert a * all * all == (x + a * e) * (d + e);
      assert (x + a * e) * (d + e) == x * d + x * e + a * e * d + a * e * e;
      assert a * e * d == x * e;
    }
  }

  /** While the acceleration stays the same, so does the motion. */
  lemma {:induction false} OneMotion(points: seq<Point>, i: nat, n: nat, t: real)
    requires Chained(points) && i <= n < |points| && points[i].sDdot.Known?
    requires forall j :: i <= j <= n ==> points[j].sDdot == points[i].sDdot
    ensures StateFrom(points[i], t) == StateFrom(points[n], t)
    decreases n - i
  {
    hide StateFrom, Linked;
    if i < n {
      OneMotion(points, i, n - 1, t);
      assert Linked(points[n - 1], points[n - 1 + 1]);
      SameMotion(points[n - 1], points[n], t);
    }
  }

  lemma StaysTogether(existing: Traj, candidate: Traj, t: real)
    requires Built(existing) && Built(candidate)
    requires 0.0 <= t < BranchLocalTime(existing.points, candidate.points) && StaysOn(existing.points, candidate.points, t)
    requires t < DurationOf(candidate)
    ensures Samplable(existing.points, t) && Samplable(candidate.points, t) && StateAt(existing, t) == StateAt(candidate, t)
  {
    hide FirstMismatch, BranchLocalTime, StateFrom, PointAt, Linked, Holds, Chained;
    var a, b := existing.points, candidate.points;
    var m := FirstMismatch(a, b);
    BranchWithin(existing, candidate, t);
    var n := SlotOf(b, t);
    HeldByShared(a, b, n, t);
    PointHeld(a, if n < m then n else m - 1, t);
    SharedPoint(a, b, if n < m then n else m - 1);
    if m <= n {
      forall j | m - 1 <= j <= n
        ensures b[j].sDdot == b[m - 1].sDdot
      {
        EarlierPoint(b, j, n, t);
      }
      LinkIsKnown(b, m - 1);
      OneMotion(b, m - 1, n, t);
    }
  }

  /** Times before the branch are before the end of the existing trajectory. */
  lemma BranchWithin(existing: Traj, candidate: Traj, t: real)
    requires Built(existing) && Built(candidate) && 0.0 <= t < BranchLocalTime(existing.points, candidate.points) && t < DurationOf(candidate)
    ensures t < DurationOf(existing)
    ensures forall u :: 0.0 <= u <= t ==> Samplable(existing.points, u) && Samplable(candidate.points, u)
  {
    var m := FirstMismatch(existing.points, candidate.points);
    hide FirstMismatch, Linked, PointAt;
    assert m < |existing.points| ==> Times(existing.points)[m] <= Times(existing.points)[|existing.points| - 1];
    forall u | 0.0 <= u <= t
      ensures Samplable(existing.points, u) && Samplable(candidate.points, u)
    {
      BuiltSamples(existing, u);
      BuiltSamples(candidate, u);
    }
  }

  lemma EarlierPoint(points: seq<Point>, j: nat, n: nat, t: real)
    requires Timed(points) && Holds(Times(points), n, t) && j <= n
    ensures points[j].time <= t
  {
    HeldSplits(Times(points), n, t, j);
  }

  /** A candidate that changes its acceleration by t is in another state when it does. */
  lemma TurnsOff(existing: Traj, candidate: Traj, t: real) returns (u: real)
    requires Built(existing) && Built(candidate)
    requires 0.0 <= t < BranchLocalTime(existing.points, candidate.points) && !StaysOn(existing.points, candidate.points, t)
    requires t < DurationOf(candidate)
    ensures 0.0 <= u <= t && Samplable(existing.points, u) && Samplable(candidate.points, u) && StateAt(existing, u) != StateAt(candidate, u)
  {
    hide FirstMismatch, BranchLocalTime, PointAt, Linked, Holds, Chained;
    var a, b := existing.points, candidate.points;
    var m := FirstMismatch(a, b);
    BranchWithin(existing, candidate, t);
    var j: nat :| 0 < m <= j < |b| && b[j].time <= t && b[j].sDdot != b[m - 1].sDdot;
    u := b[j].time;
    assert Times(b)[0] < Times(b)[j];
    PointAtOwnTime(b, j);
    assert Holds(Times(b), j, u) by { OwnSlot(b, j); }
    HeldByShared(a, b, j, u);
    PointHeld(a, m - 1, u);
    SharedPoint(a, b, m - 1);
  }

  lemma OwnSlot(points: seq<Point>, j: nat)
    requires Timed(points) && j < |points|
    ensures Holds(Times(points), j, points[j].time)
  {
  }

  function LateA(): Traj {
    Traj([Point(0.0, 0.0, 0.0, Known(1.0)), Point(2.0, 2.0, 2.0, Known(-1.0)), Point(4.0, 4.0, 0.0, Known(0.0))], 4.0)
  }

  function LateB(): Traj {
    Traj([Point(0.0, 0.0, 0.0, Known(1.0)), Point(1.0, 0.5, 1.0, Known(0.0)), Point(5.0, 4.5, 1.0, Known(-1.0)),
          Point(6.0, 5.0, 0.0, Known(0.0))], 5.0)
  }

  /** The condition is needed: here the candidate turns off the existing trajectory at time 1 while the
      branch is reported at time 2, and at time 1.5 their velocities are 1.5 and 1. */
  lemma BranchCanComeLate()
    ensures Built(LateA()) && Built(LateB()) && BranchLocalTime(LateA().points, LateB().points) == 2.0
    ensures Samplable(LateA().points, 1.5) && StateAt(LateA(), 1.5).sDot == 1.5
    ensures Samplable(LateB().points, 1.5) && StateAt(LateB(), 1.5).sDot == 1.0
  {
    hide *;
    LateChains();
    LateBranch();
    LateStates();
  }

  lemma LateChains()
    ensures Built(LateA()) && Built(LateB())
  {
    hide Linked;
    var a, b := LateA().points, LateB().points;
    assert Linked(a[0], a[1]) by { LateLink(a[0], a[1], 1.0); }
    assert Linked(a[1], a[2]) by { LateLink(a[1], a[2], -1.0); }
    assert Linked(b[0], b[1]) by { LateLink(b[0], b[1], 1.0); }
    assert Linked(b[1], b[2]) by { LateLink(b[1], b[2], 0.0); }
    assert Linked(b[2], b[3]) by { LateLink(b[2], b[3], -1.0); }
  }

  lemma LateLink(p: Point, q: Point, a: real)
    requires p.sDdot == Known(a) && p.time < q.time && p.s < q.s
    requires q.s == p.s + Midpoint(p.sDot, q.sDot) * (q.time - p.time) && q.sDot == p.sDot + a * (q.time - p.time)
    ensures Linked(p, q)
  {
  }

  lemma LateBranch()
    ensures LateA().points != [] && BranchLocalTime(LateA().points, LateB().points) == 2.0
  {
    assert FirstMismatch(LateA().points[1..], LateB().points[1..]) == 0;
  }

  lemma LateStates()
    requires Built(LateA()) && Built(LateB())
    ensures Samplable(LateA().points, 1.5) && StateAt(LateA(), 1.5).sDot == 1.5
    ensures Samplable(LateB().points, 1.5) && StateAt(LateB(), 1.5).sDot == 1.0
  {
    hide Built, StateFrom, Timed;
    BuiltIsTimed(LateA());
    BuiltIsTimed(LateB());
    LateStateA();
    LateStateB();
  }

  lemma LateStateA()
    requires Timed(LateA().points)
    ensures Samplable(LateA().points, 1.5) && StateFrom(PointAt(LateA().points, 1.5), 1.5).sDot == 1.5
  {
    hide UpperBound;
    PointHeld(LateA().points, 0, 1.5);
  }

  lemma LateStateB()
    requires Timed(LateB().points)
    ensures Samplable(LateB().points, 1.5) && StateFrom(PointAt(LateB().points, 1.5), 1.5).sDot == 1.0
  {
    hide UpperBound;
    PointHeld(LateB().points, 1, 1.5);
  }

  // ----- the session -----

  datatype Kind = FirstBuild | Pivot | StagedBranchSampled | StagedUnsamplable | StagedAgain | Noop
  datatype ExtendError = EmptyBatch | DofMismatch | SeamMismatch | BuildFailed
  datatype ExtendResult =
    | Extended(kind: Kind, branchSlack: Option<real>, deltaTotalDuration: real)
    | Rejected(error: ExtendError)

  /** What drawing a sample comes to. */
  datatype Draw = Drawn(sample: Sample) | Drained | Threw

  /** Staged motion: its waypoints and, once a batch has been staged, the trajectory built from them. */
  datatype Staging = NotStaging | Staged(waypoints: seq<Row>, next: Option<Traj>)

  function Last(rows: seq<Row>): Row
    requires rows != []
  {
    rows[|rows| - 1]
  }

  function StagedTail(staging: Staging): seq<Row> {
    if staging.Staged? && staging.next.Some? && staging.waypoints != [] then staging.waypoints[1..] else []
  }

  function DurationOrZero(t: Traj): real {
    if t.points != [] then DurationOf(t) else 0.0
  }

  function StagedDuration(staging: Staging): real {
    if staging.Staged? && staging.next.Some? then DurationOrZero(staging.next.value) else 0.0
  }

  /** Global times start at zero and increase by at most one period. */
  ghost predicate Cadence(log: seq<Sample>, period: real) {
    (log != [] ==> log[0].time == 0.0) &&
    forall i :: 0 <= i < |log| - 1 ==> log[i].time < log[i + 1].time <= log[i].time + period
  }

  lemma {:induction false} CadenceIncreases(log: seq<Sample>, period: real, i: nat, j: nat)
    requires Cadence(log, period) && i <= j < |log|
    ensures log[i].time <= log[j].time
    decreases j - i
  {
    if i < j {
      CadenceIncreases(log, period, i, j - 1);
      assert log[j - 1].time < log[j - 1 + 1].time;
    }
  }

  /** Every sample emitted since the active trajectory's lineage began is the active trajectory's
      own phase state at that time. */
  ghost predicate Agrees(log: seq<Sample>, live: nat, active: Traj, epoch: real)
    requires Built(active)
  {
    forall i :: live <= i < |log| ==> OnMotion(active, epoch, log[i])
  }

  /** The sample is a trajectory's own phase state. */
  ghost predicate OnMotion(t: Traj, epoch: real, sample: Sample)
    requires Built(t)
  {
    epoch <= sample.time <= epoch + DurationOf(t) && Samplable(t.points, sample.time - epoch) &&
    sample.state == StateAt(t, sample.time - epoch)
  }

  /** Pivot soundness: if the branch lies after the last sample and the candidate has not turned off
      the old trajectory by then either, every sample emitted so far has the same phase state under the
      candidate. */
  lemma PivotKeepsAgreement(log: seq<Sample>, live: nat, active: Traj, candidate: Traj, epoch: real, now: real, period: real)
    requires Built(active) && Built(candidate) && Cadence(log, period) && Agrees(log, live, active, epoch)
    requires log != [] ==> log[|log| - 1].time == now
    requires now - epoch < BranchLocalTime(active.points, candidate.points) && now - epoch < DurationOf(candidate)
    requires StaysOn(active.points, candidate.points, now - epoch)
    ensures Agrees(log, live, candidate, epoch)
  {
    hide Built, BranchLocalTime, StaysOn, OnMotion;
    forall i | live <= i < |log|
      ensures OnMotion(candidate, epoch, log[i])
    {
      CadenceIncreases(log, period, i, |log| - 1);
      StaysOnMotion(active, candidate, epoch, log[i], now);
    }
  }

  lemma StaysOnMotion(active: Traj, candidate: Traj, epoch: real, sample: Sample, now: real)
    requires Built(active) && Built(candidate) && OnMotion(active, epoch, sample) && sample.time <= now
    requires now - epoch < BranchLocalTime(active.points, candidate.points) && now - epoch < DurationOf(candidate)
    requires StaysOn(active.points, candidate.points, now - epoch)
    ensures OnMotion(candidate, epoch, sample)
  {
    hide Built, BranchLocalTime, StaysOn, StateAt;
    SameStateBefore(active, candidate, sample.time - epoch, now - epoch);
  }

  lemma SameStateBefore(active: Traj, candidate: Traj, t: real, now: real)
    requires Built(active) && Built(candidate) && 0.0 <= t <= now
    requires now < BranchLocalTime(active.points, candidate.points) && now < DurationOf(candidate)
    requires StaysOn(active.points, candidate.points, now)
    ensures Samplable(active.points, t) && Samplable(candidate.points, t) && StateAt(active, t) == StateAt(candidate, t)
  {
    hide StateAt, Built;
    BranchAgreement(active, candidate, now);
  }

  lemma BuiltIsTimed(t: Traj)
    requires Built(t)
    ensures Timed(t.points)
  {
  }

  /** What the session asks of trajectory construction. */
  ghost predicate BuildsTrajectories(build: seq<Row> -> Option<Traj>) {
    forall w: seq<Row> :: build(w).Some? ==> Built(build(w).value)
  }

  /** The waypoint stores describe the trajectories, the staged one starts where the active one
      ends, and together they are the accepted input. */
  ghost predicate StoreOk(build: seq<Row> -> Option<Traj>, waypoints: seq<Row>, active: Option<Traj>, staging: Staging,
                          lastWaypoint: Row, accepted: seq<Row>, retired: seq<Row>)
  {
    waypoints != [] && build(waypoints) == active &&
    (staging.Staged? && staging.next.Some? ==>
       staging.waypoints != [] && build(staging.waypoints) == staging.next && staging.waypoints[0] == Last(waypoints)) &&
    (staging.Staged? && staging.next.None? ==> staging.waypoints == []) &&
    lastWaypoint == (if staging.Staged? && staging.next.Some? then Last(staging.waypoints) else Last(waypoints)) &&
    accepted == retired + waypoints + StagedTail(staging)
  }

  /** The sampler's grid over the active trajectory, and where sampling stands on it: grid (n, start)
      with k samples taken. */
  ghost predicate GridOk(n: nat, start: real, k: nat, dur: real, epoch: real, now: real, emitted: nat, rate: real)
    requires 0.0 < rate
  {
    1 <= n && k <= n && 0.0 <= start < dur && 0.0 <= epoch &&
    (Samples(n) == QuantizedSamples(dur - start, rate) || (n == 1 && k == 1)) &&
    (emitted == 0 ==> k == 0 && start == 0.0 && epoch == 0.0 && now == 0.0) &&
    (0 < k ==> 0 < emitted && now == epoch + GridTime(n, start, dur, k - 1)) &&
    (0 < emitted && k == 0 ==> epoch + start == now + 1.0 / rate) &&
    (0 < emitted ==> epoch <= now <= epoch + dur)
  }

  /** The emitted samples: their times, and their states while the active lineage lasts. */
  ghost predicate HistoryOk(log: seq<Sample>, live: nat, emitted: nat, now: real, active: Traj, epoch: real,
                            period: real, sound: bool)
    requires Built(active)
  {
    |log| == emitted && Cadence(log, period) && (log != [] ==> log[|log| - 1].time == now) && live <= |log| &&
    (sound ==> Agrees(log, live, active, epoch))
  }

  // How each kind of extend keeps the invariants.

  function StartingTime(epoch: real, now: real, emitted: nat, period: real): real {
    if emitted == 0 then 0.0 else now - epoch + period
  }

  lemma FirstInvariants(build: seq<Row> -> Option<Traj>, batch: seq<Row>, n: nat, rate: real, period: real)
    requires batch != [] && build(batch).Some? && Built(build(batch).value) && 0.0 < rate
    requires 2 <= n && Samples(n) == QuantizedSamples(DurationOf(build(batch).value) - 0.0, rate)
    ensures StoreOk(build, batch, build(batch), NotStaging, Last(batch), batch, [])
    ensures GridOk(n, 0.0, 0, DurationOf(build(batch).value), 0.0, 0.0, 0, rate)
    ensures HistoryOk([], 0, 0, 0.0, build(batch).value, 0.0, period, true)
    ensures StagedDuration(NotStaging) == 0.0
  {
    hide Linked, Chained, StateAt;
    TimedDurationPositive(build(batch).value);
    assert [] + batch + [] == batch;
  }

  lemma StartIsNonNegative(n: nat, start: real, k: nat, dur: real, epoch: real, now: real, emitted: nat, rate: real)
    requires 0.0 < rate && GridOk(n, start, k, dur, epoch, now, emitted, rate)
    ensures 0.0 <= StartingTime(epoch, now, emitted, 1.0 / rate)
  {
    hide GridTime;
    DivGe(1.0, 0.0, rate);
  }

  lemma PivotGrid(n0: nat, s0: real, k0: nat, dur0: real, n: nat, dur: real, epoch: real, now: real, emitted: nat, rate: real)
    requires 0.0 < rate && GridOk(n0, s0, k0, dur0, epoch, now, emitted, rate) && 2 <= n
    requires var start := StartingTime(epoch, now, emitted, 1.0 / rate);
             start < dur && (0.0 <= start ==> Samples(n) == QuantizedSamples(dur - start, rate))
    ensures var start := StartingTime(epoch, now, emitted, 1.0 / rate);
            0.0 <= start && GridOk(n, start, 0, dur, epoch, now, emitted, rate)
  {
    hide GridTime;
    DivGe(1.0, 0.0, rate);
  }

  lemma PivotHistory(active: Traj, candidate: Traj, log: seq<Sample>, live: nat, emitted: nat, now: real, epoch: real,
                     period: real, sound: bool, stillSound: bool)
    requires Built(active) && Built(candidate) && 0.0 < period
    requires HistoryOk(log, live, emitted, now, active, epoch, period, sound)
    requires emitted == 0 || epoch + BranchLocalTime(active.points, candidate.points) > now
    requires StartingTime(epoch, now, emitted, period) < DurationOf(candidate)
    requires stillSound == (sound && (emitted == 0 || StaysOn(active.points, candidate.points, now - epoch)))
    ensures HistoryOk(log, live, emitted, now, candidate, epoch, period, stillSound)
  {
    hide Linked, Chained, StateAt, FirstMismatch, BranchLocalTime, StaysOn;
    if stillSound && emitted != 0 {
      PivotKeepsAgreement(log, live, active, candidate, epoch, now, period);
    }
  }

  lemma PivotStore(build: seq<Row> -> Option<Traj>, waypoints: seq<Row>, active: Option<Traj>, lastWaypoint: Row,
                   accepted: seq<Row>, retired: seq<Row>, batch: seq<Row>)
    requires StoreOk(build, waypoints, active, NotStaging, lastWaypoint, accepted, retired) && |batch| > 1
    ensures var grown := waypoints + batch[1..];
            StoreOk(build, grown, build(grown), NotStaging, Last(grown), accepted + batch[1..], retired)
  {
    assert accepted + batch[1..] == retired + (waypoints + batch[1..]) + [];
  }

  /** Every invariant survives a pivot. */
  lemma PivotInvariants(build: seq<Row> -> Option<Traj>, before: seq<Row>, active: Option<Traj>, candidate: Traj, batch: seq<Row>,
                        lastWaypoint: Row, accepted: seq<Row>, retired: seq<Row>, n0: nat, s0: real, k0: nat, n: nat, start: real,
                        epoch: real, now: real, emitted: nat, rate: real, period: real, log: seq<Sample>, live: nat,
                        sound: bool, stillSound: bool)
    requires 0.0 < rate && period == 1.0 / rate && 0.0 < period && active.Some? && Built(active.value) && Built(candidate)
    requires |batch| > 1 && 2 <= n
    requires StoreOk(build, before, active, NotStaging, lastWaypoint, accepted, retired) && build(before + batch[1..]) == Some(candidate)
    requires GridOk(n0, s0, k0, DurationOf(active.value), epoch, now, emitted, rate)
    requires HistoryOk(log, live, emitted, now, active.value, epoch, period, sound)
    requires emitted == 0 || epoch + BranchLocalTime(active.value.points, candidate.points) > now
    requires start == StartingTime(epoch, now, emitted, period) && start < DurationOf(candidate)
    requires 0.0 <= start ==> Samples(n) == QuantizedSamples(DurationOf(candidate) - start, rate)
    requires stillSound == (sound && (emitted == 0 || StaysOn(active.value.points, candidate.points, now - epoch)))
    ensures var grown := before + batch[1..];
            StoreOk(build, grown, Some(candidate), NotStaging, Last(grown), accepted + batch[1..], retired)
    ensures 0.0 <= start && GridOk(n, start, 0, DurationOf(candidate), epoch, now, emitted, rate)
    ensures HistoryOk(log, live, emitted, now, candidate, epoch, period, stillSound)
  {
    hide StoreOk, GridOk, HistoryOk, Chained, StartingTime, BranchLocalTime, StaysOn, QuantizedSamples;
    PivotStore(build, before, active, lastWaypoint, accepted, retired, batch);
    PivotGrid(n0, s0, k0, DurationOf(active.value), n, DurationOf(candidate), epoch, now, emitted, rate);
    PivotHistory(active.value, candidate, log, live, emitted, now, epoch, period, sound, stillSound);
  }

  lemma StageStore(build: seq<Row> -> Option<Traj>, waypoints: seq<Row>, active: Option<Traj>, staging: Staging, lastWaypoint: Row,
                   accepted: seq<Row>, retired: seq<Row>, batch: seq<Row>, store: seq<Row>)
    requires StoreOk(build, waypoints, active, staging, lastWaypoint, accepted, retired) && |batch| > 1
    requires store == (if staging.Staged? && staging.waypoints != [] then staging.waypoints else [Last(waypoints)]) + batch[1..]
    requires build(store).Some?
    ensures StoreOk(build, waypoints, active, Staged(store, build(store)), Last(batch), accepted + batch[1..], retired)
  {
    hide BuildsTrajectories;
    var tail := StagedTail(staging);
    assert store[1..] == tail + batch[1..];
    assert Last(store) == Last(batch);
    Reassociate(retired, waypoints, tail, batch[1..]);
  }

  lemma Reassociate(a: seq<Row>, b: seq<Row>, c: seq<Row>, d: seq<Row>)
    ensures a + b + c + d == a + b + (c + d)
  {
  }

  // How sampling keeps them.

  /** The next sample, at global time t, keeps the cadence. */
  predicate NextInCadence(t: real, now: real, emitted: nat, period: real) {
    if emitted == 0 then t == 0.0 else now < t <= now + period
  }

  /** The next grid sample keeps the cadence. */
  lemma GridKeepsCadence(n: nat, start: real, k: nat, dur: real, epoch: real, now: real, emitted: nat, rate: real)
    requires 0.0 < rate && GridOk(n, start, k, dur, epoch, now, emitted, rate) && k < n
    ensures 2 <= n && Samples(n) == QuantizedSamples(dur - start, rate)
    ensures NextInCadence(epoch + GridTime(n, start, dur, k), now, emitted, 1.0 / rate)
  {
    hide GridTime, QuantizedSamples;
    QuantizedSpacing(dur - start, rate);
    DivGe(1.0, 0.0, rate);
    GridSteps(n, start, dur, if k == 0 then 0 else k - 1);
  }

  /** Rebasing in place of the terminal: the staged motion's first sample falls where the terminal
      would have. */
  lemma RebaseBeforeTerminal(n: nat, start: real, k: nat, dur: real, epoch: real, now: real, emitted: nat, rate: real)
    requires 0.0 < rate && GridOk(n, start, k, dur, epoch, now, emitted, rate) && k + 1 == n
    ensures 0 < emitted && NextInCadence(epoch + dur, now, emitted, 1.0 / rate)
  {
    hide GridTime, QuantizedSamples;
    GridKeepsCadence(n, start, k, dur, epoch, now, emitted, rate);
    GridSteps(n, start, dur, 0);
  }

  /** Once the grid is exhausted the last sample was the trajectory's end. */
  lemma ExhaustedAtEnd(n: nat, start: real, k: nat, dur: real, epoch: real, now: real, emitted: nat, rate: real)
    requires 0.0 < rate && GridOk(n, start, k, dur, epoch, now, emitted, rate) && k == n
    ensures 0 < emitted && now == epoch + dur
  {
  }

  /** Taking grid sample k leaves the grid in order. */
  lemma GridAdvances(n: nat, start: real, k: nat, dur: real, epoch: real, emitted: nat, rate: real)
    requires 0.0 < rate && k < n && 0.0 <= start < dur && 0.0 <= epoch
    requires Samples(n) == QuantizedSamples(dur - start, rate) || (n == 1 && k == 0)
    ensures 0.0 <= GridTime(n, start, dur, k) <= dur
    ensures GridOk(n, start, k + 1, dur, epoch, epoch + GridTime(n, start, dur, k), emitted + 1, rate)
  {
    if n != 1 {
      GridSteps(n, start, dur, k);
    }
  }

  /** The last grid time is the trajectory's end, and no other is. */
  lemma TerminalIsLast(n: nat, start: real, k: nat, dur: real, rate: real)
    requires k < n && 0.0 <= start < dur && (Samples(n) == QuantizedSamples(dur - start, rate) || n == 1)
    ensures k + 1 == n <==> GridTime(n, start, dur, k) == dur
    ensures k + 1 < n ==> GridTime(n, start, dur, k) < dur
  {
    if k + 1 < n {
      GridSteps(n, start, dur, k);
      GridSteps(n, start, dur, k + 1);
      var m := (n - 1) as real;
      DivGe(dur - start, 0.0, m);
      var step := (dur - start) / m;
      assert step * m == dur - start;
    }
  }

  lemma HistoryGrows(log: seq<Sample>, live: nat, emitted: nat, now: real, active: Traj, epoch: real, period: real, sound: bool,
                     sample: Sample, local: real)
    requires Built(active) && HistoryOk(log, live, emitted, now, active, epoch, period, sound)
    requires Samplable(active.points, local) && sample == Sample(epoch + local, StateAt(active, local))
    requires NextInCadence(sample.time, now, emitted, period)
    ensures HistoryOk(log + [sample], live, emitted + 1, sample.time, active, epoch, period, sound)
  {
    assert sample.time - epoch == local;
    assert OnMotion(active, epoch, sample) by {
      hide StateAt, Chained;
    }
    hide OnMotion, Built, Samplable, StateAt;
  }

  /** The staged motion's first sample time when it is installed at `start`. */
  function FirstGridTime(t: Traj, start: real): real {
    if t.points != [] && DurationOf(t) <= start then DurationOf(t) else start
  }

  lemma FirstSampleTime(t: Traj, start: real, n: nat, from: real)
    requires t.points != [] && 0.0 < DurationOf(t) && 0.0 <= start && 1 <= n
    requires if start < DurationOf(t) then 2 <= n && from == start else n == 1 && from == 0.0
    ensures GridTime(n, from, DurationOf(t), 0) == FirstGridTime(t, start) && 0.0 <= from < DurationOf(t)
  {
    if start < DurationOf(t) {
      GridSteps(n, start, DurationOf(t), 0);
    }
  }

  lemma InstallInvariants(build: seq<Row> -> Option<Traj>, waypoints: seq<Row>, active: Option<Traj>, staging: Staging, lastWaypoint: Row,
                          accepted: seq<Row>, retired: seq<Row>, log: seq<Sample>, live: nat, emitted: nat, now: real,
                          n: nat, start: real, k: nat, epoch: real, rate: real, sound: bool)
    requires BuildsTrajectories(build) && 0.0 < rate && active.Some? && Built(active.value)
    requires StoreOk(build, waypoints, active, staging, lastWaypoint, accepted, retired)
    requires staging.Staged? && staging.next.Some?
    requires GridOk(n, start, k, DurationOf(active.value), epoch, now, emitted, rate)
    requires HistoryOk(log, live, emitted, now, active.value, epoch, 1.0 / rate, sound)
    ensures waypoints != [] && Built(staging.next.value) && Timed(staging.next.value.points)
    ensures staging.next.value.points != [] && 0.0 < DurationOf(staging.next.value)
    ensures StoreOk(build, staging.waypoints, staging.next, NotStaging, lastWaypoint, accepted, retired + waypoints[..|waypoints| - 1])
    ensures 0.0 <= epoch + DurationOf(active.value)
    ensures StagedDuration(staging) == DurationOf(staging.next.value)
    ensures HistoryOk(log, |log|, emitted, now, staging.next.value, epoch + DurationOf(active.value), 1.0 / rate, sound)
  {
    hide Chained, GridTime, StateAt;
    InstallStore(build, waypoints, active, staging, lastWaypoint, accepted, retired);
    assert Built(build(staging.waypoints).value);
    TimedDurationPositive(staging.next.value);
    TimedDurationPositive(active.value);
  }

  lemma InstallStore(build: seq<Row> -> Option<Traj>, waypoints: seq<Row>, active: Option<Traj>, staging: Staging, lastWaypoint: Row,
                     accepted: seq<Row>, retired: seq<Row>)
    requires StoreOk(build, waypoints, active, staging, lastWaypoint, accepted, retired)
    requires staging.Staged? && staging.next.Some?
    ensures waypoints != [] &&
            StoreOk(build, staging.waypoints, staging.next, NotStaging, lastWaypoint, accepted, retired + waypoints[..|waypoints| - 1])
  {
    var front := waypoints[..|waypoints| - 1];
    assert waypoints == front + [staging.waypoints[0]];
    assert staging.waypoints == [staging.waypoints[0]] + staging.waypoints[1..];
    Reassociate(retired, front, [staging.waypoints[0]], staging.waypoints[1..]);
    assert accepted == (retired + front) + staging.waypoints + [];
  }

  /** The sample is a trajectory's phase state at one of its own times, at that time past the epoch. */
  ghost predicate TakenAt(t: Option<Traj>, epoch: real, local: real, sample: Sample) {
    t.Some? && Built(t.value) && Samplable(t.value.points, local) && sample == Sample(epoch + local, StateAt(t.value, local))
  }

  /** What a batch came to, from what the session reports and global times only: staged because sampling is
      already past the branch, where samples have gone out and the slack is not positive; else staged
      because the candidate ends within a period of the last sample; else pivoted onto. */
  ghost predicate DecidedBy(kind: Kind, slack: real, emitted: nat, now: real, end: real, period: real) {
    var late := 0 < emitted && slack <= 0.0;
    var short := end <= if emitted == 0 then 0.0 else now + period;
    (kind == StagedBranchSampled <==> late) && (kind == StagedUnsamplable <==> !late && short) && (kind == Pivot <==> !late && !short)
  }

  class Session {
    const build: seq<Row> -> Option<Traj>
    const rate: real
    const period: real

    var waypoints: seq<Row>
    var active: Option<Traj>
    var sampler: Sampler?
    var cursor: Cursor?
    var epoch: real
    var currentTime: real
    var emitted: nat
    var staging: Staging
    var lastWaypoint: Row
    var generation: nat

    // The history the properties are about.
    ghost var accepted: seq<Row>    // every accepted batch, seams dropped once
    ghost var retired: seq<Row>     // waypoints behind the active trajectory
    ghost var reported: real        // the sum of all reported deltas
    ghost var log: seq<Sample>      // every emitted sample, in global time
    ghost var live: nat             // where the active lineage's samples begin in the log
    ghost var sound: bool           // every pivot's candidate stayed on the old trajectory until its last sample

    ghost function Repr(): set<object>
      reads this
    {
      {this} + (if sampler == null then {} else {sampler}) + (if cursor == null then {} else {cursor})
    }

    ghost predicate Valid()
      reads this, Repr()
    {
      BuildsTrajectories(build) && 0.0 < rate && period == 1.0 / rate &&
      if active.None? then Fresh()
      else
        Built(active.value) && 1 <= generation &&
        StoreOk(build, waypoints, active, staging, lastWaypoint, accepted, retired) &&
        sampler != null && cursor != null && sampler.Valid() && cursor.Valid() &&
        cursor.points == active.value.points && cursor.length == active.value.length &&
        GridOk(sampler.numSamples, sampler.start, sampler.nextSample, DurationOf(active.value), epoch, currentTime, emitted, rate) &&
        HistoryOk(log, live, emitted, currentTime, active.value, epoch, period, sound) &&
        reported == epoch + DurationOf(active.value) + StagedDuration(staging)
    }

    /** Before the first build. */
    ghost predicate Fresh()
      reads this
    {
      sampler == null && cursor == null && waypoints == [] && staging == NotStaging && epoch == 0.0 &&
      currentTime == 0.0 && emitted == 0 && generation == 0 && accepted == [] && retired == [] && reported == 0.0 &&
      log == [] && live == 0 && sound
    }

    constructor (build: seq<Row> -> Option<Traj>, rate: real)
      requires 0.0 < rate
      requires BuildsTrajectories(build)
      ensures Valid() && active.None? && fresh(Repr()) && this.build == build && this.rate == rate
    {
      this.build, this.rate, this.period := build, rate, 1.0 / rate;
      waypoints, active, sampler, cursor := [], None, null, null;
      epoch, currentTime, emitted, staging, lastWaypoint, generation := 0.0, 0.0, 0, NotStaging, [], 0;
      accepted, retired, reported, log, live, sound := [], [], 0.0, [], 0, true;
    }

    /** `remaining_active_duration`. */
    function RemainingActiveDuration(): real
      reads this
    {
      if active.None? then 0.0
      else
        var end := epoch + DurationOrZero(active.value);
        if end <= currentTime then 0.0 else end - currentTime
    }

    /** `remaining_total_duration`. */
    function RemainingTotalDuration(): real
      reads this
    {
      if active.None? then 0.0
      else
        var end := epoch + DurationOrZero(active.value) + StagedDuration(staging);
        if end <= currentTime then 0.0 else end - currentTime
    }

    /** Time is conserved: what has been sampled and what remains add up to everything reported. */
    lemma TimeConserved()
      requires Valid()
      ensures currentTime + RemainingTotalDuration() == reported
    {
      if active.Some? {
        StagedNonNegative();
      }
    }

    /** What remains of the active trajectory: sampling never passes its end, so no clamp acts, and it and
        the staged motion make up what remains in all. */
    lemma ActiveRemains()
      requires Valid()
      ensures 0.0 <= RemainingActiveDuration() && currentTime + RemainingActiveDuration() == reported - StagedDuration(staging)
      ensures RemainingTotalDuration() == RemainingActiveDuration() + StagedDuration(staging)
    {
      if active.Some? {
        StagedNonNegative();
      }
    }

    /** The parts of the invariant once a trajectory is active. */
    lemma Open()
      requires Valid() && active.Some?
      ensures BuildsTrajectories(build) && 0.0 < rate && period == 1.0 / rate && 0.0 < period
      ensures Built(active.value) && waypoints != [] && active.value.points != [] && 1 <= generation
      ensures StoreOk(build, waypoints, active, staging, lastWaypoint, accepted, retired)
      ensures sampler != null && cursor != null && sampler.Valid() && cursor.Valid()
      ensures cursor.points == active.value.points && cursor.length == active.value.length
      ensures GridOk(sampler.numSamples, sampler.start, sampler.nextSample, DurationOf(active.value), epoch, currentTime, emitted, rate)
      ensures HistoryOk(log, live, emitted, currentTime, active.value, epoch, period, sound)
      ensures reported == epoch + DurationOf(active.value) + StagedDuration(staging)
    {
      hide GridOk, HistoryOk, Chained;
      DivGe(1.0, 0.0, rate);
    }

    lemma StillFresh()
      requires BuildsTrajectories(build) && 0.0 < rate && period == 1.0 / rate && active.None? && Fresh()
      ensures Valid()
    {
    }

    lemma OpenFresh()
      requires Valid() && active.None?
      ensures BuildsTrajectories(build) && 0.0 < rate && period == 1.0 / rate && Fresh()
    {
    }

    lemma Close()
      requires BuildsTrajectories(build) && 0.0 < rate && period == 1.0 / rate
      requires active.Some? && Built(active.value) && active.value.points != [] && 1 <= generation
      requires StoreOk(build, waypoints, active, staging, lastWaypoint, accepted, retired)
      requires sampler != null && cursor != null && sampler.Valid() && cursor.Valid()
      requires cursor.points == active.value.points && cursor.length == active.value.length
      requires GridOk(sampler.numSamples, sampler.start, sampler.nextSample, DurationOf(active.value), epoch, currentTime, emitted, rate)
      requires HistoryOk(log, live, emitted, currentTime, active.value, epoch, period, sound)
      requires reported == epoch + DurationOf(active.value) + StagedDuration(staging)
      ensures Valid()
    {
      hide GridOk, HistoryOk, StoreOk;
    }

    lemma BuildOk(w: seq<Row>)
      requires BuildsTrajectories(build) && build(w).Some?
      ensures Built(build(w).value) && Timed(build(w).value.points) && build(w).value.points != []
      ensures 0.0 < DurationOf(build(w).value)
    {
      TimedDurationPositive(build(w).value);
    }

    lemma StagedNonNegative()
      requires Valid() && active.Some?
      ensures 0.0 <= StagedDuration(staging)
    {
      if staging.Staged? && staging.next.Some? {
        assert Built(build(staging.waypoints).value);
        TimedDurationPositive(staging.next.value);
      }
    }

    // ----- extending -----

    /** Where a candidate's sampler would start: zero before anything is emitted, and otherwise one
        period past the last sample. */
    function StartingLocalTime(): real
      reads `epoch, `currentTime, `emitted
    {
      StartingTime(epoch, currentTime, emitted, period)
    }

    /** The two conditions a pivot needs. */
    predicate BranchAhead(candidate: Traj)
      requires active.Some? && active.value.points != []
      reads `active, `epoch, `currentTime, `emitted
    {
      emitted == 0 || epoch + BranchLocalTime(active.value.points, candidate.points) > currentTime
    }

    predicate HasSamplableMaterial(candidate: Traj)
      requires candidate.points != []
      reads `epoch, `currentTime, `emitted
    {
      StartingLocalTime() < DurationOf(candidate)
    }

    /** The staged waypoints after taking in a batch. */
    function StagedStore(batch: seq<Row>): seq<Row>
      requires batch != [] && waypoints != []
      reads `staging, `waypoints
    {
      (if staging.Staged? && staging.waypoints != [] then staging.waypoints else [Last(waypoints)]) + batch[1..]
    }

    /** Make t active and sample it afresh on a grid of n samples from start. */
    method Activate(t: Traj, n: nat, start: real)
      requires Timed(t.points) && 1 <= n
      modifies `active, `cursor, `sampler, `generation
      ensures active == Some(t) && generation == old(generation) + 1
      ensures cursor != null && fresh(cursor) && cursor.Valid() && cursor.points == t.points && cursor.length == t.length
      ensures sampler != null && fresh(sampler) && sampler.Valid() && sampler.numSamples == n && sampler.start == start && sampler.nextSample == 0
    {
      active := Some(t);
      cursor := new Cursor(t.points, t.length);
      sampler := new Sampler(n, start);
      generation := generation + 1;
    }

    /** Make t active with what the extend has accounted for. */
    method Commit(t: Traj, n: nat, start: real, last: Row, ghost taken: seq<Row>, ghost total: real, ghost stillSound: bool)
      requires Timed(t.points) && 1 <= n
      modifies `active, `cursor, `sampler, `generation, `lastWaypoint, `accepted, `reported, `sound
      ensures active == Some(t) && generation == old(generation) + 1
      ensures cursor != null && fresh(cursor) && cursor.Valid() && cursor.points == t.points && cursor.length == t.length
      ensures sampler != null && fresh(sampler) && sampler.Valid() && sampler.numSamples == n && sampler.start == start && sampler.nextSample == 0
      ensures lastWaypoint == last && accepted == taken && reported == total && sound == stillSound
    {
      lastWaypoint := last;
      accepted, reported, sound := taken, total, stillSound;
      Activate(t, n, start);
    }

    /** Make the staged trajectory active where the active one ends. */
    method TakeOver(staged: Traj, n: nat, from: real)
      requires Timed(staged.points) && 1 <= n && staging.Staged? && active.Some? && active.value.points != [] && waypoints != []
      modifies `active, `waypoints, `cursor, `sampler, `epoch, `staging, `generation, `retired, `live
      ensures active == Some(staged) && generation == old(generation) + 1
      ensures cursor != null && fresh(cursor) && cursor.Valid() && cursor.points == staged.points && cursor.length == staged.length
      ensures sampler != null && fresh(sampler) && sampler.Valid() && sampler.numSamples == n && sampler.start == from && sampler.nextSample == 0
      ensures old(active).Some? && old(active).value.points != [] && epoch == old(epoch) + DurationOf(old(active).value)
      ensures old(waypoints) != [] && retired == old(retired) + old(waypoints)[..|old(waypoints)| - 1]
      ensures live == |log| && old(staging).Staged? && waypoints == old(staging).waypoints && staging == NotStaging
    {
      hide Timed, Cursor.Valid, Sampler.Valid, DurationOf;
      var oldDuration := DurationOf(active.value);
      retired, live := retired + waypoints[..|waypoints| - 1], |log|;
      waypoints := staging.waypoints;
      Activate(staged, n, from);
      epoch := epoch + oldDuration;
      staging := NotStaging;
    }

    /** `quantized_for_trajectory`'s sample count where it accepts the start. */
    function GridCount(t: Traj, start: real): (n: nat)
      requires t.points != [] && 0.0 <= start < DurationOf(t) && 0.0 < rate
      ensures 2 <= n && Samples(n) == QuantizedSamples(DurationOf(t) - start, rate)
      reads {}
    {
      QuantizedSpacing(DurationOf(t) - start, rate);
      QuantizedSamples(t.points[|t.points| - 1].time - start, rate).n
    }

    /** `stage_`: the staged motion with a batch taken in, and its growth. The staged store starts
        with the active trajectory's last waypoint. None leaves everything as it was. */
    method Stage(st: Staging, batch: seq<Row>) returns (r: Option<(real, Staging)>)
      requires st.Staged? && batch != [] && waypoints != []
      ensures var store := (if st.waypoints != [] then st.waypoints else [Last(waypoints)]) + batch[1..];
              match build(store)
              case None => r.None?
              case Some(t) => r == Some((DurationOrZero(t) - StagedDuration(st), Staged(store, Some(t))))
    {
      var store := st.waypoints;
      if store == [] {
        store := store + [Last(waypoints)];
        assert store == [Last(waypoints)];
      }
      store := store + batch[1..];
      var candidate := build(store);
      if candidate.None? {
        return None;
      }
      var growth := if st.next.Some? then DurationOrZero(candidate.value) - StagedDuration(st) else DurationOrZero(candidate.value);
      r := Some((growth, Staged(store, candidate)));
    }

    /** The first extend. */
    method ExtendFirst(batch: seq<Row>) returns (r: ExtendResult)
      requires BuildsTrajectories(build) && 0.0 < rate && period == 1.0 / rate && active.None? && Fresh() && batch != []
      modifies `waypoints, `active, `cursor, `sampler, `lastWaypoint, `generation, `accepted, `reported, `sound
      ensures build(batch).None? ==> r == Rejected(BuildFailed) && unchanged(this)
      ensures build(batch).Some? ==>
                Valid() && fresh(Repr() - {this}) && build(batch).value.points != [] &&
                r == Extended(FirstBuild, None, DurationOf(build(batch).value)) &&
                active == build(batch) && waypoints == batch && generation == 1 && reported == r.deltaTotalDuration && accepted == batch
    {
      // The store is populated before the build, and emptied again if it fails.
      waypoints := waypoints + batch;
      assert waypoints == batch;
      var first := build(waypoints);
      if first.None? {
        waypoints := waypoints[..0];
        return Rejected(BuildFailed);
      }
      hide Valid, BuildsTrajectories, DurationOf;
      AdoptFirst(first.value);
      r := Extended(FirstBuild, None, DurationOf(first.value));
    }

    /** The commit half of the first build. The waypoints already hold the batch. */
    method AdoptFirst(first: Traj)
      requires BuildsTrajectories(build) && 0.0 < rate && period == 1.0 / rate && waypoints != [] && build(waypoints) == Some(first)
      requires staging == NotStaging && retired == [] && log == [] && live == 0 && sound
      requires epoch == 0.0 && currentTime == 0.0 && emitted == 0
      modifies `active, `cursor, `sampler, `lastWaypoint, `generation, `accepted, `reported, `sound
      ensures Valid() && fresh(Repr() - {this}) && active == Some(first) && first.points != []
      ensures generation == old(generation) + 1 && reported == DurationOf(first) && accepted == waypoints
    {
      hide Valid, GridOk, Built, BuildsTrajectories, QuantizedSamples, StoreOk, HistoryOk, Timed, StagedDuration, Cursor.Valid,
        Sampler.Valid, DurationOf, Last;
      BuildOk(waypoints);
      var n := GridCount(first, 0.0);
      FirstInvariants(build, waypoints, n, rate, period);
      Commit(first, n, 0.0, Last(waypoints), waypoints, DurationOf(first), true);
      Close();
    }

    /** Take a batch into the staged motion, or leave the session as it was if it cannot be built. */
    method StageBatch(batch: seq<Row>) returns (growth: Option<real>)
      requires Valid() && active.Some? && waypoints != [] && |batch| > 1
      modifies `staging, `lastWaypoint, `accepted, `reported
      ensures Valid()
      ensures build(old(StagedStore(batch))).None? ==> growth.None? && unchanged(this)
      ensures build(old(StagedStore(batch))).Some? ==>
                growth.Some? && StagedBy(batch) && reported == old(reported) + growth.value && accepted == old(accepted) + batch[1..]
    {
      hide GridOk, Built, HistoryOk, StoreOk, Fresh, Valid, BuildsTrajectories, Timed, Cursor.Valid, Sampler.Valid, Last;
      Open();
      var staged := Stage(if staging.Staged? then staging else Staged([], None), batch);
      if staged.None? {
        Close();
        return None;
      }
      var (grown, next) := staged.value;
      BuildOk(next.waypoints);
      StageStore(build, waypoints, active, staging, lastWaypoint, accepted, retired, batch, next.waypoints);
      staging, lastWaypoint := next, Last(batch);
      accepted, reported := accepted + batch[1..], reported + grown;
      Close();
      growth := Some(grown);
    }

    /** The commit half of a pivot. The waypoints already include the batch. */
    method AdoptCandidate(candidate: Traj, batch: seq<Row>, ghost before: seq<Row>)
      requires |batch| > 1 && Pivotable(candidate, before, batch)
      modifies `active, `cursor, `sampler, `lastWaypoint, `generation, `accepted, `reported, `sound
      ensures Valid() && fresh(Repr() - old(Repr()))
      ensures active == Some(candidate) && generation == old(generation) + 1 && accepted == old(accepted) + batch[1..]
      ensures old(active).Some? && old(active).value.points != [] && candidate.points != []
      ensures reported == old(reported) + (DurationOf(candidate) - DurationOf(old(active).value))
      ensures sound == (old(sound) && (emitted == 0 ||
                                       StaysOn(old(active).value.points, candidate.points, currentTime - epoch)))
    {
      hide GridOk, Built, HistoryOk, StoreOk, Valid, BuildsTrajectories, StaysOn, QuantizedSamples, Timed,
        Cursor.Valid, Sampler.Valid, StagedDuration, Fresh, DurationOf, StartingTime, StagedTail, Last, BranchLocalTime;
      BuildOk(waypoints);
      var start := StartingLocalTime();
      StartIsNonNegative(sampler.numSamples, sampler.start, sampler.nextSample, DurationOf(active.value),
                         epoch, currentTime, emitted, rate);
      var n := GridCount(candidate, start);
      ghost var stillSound := sound && (emitted == 0 || StaysOn(active.value.points, candidate.points, currentTime - epoch));
      PivotInvariants(build, before, active, candidate, batch, lastWaypoint, accepted, retired,
                      sampler.numSamples, sampler.start, sampler.nextSample, n, start, epoch, currentTime, emitted, rate, period,
                      log, live, sound, stillSound);
      Commit(candidate, n, start, Last(waypoints), accepted + batch[1..],
             reported + (DurationOf(candidate) - DurationOf(active.value)), stillSound);
      Close();
    }

    /** The session mid-extend: everything but the waypoints still describes the old trajectory, and
        the candidate built from the grown waypoints may be pivoted onto. */
    ghost predicate Pivotable(candidate: Traj, before: seq<Row>, batch: seq<Row>)
      requires |batch| > 1
      reads this, Repr()
    {
      BuildsTrajectories(build) && 0.0 < rate && period == 1.0 / rate && 0.0 < period && active.Some? && Built(active.value) &&
      active.value.points != [] && 1 <= generation &&
      StoreOk(build, before, active, NotStaging, lastWaypoint, accepted, retired) && staging == NotStaging &&
      sampler != null && cursor != null && sampler.Valid() && cursor.Valid() &&
      cursor.points == active.value.points && cursor.length == active.value.length &&
      GridOk(sampler.numSamples, sampler.start, sampler.nextSample, DurationOf(active.value), epoch, currentTime, emitted, rate) &&
      HistoryOk(log, live, emitted, currentTime, active.value, epoch, period, sound) &&
      reported == epoch + DurationOf(active.value) + StagedDuration(staging) &&
      waypoints == before + batch[1..] && build(waypoints) == Some(candidate) && candidate.points != [] &&
      BranchAhead(candidate) && HasSamplableMaterial(candidate)
    }

    /** An extend that decides between pivoting and staging. */
    method PivotOrStage(batch: seq<Row>) returns (r: ExtendResult)
      requires Valid() && active.Some? && waypoints != [] && active.value.points != [] && staging.NotStaging? && |batch| > 1
      modifies `waypoints, `active, `cursor, `sampler, `lastWaypoint, `generation, `accepted, `reported, `sound, `staging
      ensures Valid() && fresh(Repr() - old(Repr()))
      ensures r.Rejected? ==> r == Rejected(BuildFailed) && unchanged(this)
      ensures r.Extended? ==> reported == old(reported) + r.deltaTotalDuration && accepted == old(accepted) + batch[1..]
      ensures r.Rejected? <==> !old(Builds(batch))
      ensures r.Extended? ==>
                old(Candidate(batch)).Some? && r.kind == old(PivotKind(Candidate(batch).value)) &&
                r.branchSlack == Some(Slack(old(active.value), old(Candidate(batch)).value)) &&
                if r.kind == Pivot then PivotedBy(batch)
                else
                  StagedBy(batch) && waypoints == old(waypoints) && active == old(active) && generation == old(generation) &&
                  sound == old(sound) && Repr() == old(Repr())
    {
      hide GridOk, Built, HistoryOk, StoreOk, Fresh, Valid, BuildsTrajectories, BranchLocalTime, StaysOn, Timed, StagedDuration,
        Cursor.Valid, Sampler.Valid, StagedStore, DurationOf;
      Open();
      // Appending is provisional: the store is wound back unless the candidate wins a pivot.
      var committed := |waypoints|;
      waypoints := waypoints + batch[1..];
      var candidate := build(waypoints);
      if candidate.None? {
        waypoints := waypoints[..committed];
        assert unchanged(this);
        return Rejected(BuildFailed);
      }
      BuildOk(waypoints);
      var slack := epoch + BranchLocalTime(active.value.points, candidate.value.points) - currentTime;
      var ahead := BranchAhead(candidate.value);
      if ahead && HasSamplableMaterial(candidate.value) {
        var delta := DurationOf(candidate.value) - DurationOf(active.value);
        AdoptCandidate(candidate.value, batch, old(waypoints));
        return Extended(Pivot, Some(slack), delta);
      }
      waypoints := waypoints[..committed];
      assert unchanged(this);
      r := StageInstead(batch, if ahead then StagedUnsamplable else StagedBranchSampled, slack);
    }

    /** Stage a batch that lost its pivot. */
    method StageInstead(batch: seq<Row>, kind: Kind, slack: real) returns (r: ExtendResult)
      requires Valid() && active.Some? && waypoints != [] && |batch| > 1
      modifies `staging, `lastWaypoint, `accepted, `reported
      ensures Valid() && Repr() == old(Repr())
      ensures build(old(StagedStore(batch))).None? ==> r == Rejected(BuildFailed) && unchanged(this)
      ensures build(old(StagedStore(batch))).Some? ==>
                r.Extended? && r.kind == kind && r.branchSlack == Some(slack) && StagedBy(batch) &&
                reported == old(reported) + r.deltaTotalDuration && accepted == old(accepted) + batch[1..]
    {
      hide Valid, StagedStore;
      var growth := StageBatch(batch);
      r := if growth.None? then Rejected(BuildFailed) else Extended(kind, Some(slack), growth.value);
    }

    /** The branch's lead over the last sample, in global time. */
    ghost function Slack(existing: Traj, candidate: Traj): real
      requires existing.points != []
      reads `epoch, `currentTime
    {
      epoch + BranchLocalTime(existing.points, candidate.points) - currentTime
    }

    /** The candidate built from a batch over the active trajectory's waypoints. */
    function Candidate(batch: seq<Row>): Option<Traj>
      requires batch != []
      reads `waypoints
    {
      build(waypoints + batch[1..])
    }

    /** The candidate may be pivoted onto. */
    predicate Pivots(candidate: Traj)
      reads `active, `epoch, `currentTime, `emitted
    {
      active.Some? && active.value.points != [] && candidate.points != [] && BranchAhead(candidate) && HasSamplableMaterial(candidate)
    }

    /** What becomes of the candidate: it is pivoted onto, or there is no time left to sample it, or sampling is
        already past the branch. */
    function PivotKind(candidate: Traj): Kind
      reads `active, `epoch, `currentTime, `emitted
    {
      if Pivots(candidate) then Pivot
      else if active.Some? && active.value.points != [] && BranchAhead(candidate) then StagedUnsamplable
      else StagedBranchSampled
    }

    lemma KindIsDecided(candidate: Traj)
      requires Valid() && active.Some? && active.value.points != [] && candidate.points != []
      ensures DecidedBy(PivotKind(candidate), Slack(active.value, candidate), emitted, currentTime, epoch + DurationOf(candidate), period)
    {
      hide Built, HistoryOk, StoreOk, BuildsTrajectories, Timed, GridTime, QuantizedSamples, BranchLocalTime, StagedDuration;
    }

    /** Everything a batch that passes the checks needs to have built can be: the first build; the staged
        store grown by it; or the candidate and, where that cannot be pivoted onto, the staged store. */
    predicate Builds(batch: seq<Row>)
      requires batch != []
      reads `active, `waypoints, `staging, `epoch, `currentTime, `emitted
    {
      if active.None? then build(batch).Some?
      else if |batch| == 1 || waypoints == [] then true
      else if staging.Staged? then build(StagedStore(batch)).Some?
      else Candidate(batch).Some? && (Pivots(Candidate(batch).value) || build(StagedStore(batch)).Some?)
    }

    /** The batch agrees in size with the stored waypoints and starts at the last of them. */
    predicate Continues(batch: seq<Row>)
      requires batch != []
      reads `active, `waypoints, `lastWaypoint
    {
      active.Some? && waypoints != [] ==> |batch[0]| == |waypoints[0]| && batch[0] == lastWaypoint
    }

    /** `extend`. An error of any kind leaves the session unchanged; a batch that is taken is accounted
        for in the reported duration and the accepted waypoints; sampling never moves. */
    method Extend(batch: seq<Row>) returns (r: ExtendResult)
      requires Valid()
      modifies `waypoints, `active, `cursor, `sampler, `lastWaypoint, `generation, `accepted, `reported, `sound, `staging
      ensures Valid() && fresh(Repr() - old(Repr()))
      ensures r.Rejected? ==> unchanged(this)
      ensures r.Extended? ==> reported == old(reported) + r.deltaTotalDuration
      ensures r.Extended? ==> batch != [] && accepted == old(accepted) + (if old(active).None? then batch else batch[1..])
      ensures r == Rejected(EmptyBatch) <==> batch == []
      ensures r == Rejected(DofMismatch) <==>
              batch != [] && old(active).Some? && old(waypoints) != [] && |batch[0]| != |old(waypoints)[0]|
      ensures r == Rejected(SeamMismatch) <==>
              batch != [] && old(active).Some? && old(waypoints) != [] && |batch[0]| == |old(waypoints)[0]| && batch[0] != old(lastWaypoint)
      ensures r == Rejected(BuildFailed) <==> batch != [] && old(Continues(batch)) && !old(Builds(batch))
      ensures r.Extended? && r.kind in {Pivot, StagedBranchSampled, StagedUnsamplable} ==>
                old(Candidate(batch)).Some? && r.kind == old(PivotKind(Candidate(batch).value)) && r.branchSlack.Some? &&
                old(active).Some? && old(active).value.points != [] &&
                r.branchSlack.value == epoch + BranchLocalTime(old(active).value.points, old(Candidate(batch)).value.points) - currentTime &&
                DecidedBy(r.kind, r.branchSlack.value, emitted, currentTime, epoch + DurationOrZero(old(Candidate(batch)).value), period)
      ensures r.Extended? ==>
                match r.kind
                case FirstBuild => old(active).None? && active == build(batch) && waypoints == batch && generation == 1
                case Noop => |batch| == 1 && r == Extended(Noop, None, 0.0) && unchanged(this)
                case Pivot => |batch| > 1 && old(active).Some? && old(staging).NotStaging? && PivotedBy(batch)
                case StagedAgain => |batch| > 1 && old(active).Some? && old(staging).Staged? && StagedBy(batch) && r.branchSlack.None?
                case _ => |batch| > 1 && old(active).Some? && old(staging).NotStaging? && StagedBy(batch)
    {
      hide GridOk, Built, HistoryOk, StoreOk, Valid, BuildsTrajectories, BranchLocalTime, StaysOn, BranchAhead, HasSamplableMaterial,
        Timed, StagedDuration, Cursor.Valid, Sampler.Valid, StagedStore, Pivots, DecidedBy;
      if batch == [] {
        return Rejected(EmptyBatch);
      }
      if active.None? {
        OpenFresh();
        r := ExtendFirst(batch);
        if r.Rejected? {
          StillFresh();
        }
        return;
      }
      Open();
      if |batch[0]| != |waypoints[0]| {
        return Rejected(DofMismatch);
      }
      if batch[0] != lastWaypoint {
        return Rejected(SeamMismatch);
      }
      if |batch| == 1 {
        assert batch[1..] == [];
        return Extended(Noop, None, 0.0);
      }
      if staging.Staged? {
        var growth := StageBatch(batch);
        return if growth.None? then Rejected(BuildFailed) else Extended(StagedAgain, None, growth.value);
      }
      if Candidate(batch).Some? {
        BuildOk(waypoints + batch[1..]);
        KindIsDecided(Candidate(batch).value);
      }
      r := PivotOrStage(batch);
    }

    /** The batch joined the staged motion. */
    twostate predicate StagedBy(batch: seq<Row>)
      requires batch != []
      reads this
    {
      old(waypoints) != [] && build(old(StagedStore(batch))).Some? && lastWaypoint == Last(batch) &&
      staging == Staged(old(StagedStore(batch)), build(old(StagedStore(batch))))
    }

    /** The candidate became active, with nothing staged. */
    twostate predicate PivotedBy(batch: seq<Row>)
      requires batch != []
      reads this
    {
      waypoints == old(waypoints) + batch[1..] && active == build(waypoints) && active.Some? && staging == NotStaging &&
      generation == old(generation) + 1 && old(active).Some? && old(active).value.points != [] &&
      sound == (old(sound) && (emitted == 0 || StaysOn(old(active).value.points, active.value.points, currentTime - epoch)))
    }

    // ----- staging and sampling -----

    method StartStaging()
      requires Valid()
      modifies `staging
      ensures Valid()
      ensures staging == if active.Some? && old(staging).NotStaging? then Staged([], None) else old(staging)
    {
      if active.Some? && staging.NotStaging? {
        staging := Staged([], None);
        hide GridOk, HistoryOk, Chained;
      }
    }

    predicate HasStaged()
      reads this
    {
      staging.Staged? && staging.next.Some?
    }

    /** Between installing a grid and taking its next sample: the invariant, except that the next
        sample's cadence stands in for the grid's own account of the last one. */
    ghost predicate Poised()
      reads this, Repr()
    {
      BuildsTrajectories(build) && 0.0 < rate && period == 1.0 / rate && active.Some? && Built(active.value) &&
      active.value.points != [] && 1 <= generation &&
      StoreOk(build, waypoints, active, staging, lastWaypoint, accepted, retired) &&
      sampler != null && cursor != null && sampler.Valid() && cursor.Valid() &&
      cursor.points == active.value.points && cursor.length == active.value.length &&
      var n, start, k, dur := sampler.numSamples, sampler.start, sampler.nextSample, DurationOf(active.value);
      k < n && 0.0 <= start < dur && 0.0 <= epoch &&
      (Samples(n) == QuantizedSamples(dur - start, rate) || (n == 1 && k == 0)) &&
      NextInCadence(epoch + GridTime(n, start, dur, k), currentTime, emitted, period) &&
      HistoryOk(log, live, emitted, currentTime, active.value, epoch, period, sound) &&
      reported == epoch + dur + StagedDuration(staging)
    }

    /** Take the poised sample, if it can be taken: the terminal of a trajectory whose last acceleration is unset
        cannot, and is used up all the same. */
    method Emit() returns (r: Option<Sample>)
      requires Poised()
      modifies this, Repr()
      ensures Repr() == old(Repr())
      ensures r.None? <==> old(AtTerminal()) && !Complete(old(active).value)
      ensures r.Some? ==> Valid() && log == old(log) + [r.value] && currentTime == r.value.time
      ensures r.Some? ==> NextInCadence(r.value.time, old(currentTime), old(emitted), period)
      ensures r.None? ==> log == old(log) && currentTime == old(currentTime)
      ensures r.None? && !old(HasStaged()) ==> Stranded()
      ensures r.Some? ==> TakenAt(active, epoch, old(NextLocalTime()), r.value)
      ensures epoch == old(epoch) && waypoints == old(waypoints) && generation == old(generation)
      ensures Backlog() == old(Backlog()) && SamplesLeft() < old(SamplesLeft())
      ensures accepted == old(accepted) && reported == old(reported) && staging == old(staging) && active == old(active) && sampler == old(sampler)
      ensures sampler != null && sampler.nextSample == old(sampler.nextSample) + 1
    {
      hide Valid, StoreOk, GridOk, HistoryOk, BuildsTrajectories, Chained, GridTime, QuantizedSamples, StateFrom, PointAt, Increasing,
        StateAt, StagedDuration, Samplable, Stranded;
      var n, start, k := sampler.numSamples, sampler.start, sampler.nextSample;
      ghost var local := GridTime(n, start, DurationOf(active.value), k);
      GridAdvances(n, start, k, DurationOf(active.value), epoch, emitted, rate);
      TerminalIsLast(n, start, k, DurationOf(active.value), rate);
      BuiltSamples(active.value, local);
      var next := sampler.TakeNext(cursor);
      if next.Failed? {
        if !HasStaged() {
          Strands();
        }
        return None;
      }
      SampleIsState(active.value, local);
      assert next == Next(Sample(local, StateAt(active.value, local)));
      var sample := next.sample.(time := next.sample.time + epoch);
      HistoryGrows(log, live, emitted, currentTime, active.value, epoch, period, sound, sample, local);
      emitted := emitted + 1;
      currentTime := sample.time;
      log := log + [sample];
      Close();
      r := Some(sample);
    }

    /** Where on the active trajectory the grid's next sample is. */
    ghost function NextLocalTime(): real
      reads this, sampler
    {
      if active.Some? && active.value.points != [] && sampler != null && sampler.nextSample < sampler.numSamples
      then GridTime(sampler.numSamples, sampler.start, DurationOf(active.value), sampler.nextSample) else 0.0
    }

    /** The next sample is the active trajectory's last. */
    predicate AtTerminal()
      reads this, sampler
    {
      sampler != null && sampler.nextSample + 1 == sampler.numSamples
    }

    /** The active trajectory's terminal could not be taken, and nothing is staged behind it: the samples are used
        up short of its end. */
    ghost predicate Stranded()
      reads this, Repr()
    {
      active.Some? && active.value.points != [] && sampler != null && cursor != null && sampler.Valid() && cursor.Valid() &&
      sampler.nextSample == sampler.numSamples && !HasStaged() && StagedDuration(staging) == 0.0 &&
      currentTime < epoch + DurationOf(active.value) && reported == epoch + DurationOf(active.value)
    }

    lemma Strands()
      requires active.Some? && active.value.points != [] && sampler != null && cursor != null && sampler.Valid() && cursor.Valid()
      requires sampler.nextSample == sampler.numSamples && !HasStaged() && reported == epoch + DurationOf(active.value) + StagedDuration(staging)
      requires currentTime < epoch + DurationOf(active.value)
      ensures Stranded()
    {
    }

    /** A stranded session has motion left that it will not report. */
    lemma StrandedShort()
      requires Stranded()
      ensures currentTime < reported && currentTime + RemainingTotalDuration() == reported
    {
    }

    /** `install_staged_`: the staged trajectory becomes active and is sampled from `start` into its
        own time, or on the one-sample grid when it is over by then. */
    method InstallStaged(start: real)
      requires Valid() && active.Some? && HasStaged() && 0.0 <= start
      requires NextInCadence(epoch + DurationOf(active.value) + FirstGridTime(staging.next.value, start), currentTime, emitted, period)
      requires 0 < emitted
      modifies `active, `waypoints, `cursor, `sampler, `epoch, `staging, `generation, `retired, `live
      ensures Poised() && fresh(Repr() - {this})
      ensures active == old(staging).next && waypoints == old(staging).waypoints && staging == NotStaging
      ensures old(active).Some? && old(active).value.points != [] && epoch == old(epoch) + DurationOf(old(active).value)
      ensures generation == old(generation) + 1
      ensures sampler != null && sampler.nextSample == 0
      ensures sampler.numSamples == 1 <==> DurationOrZero(active.value) <= start
      ensures NextLocalTime() == FirstGridTime(active.value, start) && 0.0 < DurationOrZero(active.value)
    {
      hide Valid, StoreOk, GridOk, HistoryOk, BuildsTrajectories, Chained, Timed, GridTime, QuantizedSamples, Cursor.Valid, Sampler.Valid,
        NextInCadence, Poised, FirstGridTime, DurationOf, StagedDuration;
      Open();
      InstallInvariants(build, waypoints, active, staging, lastWaypoint, accepted, retired, log, live, emitted, currentTime,
                        sampler.numSamples, sampler.start, sampler.nextSample, epoch, rate, sound);
      var staged := staging.next.value;
      var (n, from) := if start < DurationOf(staged) then (GridCount(staged, start), start) else (1, 0.0);
      FirstSampleTime(staged, start, n, from);
      Rebase(staged, n, from);
    }

    /** The commit half of a rebase, with the new grid already chosen. */
    method Rebase(staged: Traj, n: nat, from: real)
      requires BuildsTrajectories(build) && 0.0 < rate && period == 1.0 / rate && active.Some? && active.value.points != [] && waypoints != []
      requires HasStaged() && staging.next == Some(staged) && Built(staged) && Timed(staged.points) && staged.points != [] && 1 <= generation
      requires StoreOk(build, staging.waypoints, staging.next, NotStaging, lastWaypoint, accepted, retired + waypoints[..|waypoints| - 1])
      requires 1 <= n && 0.0 <= from < DurationOf(staged) && 0.0 <= epoch + DurationOf(active.value)
      requires Samples(n) == QuantizedSamples(DurationOf(staged) - from, rate) || n == 1
      requires NextInCadence(epoch + DurationOf(active.value) + GridTime(n, from, DurationOf(staged), 0), currentTime, emitted, period)
      requires HistoryOk(log, |log|, emitted, currentTime, staged, epoch + DurationOf(active.value), period, sound)
      requires reported == epoch + DurationOf(active.value) + DurationOf(staged)
      modifies `active, `waypoints, `cursor, `sampler, `epoch, `staging, `generation, `retired, `live
      ensures Poised() && fresh(Repr() - {this})
      ensures active == Some(staged) && waypoints == old(staging).waypoints && staging == NotStaging
      ensures old(active).Some? && old(active).value.points != [] && epoch == old(epoch) + DurationOf(old(active).value)
      ensures generation == old(generation) + 1 && sampler != null && sampler.nextSample == 0 && sampler.numSamples == n
      ensures NextLocalTime() == GridTime(n, from, DurationOf(staged), 0)
    {
      hide StoreOk, HistoryOk, BuildsTrajectories, Built, Timed, GridTime, QuantizedSamples, Cursor.Valid, Sampler.Valid,
        NextInCadence, Poised, DurationOf, StagedDuration;
      TakeOver(staged, n, from);
      ClosePoised();
    }

    lemma ClosePoised()
      requires BuildsTrajectories(build) && 0.0 < rate && period == 1.0 / rate && active.Some? && Built(active.value)
      requires active.value.points != [] && 1 <= generation
      requires StoreOk(build, waypoints, active, staging, lastWaypoint, accepted, retired)
      requires sampler != null && cursor != null && sampler.Valid() && cursor.Valid()
      requires cursor.points == active.value.points && cursor.length == active.value.length
      requires sampler.nextSample == 0 && 0.0 <= sampler.start < DurationOf(active.value) && 0.0 <= epoch
      requires Samples(sampler.numSamples) == QuantizedSamples(DurationOf(active.value) - sampler.start, rate) || sampler.numSamples == 1
      requires 1 <= sampler.numSamples &&
               NextInCadence(epoch + GridTime(sampler.numSamples, sampler.start, DurationOf(active.value), 0), currentTime, emitted, period)
      requires HistoryOk(log, live, emitted, currentTime, active.value, epoch, period, sound)
      requires reported == epoch + DurationOf(active.value) && staging == NotStaging
      ensures Poised()
    {
      hide HistoryOk, StoreOk, Chained, GridTime, QuantizedSamples;
    }

    /** The next sample cannot be taken: it is the terminal of a trajectory whose last acceleration is unset, either
        the active one with nothing staged behind it, or a staged one that is over within a period. */
    predicate TerminalThrows()
      reads this, sampler
    {
      active.Some? && sampler != null &&
      if AtTerminal() then !HasStaged() && !Complete(active.value)
      else
        sampler.nextSample == sampler.numSamples && HasStaged() && DurationOrZero(staging.next.value) <= period &&
        !Complete(staging.next.value)
    }

    method SampleOne() returns (r: Draw)
      requires Valid() || Stranded()
      modifies this, Repr()
      ensures fresh(Repr() - old(Repr())) && reported == old(reported) && accepted == old(accepted)
      ensures old(Stranded()) ==> r.Drained? && Stranded()
      ensures old(Valid()) ==> (r.Threw? <==> old(TerminalThrows())) && (if r.Threw? then Stranded() else Valid())
      ensures !r.Drawn? ==> log == old(log) && currentTime == old(currentTime)
      ensures r.Drained? ==> unchanged(this)
      ensures old(Valid()) && r.Drained? && active.Some? ==> currentTime == reported
      ensures r.Drawn? ==> log == old(log) + [r.sample] && currentTime == r.sample.time
      ensures r.Drawn? ==> NextInCadence(currentTime, old(currentTime), |old(log)|, period)
      ensures r.Drawn? ==> if old(Rebases()) then FromStaged(r.sample) else FromActive(r.sample)
      ensures r.Drawn? ==> (Backlog() == old(Backlog()) && SamplesLeft() < old(SamplesLeft())) || Backlog() < old(Backlog())
      ensures old(active).None? ==> r.Drained?
    {
      if sampler == null || cursor == null {
        return Drained;
      }
      hide StoreOk, GridOk, HistoryOk, BuildsTrajectories, Chained, Timed, GridTime, QuantizedSamples, NextInCadence, Valid, Poised,
        Cursor.Valid, StagedDuration, Stranded, Complete, NextLocalTime, TakenAt, Backlog, SamplesLeft;
      var ready := MakeReady();
      if !ready {
        return Drained;
      }
      var sample := Emit();
      r := if sample.None? then Threw else Drawn(sample.value);
    }

    /** Before a draw: the staged motion is installed where it takes over. There may be nothing to draw. */
    method MakeReady() returns (ready: bool)
      requires (Valid() || Stranded()) && sampler != null && cursor != null
      modifies `active, `waypoints, `cursor, `sampler, `epoch, `staging, `generation, `retired, `live
      ensures !ready ==> unchanged(this) && !HasStaged() && (Valid() && active.Some? ==> currentTime == reported)
      ensures old(Stranded()) ==> !ready
      ensures ready ==> Poised() && fresh(Repr() - old(Repr())) && |log| == emitted
      ensures !ready && old(Valid()) ==> !AtTerminal() && sampler != null && sampler.nextSample == sampler.numSamples
      ensures !old(Rebases()) ==> unchanged(this)
      ensures ready && old(Rebases()) ==> Backlog() < old(Backlog())
      ensures ready && old(Rebases()) ==>
                active == old(staging).next && waypoints == old(staging).waypoints && staging == NotStaging &&
                generation == old(generation) + 1 && old(active).Some? && old(active).value.points != [] &&
                epoch == old(epoch) + DurationOf(old(active).value) && active.Some? && sampler != null &&
                NextLocalTime() == (if old(AtTerminal()) then 0.0 else Min(period, DurationOrZero(active.value))) &&
                sampler.nextSample == 0 && (sampler.numSamples == 1 <==> !old(AtTerminal()) && DurationOrZero(active.value) <= period)
    {
      hide StoreOk, GridOk, HistoryOk, BuildsTrajectories, Chained, Timed, GridTime, QuantizedSamples, NextInCadence, Valid, Poised,
        Cursor.Valid, StagedDuration, Stranded, Complete, NextLocalTime;
      WhereItStands();
      // The staged motion's first sample takes the place of the terminal.
      if sampler.Remaining() == 1 && HasStaged() {
        InstallStaged(0.0);
      } else if sampler.Remaining() == 0 {
        // The terminal has gone out, or could not.
        if !HasStaged() {
          return false;
        }
        InstallStaged(period);
      }
      ready := true;
    }

    /** The staged motion takes over: it is there, and the active trajectory's terminal is next or has gone out. */
    predicate Rebases()
      reads this, sampler
    {
      HasStaged() && sampler != null && sampler.numSamples <= sampler.nextSample + 1
    }

    /** The sample is the active trajectory's next grid sample, and nothing else changed. */
    twostate predicate FromActive(sample: Sample)
      reads this
    {
      active == old(active) && epoch == old(epoch) && staging == old(staging) && waypoints == old(waypoints) &&
      generation == old(generation) && TakenAt(active, epoch, old(NextLocalTime()), sample)
    }

    /** The staged trajectory is active from where the active one ended, and the sample is its state there in place
        of the terminal; or, with the terminal gone out, one period on, or at its end if that is sooner. */
    twostate predicate FromStaged(sample: Sample)
      reads this
    {
      old(staging).Staged? && active == old(staging).next && waypoints == old(staging).waypoints && staging == NotStaging &&
      generation == old(generation) + 1 && old(active).Some? && old(active).value.points != [] &&
      epoch == old(epoch) + DurationOf(old(active).value) && active.Some? &&
      TakenAt(active, epoch, if old(AtTerminal()) then 0.0 else Min(period, DurationOrZero(active.value)), sample)
    }

    /** How many staged trajectories wait, and how many samples the active grid has left. */
    function Backlog(): nat
      reads this
    {
      if HasStaged() then 1 else 0
    }

    ghost function SamplesLeft(): nat
      reads this, Repr()
    {
      if sampler != null && sampler.nextSample <= sampler.numSamples then sampler.numSamples - sampler.nextSample else 0
    }

    /** What a draw starts from. */
    lemma WhereItStands()
      requires (Valid() || Stranded()) && sampler != null && cursor != null
      ensures active.Some? && sampler.Valid() && (Valid() <==> !Stranded()) && active.value.points != []
      ensures Stranded() ==> sampler.nextSample == sampler.numSamples && !HasStaged()
      ensures Valid() ==> sampler.nextSample < sampler.numSamples ==> Poised()
      ensures Valid() && sampler.nextSample == sampler.numSamples ==> 0 < emitted
      ensures Valid() && sampler.nextSample + 1 == sampler.numSamples && HasStaged() ==>
                0 < emitted && NextInCadence(epoch + DurationOf(active.value) + FirstGridTime(staging.next.value, 0.0), currentTime, emitted, period)
      ensures Valid() && sampler.nextSample == sampler.numSamples && HasStaged() ==>
                NextInCadence(epoch + DurationOf(active.value) + FirstGridTime(staging.next.value, period), currentTime, emitted, period)
      ensures Valid() && !HasStaged() && sampler.nextSample == sampler.numSamples ==> currentTime == reported
      ensures Valid() ==> 0.0 < period && |log| == emitted && (HasStaged() ==> 0.0 < DurationOrZero(staging.next.value))
    {
      hide StoreOk, GridOk, BuildsTrajectories, Chained, Timed, GridTime, QuantizedSamples, NextInCadence, Poised, Cursor.Valid, Valid;
      if Valid() {
        OpenSome();
        Open();
        SamplingPosition();
        if HasStaged() {
          StagedBuilt();
        }
      }
    }

    lemma OpenSome()
      requires Valid() && sampler != null
      ensures active.Some?
    {
    }

    /** Where sampling stands: poised for the next grid sample, or at the active trajectory's end. */
    lemma SamplingPosition()
      requires Valid() && active.Some?
      ensures sampler.nextSample < sampler.numSamples ==> Poised()
      ensures sampler.nextSample == sampler.numSamples ==> 0 < emitted && currentTime == epoch + DurationOf(active.value)
      ensures sampler.nextSample + 1 == sampler.numSamples && HasStaged() ==>
                0 < emitted && NextInCadence(epoch + DurationOf(active.value) + FirstGridTime(staging.next.value, 0.0), currentTime, emitted, period)
      ensures sampler.nextSample == sampler.numSamples && HasStaged() ==>
                NextInCadence(epoch + DurationOf(active.value) + FirstGridTime(staging.next.value, period), currentTime, emitted, period)
      ensures !HasStaged() && sampler.nextSample == sampler.numSamples ==> currentTime == reported
    {
      Open();
      var n, start, k, dur := sampler.numSamples, sampler.start, sampler.nextSample, DurationOf(active.value);
      hide Valid, GridTime, QuantizedSamples, HistoryOk, StoreOk, Chained;
      if k < n {
        GridKeepsCadence(n, start, k, dur, epoch, currentTime, emitted, rate);
        if HasStaged() {
          StagedBuilt();
          if k + 1 == n {
            RebaseBeforeTerminal(n, start, k, dur, epoch, currentTime, emitted, rate);
          }
        }
      } else {
        ExhaustedAtEnd(n, start, k, dur, epoch, currentTime, emitted, rate);
        if HasStaged() {
          StagedBuilt();
        }
      }
    }

    lemma StagedBuilt()
      requires Valid() && active.Some? && HasStaged()
      ensures Built(staging.next.value) && 0.0 < DurationOf(staging.next.value)
    {
      assert Built(build(staging.waypoints).value);
      TimedDurationPositive(staging.next.value);
    }

    /** Samples were drawn: the log grew by exactly these, nothing else was accepted or reported, and
        if the session is drained it stands at the end of all reported motion. */
    twostate predicate Drew(samples: seq<Sample>, drained: bool)
      reads this
    {
      log == old(log) + samples && reported == old(reported) && accepted == old(accepted) &&
      (drained && active.Some? ==> currentTime == reported)
    }

    /** `sample_next`. None when a sample cannot be taken; those drawn before it are lost. */
    method SampleNext(n: nat) returns (r: Option<seq<Sample>>)
      requires Valid()
      modifies this, Repr()
      ensures fresh(Repr() - old(Repr()))
      ensures r.Some? ==> Valid() && |r.value| <= n && Drew(r.value, |r.value| < n)
      ensures r.None? ==> Stranded() && Lost(n - 1)
    {
      hide Valid, Stranded;
      var samples := [];
      for i := 0 to n
        invariant Valid() && fresh(Repr() - old(Repr()))
        invariant |samples| == i && Drew(samples, false)
      {
        var draw := SampleOne();
        match draw
        case Threw => return None;
        case Drained => break;
        case Drawn(sample) => samples := samples + [sample];
      }
      r := Some(samples);
    }

    /** At most n samples were drawn that nobody gets. */
    twostate predicate Lost(n: int)
      reads this
    {
      |old(log)| <= |log| <= |old(log)| + n && log[..|old(log)|] == old(log) && reported == old(reported) && accepted == old(accepted)
    }

    /** `sample_at_least`: it terminates for every horizon, and stops at the first sample that
        reaches it, or drained, or at one that cannot be taken. */
    method SampleAtLeast(horizon: real) returns (r: Option<seq<Sample>>)
      requires Valid()
      modifies this, Repr()
      ensures fresh(Repr() - old(Repr()))
      ensures r.Some? ==> Valid() && Drew(r.value, r.value == [] || currentTime < old(currentTime) + horizon)
      ensures r.Some? ==> forall i :: 0 <= i < |r.value| - 1 ==> r.value[i].time < old(currentTime) + horizon
      ensures r.Some? && r.value != [] ==> r.value[|r.value| - 1].time == currentTime
      ensures r.None? ==> Stranded() && Lost(|log| - |old(log)|)
    {
      hide Valid, Stranded;
      var target := currentTime + horizon;
      var samples := [];
      while true
        invariant Valid() && fresh(Repr() - old(Repr()))
        invariant Drew(samples, false)
        invariant forall i :: 0 <= i < |samples| ==> samples[i].time < target
        invariant samples != [] ==> samples[|samples| - 1].time == currentTime
        decreases Backlog(), SamplesLeft()
      {
        var draw := SampleOne();
        match draw
        case Threw => return None;
        case Drained => break;
        case Drawn(sample) =>
          samples := samples + [sample];
          if currentTime >= target {
            break;
          }
      }
      r := Some(samples);
    }

    /** Over any run: the active and staged trajectories are the ones their stored waypoints build, the
        staged waypoints begin where the active ones end, and together with the retired ones they are
        exactly what was accepted; sample times start at zero and step by more than zero and at most
        one period; and while every pivot branched late enough, every sample of the active lineage
        still lies on the active trajectory. */
    lemma WholeRun()
      requires Valid() && active.Some?
      ensures active == build(waypoints) && waypoints != [] && accepted == retired + waypoints + StagedTail(staging)
      ensures HasStaged() ==> staging.next == build(staging.waypoints) && staging.waypoints != [] && staging.waypoints[0] == Last(waypoints)
      ensures Cadence(log, period) && (log != [] ==> currentTime == log[|log| - 1].time)
      ensures sound ==> Built(active.value) && Agrees(log, live, active.value, epoch)
    {
      hide GridOk, Chained;
    }
  }

  /** What the sampler takes from a built trajectory is its phase state. */
  lemma SampleIsState(t: Traj, local: real)
    requires Built(t) && Samplable(t.points, local)
    ensures var state := StateFrom(PointAt(t.points, local), local);
            state.(s := Min(state.s, t.length)) == StateAt(t, local)
  {
    hide StateFrom, Chained;
    ClampIsIdle(t, local);
  }

  lemma TimedDurationPositive(t: Traj)
    requires Built(t)
    ensures 0.0 < DurationOf(t)
  {
    var ts := Times(t.points);
    assert ts[0] < ts[|ts| - 1];
  }
}
