# trajex: a model of its trajectory generator, and proofs about it

trajex turns a list of joint-space waypoints into a time-optimal trajectory. It builds a smooth path
through the waypoints, integrates forward and backward in the phase plane of path position and path
velocity under two limit curves (Kunz and Stilman, "Time-Optimal Trajectory Generation for Path
Following with Bounded Acceleration and Velocity", sections IV, VI and VII), and hands out samples. A
streaming session on top accepts waypoints while samples are being drawn. A kinematic chain supplies
the motion of the tool.

Doubles are modelled as exact reals. A NaN acceleration is the value `Unset`, an infinity is the
value `Unbounded` of `Limit` or a cursor sentinel, and an exception is a value of a result datatype.
The epsilon comparisons, which are not transitive, appear as explicit tolerances. A square root is
kept squared, or its result is any non-negative number whose square is the argument.

The model follows the code's form. The integrator, the session, the sampler, the cursors, the
switching-point cache, the edited waypoint list and the kinematic workspace are classes whose methods
change fields; limit curves, scans, bisections and one-pass sums are methods with loops; closed-form
arithmetic is functions. Each method is proved against a specification, and the specifications carry
the properties.

## The modules

- `Reals`, `Vectors`, `Rotations`: arithmetic, joint-space vectors, and quaternions with the facts
  about rotations that the walk rests on.
- `Limits`, `PathGeometry`, `BackwardSolve`, `PhasePlane`, `Window`, `SwitchingCache`, `Integrator`:
  trajectory generation. `Limits` has the curves and the bounds, `PathGeometry` what a path's unit tangent
  and perpendicular curvature add to them, `BackwardSolve` the per-step root solve, `PhasePlane` one
  forward step, `Window` the crossing scan, `Integrator` the alternating passes, the splice and the whole
  run, and `Instances` two concrete runs.
- `Search`, `Trajectory`, `PathCursor`, `UniformSampler`: finished trajectories, the hinted cursors,
  and the sampling grid.
- `Session`: the streaming state machine.
- `Coalescing`, `Blend`, `BlendDistance`, `PathBuild`: path construction.
- `Chain`, `ColumnChange`: the kinematic chain, and how its Jacobian's columns change with the joints.
- `WaypointUtils`: deduplication and splitting at reversals.

## What the proofs found

- **The backward-solve residual is not monotone**, though a comment says so
  (trajectory.cpp:1960-1962). `ResidualCanRise` gives a circular path and a tolerance at which it only
  rises and has no root, and `ResidualFallsExactly` the exact condition under which it never rises. What
  does hold, for all inputs, is that it is concave in the squared velocity and changes sign at most once,
  which is what the bisection needs.
- **A root can be missing only because of the near-zero test.** For any joints, the residual turns negative
  exactly when the step is short enough for some moving joint (`TurnsNegativeExactly`). On a path, whose
  tangent is a unit vector and whose curvature is perpendicular to it, one always is, with an explicit
  bound on where, as long as the tolerance takes little enough out of the tangent
  (`PathResidualEndsNegative`); with exact tests there is no restriction at all.
- **The bracket expansion can loop for ever**: when the Euler step leaves the velocity unchanged its
  doubled step stays zero, and if the padded bracket does not straddle zero nothing changes
  (trajectory.cpp:1985-1997). `ExpandBracket` terminates on every other input, and `ResidualCanRise`
  includes a step on which it does not.
- **The root can lie above the ceiling**, although a comment says that none does (trajectory.cpp:1976-1978).
  It is bounded by the joints' accelerations and not by their velocities: `RootAboveCeiling` is a straight path
  whose root lies above twice the velocity limit. `NoneAboveExactly` says when the comment is right, and
  `GivenUp` and `GivesUpRightly` when the throw is: a bracket given up with a positive residual at its top
  leaves nothing below it, as it always does where the velocities involved are below half the wall; one given
  up with a residual that is not positive has passed over a root below it.
- **A snapped step can have a negative velocity or a zero mean velocity**, the latter a division by zero
  (trajectory.cpp:1498-1510, 1752-1768). `SnapCanGoNegative` and `SnapStallsExactly` say exactly when the
  snap itself does that, and `SnapStaysForward` what a caller can check before it. Beyond that a step can
  start and end at rest: forward where a committed point is clamped to a zero limit curve, backward where
  the minimum acceleration at rest is zero within epsilon. A run of the model that meets one of these ends
  as `Degenerate`, and the contracts of both passes say that there are no others.
- **The crossing scan does not look at the last forward point**, though a comment says that both ends of an
  overlap are checked (trajectory.cpp:2033-2041). `LastCrossingIsMissed` is a crossing inside the last
  forward segment that goes unreported, and `PassGoesOn` the pass it goes unreported in; `BelowExactly`
  says that with nothing reported backward is on or below forward everywhere if and only if it is at the
  last forward point.
- **The path-end switching point that the search reports carries no acceleration**, so a run that
  ends on it leaves the last point's acceleration unset and has no sample at exactly its duration
  (trajectory.cpp:1196-1197, 2443). By `Create` and `TerminalSample` there is one if and only if the last
  forward pass itself reached the path's end, and always where the search never reports that end;
  `TerminalSampleCanBeMissing` follows a run on a valid plane, step by step, to a finished list without one.
- **A streaming session throws at such a terminal**, and afterwards reports itself drained short of the total
  it reports as remaining (session.cpp:311-350). `SampleOne` says exactly when it throws, and
  `StrandedShort` what is then left.
- **`find_branch_local_time` looks only at the active trajectory's side of the first mismatch**
  (session.cpp:33-41). `BranchCanComeLate` shows two trajectories from rest to rest for which a pivot would
  contradict an emitted sample; `BranchAgreement` is the exact condition on the candidate's own points.
- **The switching-point cache is not transparent for near ties** with a positive epsilon, because
  each search is bounded by the other's result. `CloseTiesDiffer` is an instance and
  `FreshAnswerIsCacheless` the exact condition; with exact ties the cache is transparent everywhere.
- **A point under the acceleration curve can be refused by the checked bounds** when the squared path
  velocity exceeds one: the curve ignores pairs of joints whose ratios differ by less than epsilon,
  which costs epsilon times the squared velocity. On the joints a path supplies this happens for every
  positive epsilon up to the square root of one half, and for none above, where a unit tangent cannot move
  two joints: `PathGeometry.CheckedBoundsExactly`.

## Model

| member | source | states |
|---|---|---|
| Limits.ComputeAccelerationLimitSq | src/viam/trajex/totg/trajectory.cpp:122-186 | the loops return the least of all pair limits and all stationary-joint limits, attained by one of them, and no limit when there is none |
| Limits.ComputeAccelerationBoundsUnchecked | src/viam/trajex/totg/trajectory.cpp:257-290 | the loop returns the greatest lower and the least upper bound over the moving joints |
| Limits.InsideBounds | src/viam/trajex/totg/trajectory.cpp:257-290 | a path acceleration lies between the bounds exactly when every moving joint's own acceleration is within its limit |
| Limits.UnderCurveCrossing | src/viam/trajex/totg/trajectory.cpp:122-186 | under the acceleration curve the bounds cross by at most epsilon times the squared velocity |
| Limits.AccelerationCurve | src/viam/trajex/totg/trajectory.cpp:122-186 | with exact zero tests, a velocity is on or below the curve exactly when the bounds are ordered and every stationary joint's curvature term fits its limit |
| Limits.BoundsMeetOnPairPoint | src/viam/trajex/totg/trajectory.cpp:1648-1652 | on a curve point set by a pair of joints the two bounds meet |
| Limits.CheckedBoundsMeetLimits | src/viam/trajex/totg/trajectory.cpp:295-310 | what the checked bounds return is ordered, and any acceleration between them stays under the upper bound itself and exceeds no moving joint's limit by more than epsilon times its tangent component |
| Limits.CheckedBoundsAdmit | src/viam/trajex/totg/trajectory.cpp:295-310 | the checked bounds are refused exactly where the bounds cross by more than epsilon; bounds more than epsilon apart admit exactly what keeps every moving joint within its limit, and bounds within epsilon admit the lower of the two alone |
| Limits.ComputeJointVelocityLimit | src/viam/trajex/totg/trajectory.cpp:75-92 | the least of the moving joints' velocity limits and the lowest-numbered joint that sets it |
| Limits.VelocityCurve | src/viam/trajex/totg/trajectory.cpp:75-92 | a velocity is under the velocity curve exactly when every moving joint is within its own velocity limit |
| PathGeometry.SegmentsSupplyPaths | src/viam/trajex/totg/path.cpp:197-266 | at every position of every segment, straight or circular, the tangent is a unit vector and the curvature perpendicular to it |
| PathGeometry.BendPointsIn | src/viam/trajex/totg/path.cpp:232-266 | the curvature of an arc, times the square of its radius, is the way from the arc's point to its center |
| PathGeometry.SampledMotion | src/viam/trajex/totg/trajectory.cpp:2409-2429 | on a path the joint speed of a sample is the path speed, its rate the path acceleration, and the rest of the joint acceleration the curvature at the squared speed |
| PathGeometry.SampleWithinLimits | src/viam/trajex/totg/trajectory.cpp:2409-2429 | a sample keeps every moving joint within its acceleration limit exactly when its path acceleration lies between the bounds |
| PathGeometry.UnitTangentMoves | src/viam/trajex/totg/path.cpp:197-230 | a unit tangent moves some joint while the tolerance is small for the number of joints |
| PathGeometry.MovingShare | src/viam/trajex/totg/trajectory.cpp:122-186 | the joints under the tolerance take no more from the squared tangent than its square each, and from its product with the curvature no more than the tolerance times their curvature |
| PathGeometry.LeastRatio | src/viam/trajex/totg/trajectory.cpp:257-290 | some moving joint has a curvature ratio no larger than the average weighted by the squared tangent |
| PathGeometry.CheckedBoundsExactly | src/viam/trajex/totg/trajectory.cpp:295-310 | on a path, being under the curve guarantees feasible checked bounds if and only if epsilon is zero, the squared velocity at most one, or twice the squared epsilon more than one |
| PathGeometry.CheckedBoundsCanFailUnderCurve | src/viam/trajex/totg/trajectory.cpp:295-310 | two joints of a circular path under no curve at all whose checked bounds are refused |
| BackwardSolve.RequiredIsQuadratic | src/viam/trajex/totg/trajectory.cpp:1944-1952 | the acceleration computed from dt is the difference of the squared velocities over twice the distance |
| BackwardSolve.ResidualConcave | src/viam/trajex/totg/trajectory.cpp:1944-1952 | the residual is concave in the squared velocity |
| BackwardSolve.ResidualAtRest | src/viam/trajex/totg/trajectory.cpp:1944-1952 | the residual is not negative at rest |
| BackwardSolve.SignChangesOnce | src/viam/trajex/totg/trajectory.cpp:1944-1962 | once negative the residual stays negative, and once back at zero it stays non-positive |
| BackwardSolve.ResidualCanRise | src/viam/trajex/totg/trajectory.cpp:1960-1962 | joints of a circular path and a tolerance for which the residual rises without bound, so that there is no root and a zero Euler step spins |
| BackwardSolve.ResidualFallsExactly | src/viam/trajex/totg/trajectory.cpp:1960-1962 | the residual never rises over non-negative velocities if and only if a joint that sets the minimum at rest has a curvature ratio of at most one over twice the step |
| BackwardSolve.TurnsNegativeExactly | src/viam/trajex/totg/trajectory.cpp:1944-1962 | the residual turns negative at some velocity if and only if the step is short enough for some moving joint's curvature ratio |
| BackwardSolve.PathResidualEndsNegative | src/viam/trajex/totg/trajectory.cpp:1944-1962 | on a path, with a tolerance small for the geometry, the residual is negative from an explicit squared velocity on; with exact tests that is the squared velocity braked to plus the step times twice a joint's budget |
| BackwardSolve.PathHasBracket | src/viam/trajex/totg/trajectory.cpp:1972-1997 | so the bracket from rest to any velocity past that bound straddles zero |
| BackwardSolve.NoneUpToExactly | src/viam/trajex/totg/trajectory.cpp:1976-1989 | no velocity up to a limit needs as little as the minimum acceleration if and only if the residual at the limit is positive |
| BackwardSolve.NoneAboveExactly | src/viam/trajex/totg/trajectory.cpp:1976-1989 | on a path every velocity from a ceiling on has a residual that is not positive if and only if the ceiling has, and otherwise a straddling bracket lies above it |
| BackwardSolve.RootAboveCeiling | src/viam/trajex/totg/trajectory.cpp:1976-1978 | a straight path with a positive residual at twice the velocity limit and a root above it |
| BackwardSolve.GivenUp | src/viam/trajex/totg/trajectory.cpp:1980-1989 | a bracket given up leaves no velocity up to its top that would have done, or has passed over one below it, by the sign of the residual at its top; never the latter once it came down to rest |
| BackwardSolve.GivesUpRightly | src/viam/trajex/totg/trajectory.cpp:1980-1989 | with both velocities below about half the wall, giving up is right for every velocity up to the top of the bracket, which lies past the wall |
| BackwardSolve.ExpandBracket | src/viam/trajex/totg/trajectory.cpp:1972-1997 | the widening loop ends with the first bracket that straddles, or gives up exactly where none up to the ceiling does, with a bracket that reaches as far down as up, past the wall but for the first step; on every input but the spinning ones |
| BackwardSolve.WidenIsNext | src/viam/trajex/totg/trajectory.cpp:1985-1997 | doubling the step each round takes the bracket through its closed form, the interval between the two velocities padded by epsilon and by their distance times 2 + 4 + ... and cut off at rest |
| BackwardSolve.SpinningIsStationary | src/viam/trajex/totg/trajectory.cpp:1985-1997 | a round of widening changes nothing exactly when the step is zero |
| BackwardSolve.NoStraddleNoRoot | src/viam/trajex/totg/trajectory.cpp:1981-1997 | a bracket that does not straddle has no root below its top, or none above its bottom |
| BackwardSolve.Bisect | src/viam/trajex/totg/trajectory.cpp:1999-2028 | from a straddling bracket the bisection terminates at a velocity whose residual is within epsilon of zero |
| BackwardSolve.SolveBackwardStep | src/viam/trajex/totg/trajectory.cpp:1954-2030 | the whole solve returns the Euler velocity where that is within epsilon of a root, and otherwise a velocity within epsilon of one in the first bracket that straddles; it gives up if and only if no bracket up to the ceiling straddles, and spins exactly on the spinning inputs |
| BackwardSolve.BrakingMeetsLimits | src/viam/trajex/totg/trajectory.cpp:1944-2028 | at the velocity returned, the constant acceleration onto the current point is the minimum acceleration within epsilon, and where the bounds cross by at most a slack it exceeds no moving joint's limit by more than epsilon plus the slack, times its tangent component |
| BackwardSolve.CrossingNearCurve | src/viam/trajex/totg/trajectory.cpp:122-186 | at most epsilon above the acceleration curve the bounds cross by no more than epsilon v (v + 4 r), with r the largest curvature ratio, and stationary joints keep their curvature term within 2 epsilon v times their curvature of the limit |
| PhasePlane.EulerIsConstantAcceleration | src/viam/trajex/totg/trajectory.cpp:425-446 | both branches of the step, the one cut short at rest included, satisfy the energy equation of constant acceleration |
| PhasePlane.EulerStepExactly | src/viam/trajex/totg/trajectory.cpp:425-446 | the step is motion under its acceleration for the whole of dt, or up to where that comes to rest if sooner, and throws exactly when both coordinates stay within epsilon |
| PhasePlane.BackwardEulerDescends | src/viam/trajex/totg/trajectory.cpp:425-446 | a backward step that does not throw strictly decreases the position |
| PhasePlane.SnapsExactly | src/viam/trajex/totg/trajectory.cpp:1498-1510 | a forward or backward step that ends within two epsilons of the boundary, or past it, is moved along its own line to the boundary, and any other is left as it is |
| PhasePlane.SnapCanGoNegative | src/viam/trajex/totg/trajectory.cpp:1498-1510 | the velocity lerped onto a segment end is negative exactly when the loss over the step, carried to the boundary, exceeds the starting velocity |
| PhasePlane.SnapStallsExactly | src/viam/trajex/totg/trajectory.cpp:1498-1510 | the mean velocity of the snapped step is zero exactly when that loss is twice the starting velocity |
| PhasePlane.SnapCanStall | src/viam/trajex/totg/trajectory.cpp:1498-1510 | an Euler step that the snap turns into one of zero mean velocity |
| PhasePlane.SnapStaysForward | src/viam/trajex/totg/trajectory.cpp:1498-1510 | the snapped velocity is not negative if the step does not brake or reaches the boundary |
| PhasePlane.SelectionFailsExactly | src/viam/trajex/totg/trajectory.cpp:1443-1480 | on a valid plane no acceleration can be selected if and only if none is mandated and the bounds are infeasible, or the point is on the velocity curve where its slope is missing |
| PhasePlane.SelectionIsChosen | src/viam/trajex/totg/trajectory.cpp:1443-1488 | the acceleration selected is the mandated one; off the velocity curve the upper checked bound; and on it the curve's slope times the velocity, clamped to the checked bounds |
| PhasePlane.SelectionFollows | src/viam/trajex/totg/trajectory.cpp:1471-1484 | the step is marked as following the curve exactly where that acceleration is at least the lower and below the upper checked bound |
| PhasePlane.ClampsExactly | src/viam/trajex/totg/trajectory.cpp:1523-1543 | a following step is put on the curve exactly where it came within epsilon of it or a constant acceleration within the checked bounds would reach it |
| PhasePlane.BisectToCurve | src/viam/trajex/totg/trajectory.cpp:1546-1611 | the bisection terminates with the pair that the first close enough round of halving gives: next under both curves or the current point, breach above one of them, and the two within epsilon |
| PhasePlane.CheckLimits | src/viam/trajex/totg/trajectory.cpp:1523-1722 | the answer to every candidate: a tangent break stops at it with a forced rest; under both curves it is committed; and otherwise the bisected breach stops the pass where it left the segment or where the curve it is judged by falls faster than can be followed, throws where that test does, and is committed on the lower of the two curves elsewhere |
| PhasePlane.ProbeStep | src/viam/trajex/totg/trajectory.cpp:1443-1722 | a whole probe: it throws exactly where no acceleration is to be had or the step does not progress, and otherwise checks the step snapped and put on the curve where it follows it; it moves strictly forward, stays on the path, has a negative velocity only from a braking step snapped past where it stopped, and goes from rest to rest only onto a zero curve |
| PhasePlane.FollowingStaysOnCurve | src/viam/trajex/totg/trajectory.cpp:1471-1562 | from a point on the velocity curve with its slope within the bounds, a step that lands within epsilon of the curve or could reach it inside the bounds is committed exactly on the curve, where that is under the acceleration curve and the tangent does not break |
| PhasePlane.UndisturbedCommits | src/viam/trajex/totg/trajectory.cpp:1443-1562 | a step that ends clear of the segment's end, under both curves and not following, is committed as it is |
| PhasePlane.ProbedOnce | src/viam/trajex/totg/trajectory.cpp:1443-1722 | these conditions determine the answer of a probe |
| PhasePlane.StopsShort | src/viam/trajex/totg/trajectory.cpp:1546-1722 | a probe that stops does so short of the path's end, and short of the breach unless it is to come to rest there, which it is only where the tangent breaks or the velocity curve is zero |
| Window.SlideWindow | src/viam/trajex/totg/trajectory.cpp:2032-2095 | the leftward-sliding scan reports a crossing exactly when a scan of all forward points would, at the rightmost forward point found, strictly left of the backward step and never the last |
| Window.BelowEverywhere | src/viam/trajex/totg/trajectory.cpp:1847-1849 | until a crossing is reported the backward polyline is on or below the forward one throughout every overlap that ends short of the last forward point |
| Window.BelowExactly | src/viam/trajex/totg/trajectory.cpp:2033-2082 | with nothing reported, backward is on or below forward at every position they share if and only if it is at the last forward point |
| Window.LastCrossingIsMissed | src/viam/trajex/totg/trajectory.cpp:2033-2082 | a linked forward and a linked backward step that cross inside the last forward segment, unreported |
| Instances.PassGoesOn | src/viam/trajex/totg/trajectory.cpp:2033-2082 | those steps are a backward pass under way on a valid plane, from a switching point its search reports |
| Integrator.StepLinks | src/viam/trajex/totg/trajectory.cpp:1752-1768 | the dt and acceleration a step stores are exactly those that link its ends |
| Integrator.Integrator.IntegrateForwardFrom | src/viam/trajex/totg/trajectory.cpp:1404-1806 | every outcome of a forward pass, by the pass that leads to it: it keeps what was spliced, each point is what the probe from the one before commits, with only the first mandated, and it goes on from what the search finds where a limit stopped it, from the breach at rest where that is forced, or from the path's end, fails only on a probe that throws or a search that finds nothing, and is degenerate only on a step that overshoots into a negative velocity or stays at rest on a zero curve; the list is consistent and all but its last point within epsilon of both curves |
| Integrator.PassEnds | src/viam/trajex/totg/trajectory.cpp:1724-1793 | a switching point that a forward pass returns is what the search finds from where a limit stopped it, or the path's end where it got there, or a rest point where the tangent breaks or the velocity curve is zero; the second excludes the other two |
| Integrator.BackwardStep | src/viam/trajex/totg/trajectory.cpp:1860-2030 | every outcome of a backward step: it throws exactly where there is no acceleration, no progress, no path left or the solve gives up; it spins exactly on the solve's spinning inputs; and otherwise it is the Euler step at the lower checked bound of the segment being entered, snapped, and unless mandated at the velocity that brakes onto the current point; that is negative only from a snap past where the step stopped, and rest from rest only where the minimum acceleration is zero within epsilon |
| Integrator.BackwardFailsExactly | src/viam/trajex/totg/trajectory.cpp:1860-1895 | a backward step has no acceleration to take if and only if none is mandated and the bounds of the segment being entered are infeasible |
| Integrator.BackwardLinkMeetsLimits | src/viam/trajex/totg/trajectory.cpp:1944-2028 | where the bounds cross by at most a slack, the acceleration such a step is linked with exceeds no moving joint's limit by more than epsilon plus the slack, times its tangent component |
| Integrator.Integrator.IntegrateBackwardsFrom | src/viam/trajex/totg/trajectory.cpp:1817-2226 | every outcome of a backward pass, by the pass that leads to it: each point is the backward step from the one before, with only the first mandated, none is blocked by a limit curve, and none is found above the forward points until the last, where the pass leaves exactly the splice at the rightmost forward point it crosses; it fails only where a step throws, is blocked before it crosses, or would be spliced at nearly no velocity; the spliced list is consistent, within epsilon of both curves, ends at the switching point, and brakes over every link of the pass but a mandated one |
| Integrator.Integrator.Splice | src/viam/trajex/totg/trajectory.cpp:2097-2193 | truncation and re-timestamping leave exactly the forward points up to the crossing, the last of them accelerating onto the lowest backward point, and the backward points in forward order at running times; every link and the safety of every point is kept |
| Integrator.ShiftLink | src/viam/trajex/totg/trajectory.cpp:2165-2179 | a link survives the shift of its start time |
| Integrator.Integrator.Create | src/viam/trajex/totg/trajectory.cpp:2228-2246 | every outcome of the generation, by the run of alternating passes that leads to it, each switching point on the way found as `PassEnds` says; however long it runs, a finished list starts at (0,0,0), ends at the path's end at rest, is linked point to point, is nowhere more than epsilon above either curve, and has its last acceleration set exactly when the last forward pass itself reached the path's end, which is always so where the search never reports that end |
| Integrator.FinishedRespectsVelocities | src/viam/trajex/totg/trajectory.cpp:75-92 | at every point of a finished trajectory where the velocity curve belongs to the geometry, no moving joint exceeds its velocity limit by more than epsilon times its tangent component |
| Integrator.FinishedRespectsAccelerations | src/viam/trajex/totg/trajectory.cpp:122-186 | at every point where the acceleration curve belongs to the geometry, some path acceleration, the minimum one, exceeds no moving joint's limit by more than the crossing slack times its tangent component, and stationary joints nearly fit |
| Integrator.FinishedBrakesWithinLimits | src/viam/trajex/totg/trajectory.cpp:1944-2028 | over every braked link of a finished trajectory the stored acceleration exceeds no moving joint's limit at the link's start by more than epsilon plus the slack, times its tangent component |
| Integrator.StepKeepsAcceleration | src/viam/trajex/totg/trajectory.cpp:1752-1768 | an Euler step kept as it is stores the acceleration it was taken under |
| Integrator.FinishedSelectsWithinLimits | src/viam/trajex/totg/trajectory.cpp:1752-1768 | over every forward link of a finished trajectory that was kept as selected, the stored acceleration is the selected one and exceeds no moving joint's limit at the link's start by more than epsilon times its tangent component |
| Integrator.FinishedIsBuilt | src/viam/trajex/totg/trajectory.cpp:1314-1341 | a finished trajectory passes the constructor's checks and is what the streaming session asks of one, and can be sampled at its end exactly when its last acceleration is set |
| Integrator.TerminalSample | src/viam/trajex/totg/trajectory.cpp:2302-2308 | sampling at exactly the duration yields a sample, at rest at the path's end, if and only if the last acceleration is set |
| Instances.TerminalSampleCanBeMissing | src/viam/trajex/totg/trajectory.cpp:1196-1197 | a whole run on a valid plane, one forward and one backward pass, that ends on the path end its search reports with a finished list and no sample at its duration |
| Instances.ForwardSteps | src/viam/trajex/totg/trajectory.cpp:1443-1510 | the Euler steps of that run's forward pass and the snap of the last |
| Instances.Bisection | src/viam/trajex/totg/trajectory.cpp:1546-1611 | the eight rounds of halving that stop it short of the velocity drop |
| Instances.ProbesCommit | src/viam/trajex/totg/trajectory.cpp:1443-1562 | the two probes of that pass that commit their steps |
| Instances.ProbeStops | src/viam/trajex/totg/trajectory.cpp:1546-1722 | the third, which stops at the drop |
| Instances.FirstPass | src/viam/trajex/totg/trajectory.cpp:1404-1806 | so that the forward points are what a first pass on this plane leaves |
| Instances.BackwardSteps | src/viam/trajex/totg/trajectory.cpp:1860-2030 | its two backward steps, each braking at the bound |
| Integrator.EarlierSamples | src/viam/trajex/totg/trajectory.cpp:2302-2308 | every time short of the duration has a sample |
| SwitchingCache.SearchIsFirst | src/viam/trajex/totg/trajectory.cpp:1193-1255 | a search returns the first point strictly ahead and within its bound, and nothing exactly when there is none |
| SwitchingCache.Cache.FindSwitchingPoint | src/viam/trajex/totg/trajectory.cpp:1193-1255 | over any forward-moving sequence of calls each answer is what an empty cache would give, for every epsilon |
| SwitchingCache.FreshAnswerIsCacheless | src/viam/trajex/totg/trajectory.cpp:836-851 | the exact condition under which that is the answer of two unbounded searches |
| SwitchingCache.ExactTiesAreTransparent | src/viam/trajex/totg/trajectory.cpp:836-851 | with exact ties it always is |
| SwitchingCache.CloseTiesDiffer | src/viam/trajex/totg/trajectory.cpp:836-851 | with a positive epsilon it need not be |
| Search.HoldsIsUpperBound | src/viam/trajex/totg/trajectory.cpp:2454-2540 | in increasing keys the slot that holds a value is unique and is the upper bound's predecessor |
| Trajectory.LinkLands | src/viam/trajex/totg/trajectory.cpp:2443 | the quadratic evaluated over a link lands exactly on the next point |
| Trajectory.LinkStaysBetween | src/viam/trajex/totg/trajectory.cpp:2432-2452 | between two linked points with non-negative velocities position and velocity stay between theirs, so the clamp to the path never acts |
| Trajectory.ChainedIncreases | src/viam/trajex/totg/trajectory.cpp:2270-2291 | linked points strictly increase in time and position |
| Trajectory.Cursor.Seek | src/viam/trajex/totg/trajectory.cpp:2454-2540 | from any hint, on all four routes, the hint becomes the upper bound's predecessor and the path cursor sits where that point's motion puts it |
| Trajectory.Cursor.GetSample | src/viam/trajex/totg/trajectory.cpp:2374-2430 | a sample exists exactly when the cursor is in range over a point whose acceleration is set, and is then that point's motion |
| Trajectory.SampleAt | src/viam/trajex/totg/trajectory.cpp:2302-2308 | a trajectory is sampled exactly at the times within its duration that a point with an acceleration holds, as that point's motion |
| Trajectory.PointAtOwnTime | src/viam/trajex/totg/trajectory.cpp:2374-2430 | the point that holds a point's own time is that point |
| PathCursor.FindIsTheSpan | src/viam/trajex/totg/path.cpp:720-746 | every arc length on the path is in exactly one segment's half-open span, its end in the last, and that is the segment the lookup finds |
| PathCursor.Cursor.Seek | src/viam/trajex/totg/path.cpp:781-798 | any seek, to a sentinel or back from one, leaves the hint on the segment the lookup finds |
| PathCursor.Cursor.SeekBy | src/viam/trajex/totg/path.cpp:800-802 | a relative seek is an absolute one from the position, and from a sentinel stays there |
| PathCursor.Cursor.UpdateHint | src/viam/trajex/totg/path.cpp:972-1044 | from any hint the update ends on the segment the lookup finds |
| PathCursor.RichCursor.Seek | src/viam/trajex/totg/path.cpp:897-920 | a seek that moves the cursor clears all three cached vectors, and one that does not leaves the cache as it was |
| PathCursor.RichCursor.ConfigurationRef | src/viam/trajex/totg/path.cpp:897-932 | a cached or fresh answer is the geometry at the current position |
| PathCursor.RichCursor.TangentRef | src/viam/trajex/totg/path.cpp:897-932 | the same for the tangent |
| PathCursor.RichCursor.CurvatureRef | src/viam/trajex/totg/path.cpp:897-932 | the same for the curvature |
| UniformSampler.QuantizedSpacing | src/viam/trajex/totg/uniform_sampler.cpp:12-26 | the grid has at least two samples, a positive spacing of at most one period, and no sample to spare |
| UniformSampler.GridSteps | src/viam/trajex/totg/uniform_sampler.cpp:51-64 | the grid runs from start to duration exactly in equal steps |
| UniformSampler.Sampler.Advance | src/viam/trajex/totg/uniform_sampler.cpp:51-64 | advancing seeks the cursor to the next grid time until the count is used up |
| UniformSampler.Sampler.TakeNext | src/viam/trajex/totg/uniform_sampler.cpp:66-76 | a taken sample is the trajectory's motion at the next grid time |
| Session.ClampIsIdle | src/viam/trajex/totg/trajectory.cpp:2432-2452 | a built trajectory's motion never leaves its path, so what is sampled is the phase state |
| Session.BuiltSamples | src/viam/trajex/totg/trajectory.cpp:2374-2430 | every time within a built trajectory can be sampled, except the end of one whose last acceleration is unset |
| Session.BranchIsFirstDifference | src/viam/trajex/totg/streaming/session.cpp:33-41 | the branch is at the time of the first point at which the two trajectories differ, and at the end of the existing one where there is none |
| Session.BranchAgreement | src/viam/trajex/totg/streaming/session.cpp:33-41 | up to a time before the reported branch the two trajectories are in the same phase states if and only if the candidate keeps, at whatever points of its own it has by then, the acceleration it had before the mismatch |
| Session.BranchCanComeLate | src/viam/trajex/totg/streaming/session.cpp:33-41 | two trajectories from rest to rest whose velocities differ before the reported branch time |
| Session.PivotKeepsAgreement | src/viam/trajex/totg/streaming/session.cpp:140-170 | under that condition every sample emitted so far has the same phase state under the candidate |
| Session.Session.Extend | src/viam/trajex/totg/streaming/session.cpp:61-187 | every outcome of an extend: exact rejection conditions, a failed build included, that leave the session as it was; by the slack reported and global times alone, staged behind a sampled branch if and only if samples went out and the slack is not positive, else staged as unsamplable if and only if the candidate ends within a period of the last sample, else pivoted onto; and for each accepted batch which trajectory, waypoints, duration and time accounting result |
| Session.Session.ExtendFirst | src/viam/trajex/totg/streaming/session.cpp:70-96 | the first build adopts the batch or leaves the session empty |
| Session.Session.PivotOrStage | src/viam/trajex/totg/streaming/session.cpp:116-187 | append, build, and then pivot or roll back and stage, all or nothing |
| Session.Session.AdoptCandidate | src/viam/trajex/totg/streaming/session.cpp:140-170 | committing a pivot keeps every invariant and accounts for the change of duration |
| Session.Session.Stage | src/viam/trajex/totg/streaming/session.cpp:189-217 | staging builds from the staged waypoints with the seam dropped, or changes nothing |
| Session.Session.StartStaging | src/viam/trajex/totg/streaming/session.cpp:219-227 | staging starts only over an active trajectory and only once, and keeps every invariant |
| Session.Session.InstallStaged | src/viam/trajex/totg/streaming/session.cpp:356-393 | the staged trajectory becomes active one active duration later, its first sample at the start asked for, or at its end on the one-sample grid when it is over by then |
| Session.Session.SampleOne | src/viam/trajex/totg/streaming/session.cpp:311-350 | exactly which sample is drawn: the active trajectory's state at its next grid time; or, where staged motion waits, the staged trajectory's first state in place of the terminal, and its state one period on, or at its end if sooner, after the terminal; global time advances by more than zero and at most a period; when there is none nothing changes and the session stands at the end of all reported motion; it throws if and only if the next sample is the terminal of a trajectory whose last acceleration is unset with nothing to rebase onto, and from then on reports itself drained |
| Session.Session.StrandedShort | src/viam/trajex/totg/streaming/session.cpp:311-350 | after such a throw the current time is short of everything reported, by the remaining total |
| Session.Session.SampleNext | src/viam/trajex/totg/streaming/session.cpp:265-276 | it draws at most n samples, fewer only when drained; a throw loses those drawn before it |
| Session.Session.SampleAtLeast | src/viam/trajex/totg/streaming/session.cpp:278-292 | it terminates for every horizon and stops at the first sample that reaches it, or drained, or at a throw, which loses the samples drawn before it |
| Session.Session.TimeConserved | src/viam/trajex/totg/streaming/session.cpp:248-263 | at every state of every run the current time plus the remaining total duration is the sum of all reported durations |
| Session.Session.ActiveRemains | src/viam/trajex/totg/streaming/session.cpp:233-246 | at every state the current time plus what remains of the active trajectory is everything reported short of the staged motion, which makes up the rest |
| Session.Session.WholeRun | src/viam/trajex/totg/streaming/session.cpp:61-393 | at every state of every run: active and staged are what their stored waypoints build, staged waypoints begin at the active's last, retired with active with staged tail is everything accepted, samples keep the cadence from zero, and while every pivot branched late enough every sample of the lineage lies on the active trajectory |
| Session.GridKeepsCadence | src/viam/trajex/totg/streaming/session.cpp:311-349 | the next grid sample comes more than zero and at most a period after the last |
| Session.RebaseBeforeTerminal | src/viam/trajex/totg/streaming/session.cpp:311-349 | rebasing in place of the terminal sample puts the staged motion's first sample exactly where the terminal would have been |
| Session.ExhaustedAtEnd | src/viam/trajex/totg/streaming/session.cpp:311-349 | an exhausted grid ended exactly at the trajectory's end |
| Coalescing.KeptCovers | src/viam/trajex/totg/path.cpp:455-543 | the kept indices run from the first waypoint to the last, and every dropped waypoint projects inside and lies within the tube of the chord between its kept neighbours |
| Coalescing.InTubeExactly | src/viam/trajex/totg/path.cpp:488-511 | a point passes the tolerance test exactly when the perpendicular from it meets the chord between its ends, no further than the radius away |
| Coalescing.KeptIsGreedy | src/viam/trajex/totg/path.cpp:455-543 | the kept indices are the one list that runs from the first waypoint to the last with each chord let out one waypoint at a time while its tube holds everything between, and not once more |
| Coalescing.CoalesceScan | src/viam/trajex/totg/path.cpp:455-543 | the scan keeps exactly those waypoints |
| Coalescing.WaypointList.ApplyColinearization | src/viam/trajex/totg/tools/legacy.cpp:36-78 | the in-place edit leaves exactly those waypoints |
| Coalescing.BothKeepTheSame | src/viam/trajex/totg/tools/legacy.cpp:5-78 | for every list of at least two waypoints and every tolerance the two implementations leave the same list |
| Blend.TrimIsAdmissible | src/viam/trajex/totg/path.cpp:389-415 | a corner is not too sharp exactly when its trim keeps half of each leg, the deviation budget and both curvature limits |
| Blend.BlendIsLargest | src/viam/trajex/totg/path.cpp:335-449 | a turning corner between legs of positive length is blended exactly when some trim is admissible, and with the largest |
| Blend.BlendsExactly | src/viam/trajex/totg/path.cpp:335-449 | at any three waypoints there is a blend exactly where a turning corner between legs of positive length has an admissible trim, and its trim is the largest |
| Blend.ArcShape | src/viam/trajex/totg/path.cpp:417-440 | the bisector, offset, projection and normalization give the arc its closed form; the projection changes nothing in exact arithmetic |
| Blend.MiddleIsNear | src/viam/trajex/totg/path.cpp:389-400 | halfway along, the arc is exactly the trim times the tangent of the quarter angle from the corner |
| Blend.BlendRoundsCorner | src/viam/trajex/totg/path.cpp:335-449 | every blend takes at most half of each leg, meets both legs in position and direction, has an orthonormal frame and a curvature within its limits, and passes within the deviation budget |
| BlendDistance.BlendStaysNear | src/viam/trajex/totg/path.cpp:389-440 | of every blend the point halfway along is the nearest to the corner, and up to halfway from either end the arc stays within the deviation budget of that end's leg, beside the half of it that the blend takes |
| PathBuild.RestOfLeg | src/viam/trajex/totg/path.cpp:577-605 | what is left of a leg after a blend has its length less the trim and its direction |
| PathBuild.ReadyAtOnce | src/viam/trajex/totg/path.cpp:583-611 | when two blends use up a leg, the first arc stops where the second starts, in its direction |
| PathBuild.EmitBlend | src/viam/trajex/totg/path.cpp:577-629 | a corner's straight piece and arc continue the path so far |
| PathBuild.BuildSegments | src/viam/trajex/totg/path.cpp:547-641 | it fails exactly when two neighbours are equal, and otherwise its segments all have positive length, tile the path from zero to its length, join in position everywhere and in direction at every arc, run from the first waypoint to the last, and pass every waypoint within the deviation; they are laid waypoint by waypoint, an arc that meets both legs at the largest admissible trim, after at most one straight piece, wherever there is such a trim, and one straight piece that stops at the waypoint everywhere else |
| PathBuild.BuiltHasSpans | src/viam/trajex/totg/path.cpp:720-746 | the starts of a built path's segments increase strictly from zero to below its length, which is what the path cursors need |
| PathBuild.CreatePath | src/viam/trajex/totg/path.cpp:287-648 | the whole construction: which options are refused, which waypoints coalescing keeps, greedily, and that the path is laid through those, with a blend at every one that can be blended |
| Rotations.RotateIsSandwich | src/viam/trajex/kinematics/chain.cpp:51-60 | the cheap form of rotation is the product q v q* for unit quaternions |
| Rotations.RotateMultiply | src/viam/trajex/kinematics/chain.cpp:42-60 | rotating by a product is rotating by one factor after the other |
| Rotations.RotateKeepsDot | src/viam/trajex/kinematics/chain.cpp:51-60 | rotation preserves dot products |
| Rotations.AxisConjugates | src/viam/trajex/kinematics/chain.cpp:61-66 | an axis rotation taken to a rotated frame is the rotation about the rotated axis |
| Chain.Build | src/viam/trajex/kinematics/chain.cpp:301-340 | a chain is refused exactly when it is empty or a joint has a zero quaternion or axis; otherwise each joint has its spec's kind and translation, a unit rotation and, where it moves, a unit axis, of which the spec's quaternion and direction are positive multiples |
| Chain.DenotesOnce | src/viam/trajex/kinematics/chain.cpp:301-340 | a spec denotes one joint at most, but for the axis that a fixed one does not have |
| Chain.ApplyCompose | src/viam/trajex/kinematics/chain.cpp:68-81 | a composed transform applies one transform after the other |
| Chain.FrameIsUnit | src/viam/trajex/kinematics/chain.cpp:108-144 | the running rotation stays a unit |
| Chain.JointTakes | src/viam/trajex/kinematics/chain.cpp:118-141 | a joint slides a point of its frame along its axis or turns it about the axis, then turns it by its origin rotation, then moves it by its translation |
| Chain.WalkReachesTheFrame | src/viam/trajex/kinematics/chain.cpp:108-144 | the walk's position is the frame's origin taken through every motion and origin transform in turn |
| Chain.MotionKeepsAxis | src/viam/trajex/kinematics/chain.cpp:99-103 | a captured axis is a unit, and the joint's own motion leaves it where it is |
| Chain.Workspace.UpdateChainState | src/viam/trajex/kinematics/chain.cpp:108-144 | from any earlier contents the workspace ends with the captures and the position of the walk, or is untouched when q has the wrong size |
| Chain.JointMovesTheRest | src/viam/trajex/kinematics/chain.cpp:108-144 | displacing one joint moves every frame from its own on by one rigid motion about its captured axis and position, and none before |
| Chain.JointMovesLaterCaptures | src/viam/trajex/kinematics/chain.cpp:90-95 | so the axes and positions captured after it turn and move by that motion, and the others not at all |
| ColumnChange.PointMoves | src/viam/trajex/kinematics/chain.cpp:90-95 | a joint displaced by e takes each later point by e times its rate along a slide, and about an axis by sin e times its rate and 1 - cos e times the axis crossed with that |
| ColumnChange.RotateKeepsCross | src/viam/trajex/kinematics/chain.cpp:51-60 | a rotation takes cross products to cross products |
| ColumnChange.ColumnDifference | src/viam/trajex/kinematics/chain.cpp:228-269 | displacing one joint by e changes every Jacobian column by exactly e, or sin e, times the derivative the acceleration pass uses, plus 1 - cos e times a second term |
| Chain.ColumnRateIsOnePass | src/viam/trajex/kinematics/chain.cpp:228-269 | the three accumulators give every Jacobian column's rate, for any mix and number of joints |
| Chain.FrameAcceleration | src/viam/trajex/kinematics/chain.cpp:235-271 | the one pass computes the double sum over joint pairs plus the Jacobian times the joint acceleration |
| Chain.FrameVelocity | src/viam/trajex/kinematics/chain.cpp:223-227 | the first pass computes the Jacobian times the joint velocity |
| Chain.ForwardKinematics | src/viam/trajex/kinematics/chain.cpp:193-272 | exact error conditions, and otherwise the frame's position, velocity and acceleration from the joints up to it only |
| Chain.Jacobian | src/viam/trajex/kinematics/chain.cpp:159-191 | one column per moving joint, zero angular rows for a translating one |
| WaypointUtils.NormInfMeaning | src/viam/trajex/totg/waypoint_utils.cpp:26 | the maximum norm is within a bound exactly when every component is |
| WaypointUtils.DistanceMeaning | src/viam/trajex/totg/waypoint_utils.cpp:26 | two waypoints are within a tolerance exactly when they are in every joint |
| WaypointUtils.SurvivorsExactly | src/viam/trajex/totg/waypoint_utils.cpp:22-29 | a waypoint survives exactly when it is further than the tolerance from the last survivor among those before it |
| WaypointUtils.ReplaceLast | src/viam/trajex/totg/waypoint_utils.cpp:31-38 | putting the destination last leaves neighbours different and reaches everything within twice the tolerance |
| WaypointUtils.Deduplicate | src/viam/trajex/totg/waypoint_utils.cpp:17-41 | what is left is the survivors, the last of several making way for the destination: the first waypoint and later ones in order, ending exactly at the destination if more than one survives, with no equal neighbours, and no waypoint further away than twice the tolerance |
| WaypointUtils.ReversalIsCusp | src/viam/trajex/totg/waypoint_utils.cpp:63-70 | a leg straight back is a cusp for every positive threshold |
| WaypointUtils.CuspExactly | src/viam/trajex/totg/waypoint_utils.cpp:63-70 | a waypoint is a cusp exactly when neither leg is empty and their dot product plus the product of their lengths is, in size, below the threshold times that product |
| WaypointUtils.GlueRestores | src/viam/trajex/totg/waypoint_utils.cpp:43-83 | gluing the pieces at the waypoints they share gives back the list |
| WaypointUtils.SegmentAtReversals | src/viam/trajex/totg/waypoint_utils.cpp:43-83 | the list is cut at its cusps and nowhere else, and gluing gives it back |

## Left out

- Floating point: rounding, overflow and NaN propagation beyond the unset acceleration; the ULP padding
  of the initial bracket, the sub-ULP exits of the bisections and the representability guard on a
  sliver segment are replaced by their meaning over the reals.
- The geometry, the two limit curves, the curve slope and the tangent comparison enter the integrator as
  functions of arc length with stated contracts (non-negative curves, at least one moving joint at every
  position, which `PathGeometry.UnitTangentMoves` proves of a path for small tolerances); `Limits` proves
  what the joint curves themselves are.
- The switching-point searches, their slope tests (Equations 38 to 42) and the strided scan of
  Equation 40 are functions: the integrator assumes that a point they report is not behind the cursor and
  within epsilon of both curves, the cache that each reports the first of a fixed set.
- SwitchingCache.SearchIsFirst: does not model that the extremum search accepts a point at the cursor and
  that it does not test the bound it is given (trajectory.cpp:530-532); both searches here are strictly
  ahead and within the bound.
- Integrator.Integrator.IntegrateForwardFrom: stops as `Degenerate` at a step of negative velocity, where
  the source goes on with it.
- Integrator.Integrator.IntegrateBackwardsFrom: the same.
- BackwardSolve.PathResidualEndsNegative: the tolerance's restriction is sufficient; the exact condition is
  `TurnsNegativeExactly`, in terms of the joints' ratios.
- The tool-speed limit and the vector arithmetic of its velocity limit; it is part of the abstract
  velocity curve.
- Termination of the integrator's own loops, which have no minimum progress; they run on a bound that
  can be any number, and every statement holds whatever the bound.
- Time-optimality of the result, and feasibility of the one acceleration that bridges a splice, which
  the source does not check either.
- Session.Session.Extend: construction is a partial function from waypoints to trajectories that returns
  only linked ones from rest to rest; `Integrator.FinishedIsBuilt` says that a finished run is one. After a
  terminal sample that could not be taken only further sampling is modelled, not a later extend.
- The waypoint store's internals: it is a sequence with append and truncate. Bit-exact row comparison is
  equality of reals.
- Session.Session.WholeRun: the samples' agreement with the active trajectory is stated while every
  pivot so far met the condition of `BranchAgreement`, since the source does not check it.
- The time cursor's own path cursor is represented by the position it was put at; `PathCursor` proves
  the hinted lookup.
- Path segments as the path cursor sees them have positive length, as `PathBuild.BuiltHasSpans`
  proves of every path that is built.
- Blend.BlendRoundsCorner: norms, cosines, sines and inverse cosines are functions with their
  mathematical contracts (`Blend.Faithful`); the circular segment's own checks of unit and
  perpendicular vectors then always pass.
- PathBuild.EmitBlend: a loop body of its own here, where the source has it inline.
- Chain.FrameAcceleration: the derivative of a Jacobian column is written out by the product rule
  from the closed-form rates of captured axes and positions. `ColumnChange.ColumnDifference` proves the
  exact finite difference it is the rate of; that sin e / e tends to one and (1 - cos e) / e to zero is not
  formalized.
- Trajectory.Cursor.GetSample: returns the phase state; the joint positions, velocities and accelerations
  of a sample are read off the path geometry at it, and `PathGeometry.SampledMotion` says what they are.
- The finiteness checks of options and joints, rank checks, `visit_joints`, and the builder's overloads.
- Serialization, replay, the planner, observers, the C interface, the Go bindings, the service adapters,
  benchmarks and plotting: they marshal data around the core.
