/** The per-step root solve of backward integration (trajectory.cpp, "Elaboration 1"): at the next
    point's geometry, find the velocity from which braking at exactly the minimum path acceleration
    lands on the current point. */
module BackwardSolve {
  import opened Reals
  import opened Limits
  import opened PathGeometry
  import Vectors

  /** The constant path acceleration from velocity x to velocity c over a distance ds, in the
      source's form. Where the mean velocity is zero the source divides by an infinite dt. */
  function Required(x: real, c: real, ds: real): real
    requires 0.0 < ds
  {
    if Midpoint(x, c) == 0.0 then 0.0
    else
      var dt := ds / Midpoint(x, c);
      assert dt != 0.0 by { assert dt * Midpoint(x, c) == ds; }
      (c - x) / dt
  }

  /** Required less the minimum acceleration at x; `Unbounded` is +infinity, where no joint moves. */
  function Residual(js: seq<Joint>, eps: real, x: real, c: real, ds: real): Limit
    requires 0.0 < ds
  {
    match SDdotMin(js, eps, x * x)
    case Unbounded => Unbounded
    case Bounded(m) => Bounded(Required(x, c, ds) - m)
  }

  /** The same residual as a function of the squared velocity. */
  function ResidualSq(js: seq<Joint>, eps: real, u: real, c: real, ds: real): Limit
    requires 0.0 < ds
  {
    match SDdotMin(js, eps, u)
    case Unbounded => Unbounded
    case Bounded(m) => Bounded((c * c - u) / (2.0 * ds) - m)
  }

  lemma RequiredIsQuadratic(x: real, c: real, ds: real)
    requires 0.0 < ds
    ensures Required(x, c, ds) == (c * c - x * x) / (2.0 * ds)
  {
    var m := (x + c) / 2.0;
    assert (c - x) * m == (c * c - x * x) / 2.0;
    if m == 0.0 {
      assert x == -c;
      assert c * c - x * x == 0.0;
    } else {
      var dt := ds / m;
      assert dt * m == ds;
      var q := (c - x) / dt;
      assert q * dt == c - x;
      assert q * (dt * m) == (q * dt) * m;
      assert q * ds == (c - x) * m;
      assert q * (2.0 * ds) == 2.0 * (q * ds);
      DivIs(c * c - x * x, 2.0 * ds, q);
    }
  }

  lemma ResidualOfSquare(js: seq<Joint>, eps: real, x: real, c: real, ds: real)
    requires 0.0 < ds
    ensures Residual(js, eps, x, c, ds) == ResidualSq(js, eps, x * x, c, ds)
  {
    RequiredIsQuadratic(x, c, ds);
  }

  predicate NonNeg(l: Limit) { l.Bounded? ==> 0.0 <= l.v }
  predicate NonPos(l: Limit) { l.Bounded? && l.v <= 0.0 }
  predicate EpsZero(l: Limit, eps: real) { l.Bounded? && Abs(l.v) <= eps }

  predicate Straddles(a: Limit, b: Limit) {
    (NonPos(a) && NonNeg(b)) || (NonNeg(a) && NonPos(b))
  }

  // ----- shape of the residual -----

  lemma AffineMix(b: real, r: real, u0: real, u1: real, u: real, t: real, l0: real, l1: real, l: real)
    requires u == t * u1 + (1.0 - t) * u0
    requires l0 == -b - r * u0 && l1 == -b - r * u1 && l == -b - r * u
    ensures l == t * l1 + (1.0 - t) * l0
  {
    assert r * u == t * (r * u1) + (1.0 - t) * (r * u0);
  }

  lemma MixMono(a0: real, b0: real, a1: real, b1: real, t: real)
    requires a0 <= b0 && a1 <= b1 && 0.0 <= t <= 1.0
    ensures t * a1 + (1.0 - t) * a0 <= t * b1 + (1.0 - t) * b0
  {
    var x, y := b1 - a1, b0 - a0;
    assert 0.0 <= t * x && 0.0 <= (1.0 - t) * y;
    assert t * b1 == t * a1 + t * x;
    assert (1.0 - t) * b0 == (1.0 - t) * a0 + (1.0 - t) * y;
  }

  /** The minimum acceleration is convex in the squared velocity. */
  lemma MinAccelerationConvex(js: seq<Joint>, eps: real, u0: real, u1: real, t: real)
    requires 0.0 <= t <= 1.0
    requires SDdotMin(js, eps, u0).Bounded? && SDdotMin(js, eps, u1).Bounded?
    ensures SDdotMin(js, eps, t * u1 + (1.0 - t) * u0).Bounded?
    ensures SDdotMin(js, eps, t * u1 + (1.0 - t) * u0).v <=
            t * SDdotMin(js, eps, u1).v + (1.0 - t) * SDdotMin(js, eps, u0).v
  {
    var u := t * u1 + (1.0 - t) * u0;
    SameFiniteness(js, eps, u0, u);
    var i := SettingJoint(js, eps, u);
    LowerBoundOf(js, eps, u0, i);
    LowerBoundOf(js, eps, u1, i);
    ConvexScalar(Budget(js[i]), Ratio(js[i]), u0, u1, u, t, SDdotMin(js, eps, u0).v, SDdotMin(js, eps, u1).v, SDdotMin(js, eps, u).v);
  }

  lemma ConvexScalar(b: real, r: real, u0: real, u1: real, u: real, t: real, m0: real, m1: real, m: real)
    requires 0.0 <= t <= 1.0 && u == t * u1 + (1.0 - t) * u0
    requires -b - r * u0 <= m0 && -b - r * u1 <= m1 && m == -b - r * u
    ensures m <= t * m1 + (1.0 - t) * m0
  {
    AffineMix(b, r, u0, u1, u, t, -b - r * u0, -b - r * u1, m);
    MixMono(-b - r * u0, m0, -b - r * u1, m1, t);
  }

  /** Whether a residual is finite does not depend on the velocity. */
  lemma {:induction false} SameFiniteness(js: seq<Joint>, eps: real, u: real, w: real)
    ensures SDdotMin(js, eps, u).Bounded? <==> SDdotMin(js, eps, w).Bounded?
  {
    if js != [] {
      SameFiniteness(js[..|js| - 1], eps, u, w);
    }
  }

  /** The residual is concave in the squared velocity. */
  lemma ResidualConcave(js: seq<Joint>, eps: real, u0: real, u1: real, t: real, c: real, ds: real)
    requires 0.0 < ds && 0.0 <= t <= 1.0
    requires ResidualSq(js, eps, u0, c, ds).Bounded? && ResidualSq(js, eps, u1, c, ds).Bounded?
    ensures ResidualSq(js, eps, t * u1 + (1.0 - t) * u0, c, ds).Bounded?
    ensures t * ResidualSq(js, eps, u1, c, ds).v + (1.0 - t) * ResidualSq(js, eps, u0, c, ds).v <=
            ResidualSq(js, eps, t * u1 + (1.0 - t) * u0, c, ds).v
  {
    MinAccelerationConvex(js, eps, u0, u1, t);
    var u := t * u1 + (1.0 - t) * u0;
    ConcaveScalar(c * c, u0, u1, u, 2.0 * ds, t,
                  SDdotMin(js, eps, u0).v, SDdotMin(js, eps, u1).v, SDdotMin(js, eps, u).v);
  }

  lemma ConcaveScalar(cc: real, u0: real, u1: real, u: real, k: real, t: real, m0: real, m1: real, m: real)
    requires 0.0 < k && u == t * u1 + (1.0 - t) * u0 && m <= t * m1 + (1.0 - t) * m0
    ensures t * ((cc - u1) / k - m1) + (1.0 - t) * ((cc - u0) / k - m0) <= (cc - u) / k - m
  {
    var q0, q1 := (cc - u0) / k, (cc - u1) / k;
    assert q0 * k == cc - u0 && q1 * k == cc - u1;
    var q := t * q1 + (1.0 - t) * q0;
    assert q * k == t * (q1 * k) + (1.0 - t) * (q0 * k);
    DivIs(cc - u, k, q);
    assert t * (q1 - m1) + (1.0 - t) * (q0 - m0) == q - (t * m1 + (1.0 - t) * m0);
  }

  /** From rest the step only ever needs braking, so the residual starts non-negative. */
  lemma ResidualAtRest(js: seq<Joint>, eps: real, c: real, ds: real)
    requires ValidLimits(js) && 0.0 < ds
    ensures NonNeg(ResidualSq(js, eps, 0.0, c, ds))
  {
    SDdotMinIsGreatest(js, eps, 0.0);
    var m := SDdotMin(js, eps, 0.0);
    if m.Bounded? {
      var i :| 0 <= i < |js| && Moving(js[i], eps) && LowerFrom(js[i], 0.0) == m.v;
      AffineForms(js[i], 0.0);
      BudgetNonNegative(js[i]);
      assert 0.0 <= c * c;
      DivGe(c * c - 0.0, 0.0, 2.0 * ds);
    }
  }

  /** The residual changes sign at most once, from positive to negative: once it is negative it
      stays negative, and once it is back at zero it stays non-positive unless it began at zero. */
  lemma SignChangesOnce(js: seq<Joint>, eps: real, u1: real, u2: real, c: real, ds: real)
    requires ValidLimits(js) && 0.0 < ds && 0.0 < u1 < u2
    requires ResidualSq(js, eps, u1, c, ds).Bounded?
    ensures ResidualSq(js, eps, u2, c, ds).Bounded?
    ensures ResidualSq(js, eps, u1, c, ds).v < 0.0 ==> ResidualSq(js, eps, u2, c, ds).v < 0.0
    ensures ResidualSq(js, eps, u1, c, ds).v == 0.0 ==> ResidualSq(js, eps, u2, c, ds).v <= 0.0
    ensures ResidualSq(js, eps, u1, c, ds).v == 0.0 && ResidualSq(js, eps, 0.0, c, ds) != Bounded(0.0) ==>
              ResidualSq(js, eps, u2, c, ds).v < 0.0
  {
    SameFiniteness(js, eps, u1, u2);
    SameFiniteness(js, eps, u1, 0.0);
    ResidualAtRest(js, eps, c, ds);
    var t := u1 / u2;
    assert t * u2 == u1;
    DivGe(u1, 0.0, u2);
    DivLe(u1, 1.0, u2);
    assert t * u2 + (1.0 - t) * 0.0 == u1;
    ResidualConcave(js, eps, 0.0, u2, t, c, ds);
    CrossScalar(ResidualSq(js, eps, 0.0, c, ds).v, ResidualSq(js, eps, u1, c, ds).v, ResidualSq(js, eps, u2, c, ds).v, t);
  }

  lemma CrossScalar(r0: real, r1: real, r2: real, t: real)
    requires 0.0 <= r0 && 0.0 <= t <= 1.0 && t * r2 + (1.0 - t) * r0 <= r1
    requires t != 0.0 && t != 1.0
    ensures r1 < 0.0 ==> r2 < 0.0
    ensures r1 == 0.0 ==> r2 <= 0.0
    ensures r1 == 0.0 && r0 != 0.0 ==> r2 < 0.0
  {
    assert 0.0 <= (1.0 - t) * r0;
    if 0.0 < r2 { MulPos(t, r2); }
    if 0.0 < r0 { MulPos(1.0 - t, r0); }
  }

  // ----- how fast the residual can change -----

  /** A bound on every moving joint's curvature ratio. */
  ghost function MaxRatio(js: seq<Joint>, eps: real): (r: real)
    ensures 0.0 <= r
    ensures forall i :: 0 <= i < |js| && Moving(js[i], eps) ==> Abs(Ratio(js[i])) <= r
  {
    if js == [] then 0.0
    else
      var last := js[|js| - 1];
      var front := js[..|js| - 1];
      var rest := MaxRatio(front, eps);
      assert forall i :: 0 <= i < |front| ==> js[i] == front[i];
      if Moving(last, eps) then Max(rest, Abs(Ratio(last))) else rest
  }

  lemma MinAccelerationRate(js: seq<Joint>, eps: real, u: real, w: real, d: real)
    requires SDdotMin(js, eps, u).Bounded? && SDdotMin(js, eps, w).Bounded? && d == Abs(u - w)
    ensures SDdotMin(js, eps, u).v - SDdotMin(js, eps, w).v <= MaxRatio(js, eps) * d
  {
    hide SDdotMin, MaxRatio, Budget, Ratio;
    var i := SettingJoint(js, eps, u);
    LowerBoundOf(js, eps, w, i);
    RateScalar(Budget(js[i]), Ratio(js[i]), MaxRatio(js, eps), u, w, d, SDdotMin(js, eps, u).v, SDdotMin(js, eps, w).v);
  }

  lemma RateScalar(b: real, r: real, k: real, u: real, w: real, d: real, mu: real, mw: real)
    requires Abs(r) <= k && d == Abs(u - w) && mu == -b - r * u && -b - r * w <= mw
    ensures mu - mw <= k * d
  {
    var e := w - u;
    assert r * w - r * u == r * e;
    AbsMul(r, e);
    MulMono(Abs(r), k, d);
  }

  /** The residual's rate of change in the velocity, over velocities no larger than h. */
  ghost function Rate(js: seq<Joint>, eps: real, ds: real, h: real): real
    requires 0.0 < ds
  {
    2.0 * h * (1.0 / (2.0 * ds) + MaxRatio(js, eps))
  }

  lemma ResidualRate(js: seq<Joint>, eps: real, x: real, y: real, d: real, c: real, ds: real, h: real)
    requires 0.0 < ds && Abs(x) <= h && Abs(y) <= h && d == Abs(x - y)
    requires Residual(js, eps, x, c, ds).Bounded? && Residual(js, eps, y, c, ds).Bounded?
    ensures Residual(js, eps, x, c, ds).v - Residual(js, eps, y, c, ds).v <= Rate(js, eps, ds, h) * d
  {
    hide SDdotMin, MaxRatio, Required;
    var w := Abs(y * y - x * x);
    MinAccelerationRate(js, eps, y * y, x * x, w);
    RequiredRate(x, y, w, c, ds);
    DivGe(1.0, 0.0, 2.0 * ds);
    SquareDifference(x, y, d, h);
    RateBound(1.0 / (2.0 * ds), MaxRatio(js, eps), w, h, d);
  }

  lemma RequiredRate(x: real, y: real, w: real, c: real, ds: real)
    requires 0.0 < ds && w == Abs(y * y - x * x)
    ensures Required(x, c, ds) - Required(y, c, ds) <= 1.0 / (2.0 * ds) * w
  {
    RequiredIsQuadratic(x, c, ds);
    RequiredIsQuadratic(y, c, ds);
    ScaledDifference(c * c, x * x, y * y, 2.0 * ds, w);
  }

  lemma RateBound(g: real, r: real, w: real, h: real, d: real)
    requires 0.0 <= g && 0.0 <= r && w <= 2.0 * h * d
    ensures g * w + r * w <= 2.0 * h * (g + r) * d
  {
    var k, z := g + r, 2.0 * h * d;
    assert g * w + r * w == w * k;
    MulMono(w, z, k);
    assert z * k == 2.0 * h * k * d;
  }

  lemma ScaledDifference(cc: real, xx: real, yy: real, k: real, w: real)
    requires 0.0 < k && w == Abs(yy - xx)
    ensures (cc - xx) / k - (cc - yy) / k <= 1.0 / k * w
  {
    var g := 1.0 / k;
    assert g * k == 1.0;
    DivIs(cc - xx, k, g * (cc - xx));
    DivIs(cc - yy, k, g * (cc - yy));
    DivGe(1.0, 0.0, k);
    var d := yy - xx;
    assert g * (cc - xx) - g * (cc - yy) == d * g;
    MulMono(d, w, g);
  }

  lemma SquareDifference(x: real, y: real, d: real, h: real)
    requires Abs(x) <= h && Abs(y) <= h && d == Abs(x - y)
    ensures Abs(y * y - x * x) <= 2.0 * h * d
  {
    var s, e := y + x, y - x;
    assert y * y - x * x == s * e;
    ScaledAbs(s, e, 2.0 * h, d);
  }

  lemma ScaledAbs(s: real, e: real, k: real, d: real)
    requires Abs(s) <= k && d == Abs(e)
    ensures Abs(s * e) <= k * d
  {
    AbsMul(s, e);
    MulMono(Abs(s), k, d);
  }

  // ----- the solver -----

  datatype SolveOutcome =
    | Root(sDot: real)
    | CeilingExceeded(step: real)
    | NeverTerminates  // the expansion loop repeats the same bracket for ever

  /** One round of bracket expansion, with the step already doubled. */
  function Widen(low: real, high: real, step: real): (real, real) {
    (Max(0.0, low - step), high + step)
  }

  /** The inputs on which the source's expansion loop spins: the Euler step left the velocity
      unchanged, so its doubled step stays zero, and the padded bracket does not straddle. */
  predicate Spins(js: seq<Joint>, eps: real, c: real, naive: real, ds: real)
    requires 0.0 < ds
  {
    naive == c && !EpsZero(Residual(js, eps, naive, c, ds), eps) &&
    !Straddles(Residual(js, eps, Max(0.0, c - eps), c, ds), Residual(js, eps, c + eps, c, ds))
  }

  datatype BracketOutcome = Straddling | PastCeiling(step: real) | Stationary

  function Doubled(step: real, rounds: nat): real {
    if rounds == 0 then step else 2.0 * Doubled(step, rounds - 1)
  }

  /** The bracket after so many rounds, in closed form: the interval between the two velocities, padded by eps
      and by their distance times 2 + 4 + ... + 2^rounds, and cut off at rest. */
  function BracketAfter(c: real, naive: real, eps: real, rounds: nat): (real, real) {
    var reach := eps + 2.0 * (Doubled(Abs(naive - c), rounds) - Abs(naive - c));
    (Max(0.0, Min(c, naive) - reach), Max(c, naive) + reach)
  }

  ghost predicate StraddlesAfter(js: seq<Joint>, eps: real, c: real, naive: real, ds: real, rounds: nat)
    requires 0.0 < ds
  {
    var (low, high) := BracketAfter(c, naive, eps, rounds);
    Straddles(Residual(js, eps, low, c, ds), Residual(js, eps, high, c, ds))
  }

  /** The first so many rounds all stay within twice the wall, and none before the last of them straddles. */
  ghost predicate Widens(js: seq<Joint>, eps: real, c: real, naive: real, ds: real, wall: real, rounds: nat)
    requires 0.0 < ds
  {
    (forall k: nat :: k < rounds ==> !StraddlesAfter(js, eps, c, naive, ds, k)) &&
    forall k: nat :: 0 < k <= rounds ==> BracketAfter(c, naive, eps, k).1 <= 2.0 * wall
  }

  /** The bracket is given up: the next round would pass twice the wall, and nothing has straddled. */
  ghost predicate GivesUpAfter(js: seq<Joint>, eps: real, c: real, naive: real, ds: real, wall: real, rounds: nat)
    requires 0.0 < ds
  {
    naive != c && Widens(js, eps, c, naive, ds, wall, rounds) && !StraddlesAfter(js, eps, c, naive, ds, rounds) &&
    2.0 * wall < BracketAfter(c, naive, eps, rounds + 1).1
  }

  ghost predicate GivesUp(js: seq<Joint>, eps: real, c: real, naive: real, ds: real, wall: real)
    requires 0.0 < ds
  {
    exists rounds: nat :: GivesUpAfter(js, eps, c, naive, ds, wall, rounds)
  }

  /** The bracket found: it straddles after so many rounds and no fewer. */
  ghost predicate FoundAfter(js: seq<Joint>, eps: real, c: real, naive: real, ds: real, wall: real, rounds: nat)
    requires 0.0 < ds
  {
    Widens(js, eps, c, naive, ds, wall, rounds) && StraddlesAfter(js, eps, c, naive, ds, rounds)
  }

  lemma FoundIsNotGivenUp(js: seq<Joint>, eps: real, c: real, naive: real, ds: real, wall: real, rounds: nat)
    requires 0.0 < ds && FoundAfter(js, eps, c, naive, ds, wall, rounds)
    ensures !GivesUp(js, eps, c, naive, ds, wall)
  {
    hide BracketAfter, StraddlesAfter;
    forall n: nat
      ensures !GivesUpAfter(js, eps, c, naive, ds, wall, n)
    {
      var next: nat := n + 1;
      assert n < rounds ==> BracketAfter(c, naive, eps, next).1 <= 2.0 * wall;
    }
  }

  /** One round of widening is one more round of the closed form. */
  lemma WidenIsNext(c: real, naive: real, eps: real, rounds: nat)
    ensures var (low, high) := BracketAfter(c, naive, eps, rounds);
            BracketAfter(c, naive, eps, rounds + 1) == Widen(low, high, Doubled(Abs(naive - c), rounds + 1))
    ensures Abs(naive - c) <= Doubled(Abs(naive - c), rounds) && (naive == c ==> Doubled(Abs(naive - c), rounds) == 0.0)
  {
    if 0 < rounds {
      WidenIsNext(c, naive, eps, rounds - 1);
    }
  }

  /** One more round, with this step, would take the bracket past twice the wall. */
  predicate PassesCeiling(low: real, high: real, step: real, wall: real) {
    0.0 < step && 2.0 * wall < Widen(low, high, step).1
  }

  /** How far a bracket that is given up reaches: below, as far as above; and above, past the wall but for the
      first step. */
  predicate ReachedOut(c: real, naive: real, eps: real, low: real, high: real, wall: real) {
    low == Max(0.0, c + naive - high) && wall + (c + eps) / 2.0 < high + Abs(naive - c)
  }

  lemma NextDoubled(step: real, rounds: nat)
    ensures Doubled(step, rounds + 1) == 2.0 * Doubled(step, rounds)
  {
  }

  lemma FirstBracket(c: real, naive: real, eps: real)
    ensures BracketAfter(c, naive, eps, 0) == (Max(0.0, Min(naive, c) - eps), Max(naive, c) + eps)
    ensures Doubled(Abs(naive - c), 0) == Abs(naive - c)
  {
  }

  lemma ReachesOut(c: real, naive: real, eps: real, wall: real, rounds: nat)
    requires 2.0 * wall < BracketAfter(c, naive, eps, rounds + 1).1
    ensures var (low, high) := BracketAfter(c, naive, eps, rounds); ReachedOut(c, naive, eps, low, high, wall)
  {
    WidenIsNext(c, naive, eps, rounds);
  }

  /** The expansion loop: geometric widening until the residuals straddle zero. */
  method ExpandBracket(js: seq<Joint>, eps: real, c: real, naive: real, ds: real, wall: real)
    returns (out: BracketOutcome, low: real, high: real)
    requires 0.0 < eps && 0.0 < ds
    ensures 0.0 <= low && (0.0 <= c ==> low <= high)
    ensures out.Straddling? <==> Straddles(Residual(js, eps, low, c, ds), Residual(js, eps, high, c, ds))
    ensures out.Stationary? <==>
            naive == c && !Straddles(Residual(js, eps, Max(0.0, c - eps), c, ds), Residual(js, eps, c + eps, c, ds))
    ensures out.PastCeiling? ==> PassesCeiling(low, high, out.step, wall) && ReachedOut(c, naive, eps, low, high, wall)
    ensures out.PastCeiling? <==> GivesUp(js, eps, c, naive, ds, wall)
    ensures !out.Stationary? ==>
              exists rounds: nat :: (low, high) == BracketAfter(c, naive, eps, rounds) && Widens(js, eps, c, naive, ds, wall, rounds)
  {
    hide Residual, Straddles, RoundsLeft, Doubled, BracketAfter, ReachedOut;
    FirstBracket(c, naive, eps);
    var step := naive - c;
    var other := naive - step;
    low := Max(0.0, Min(naive, other) - eps);
    high := Max(naive, other) + eps;
    step := Abs(step);
    ghost var step0, rounds: nat := step, 0;
    while !Straddles(Residual(js, eps, low, c, ds), Residual(js, eps, high, c, ds))
      invariant 0.0 <= low && (0.0 <= c ==> low <= high)
      invariant step0 <= step && (step0 == 0.0 ==> step == 0.0)
      invariant naive == c ==> step0 == 0.0 && low == Max(0.0, c - eps) && high == c + eps
      invariant step == Doubled(step0, rounds) && (low, high) == BracketAfter(c, naive, eps, rounds)
      invariant Widens(js, eps, c, naive, ds, wall, rounds)
      invariant naive != c ==> 0.0 < step0
      invariant step0 == Abs(naive - c)
      decreases if step0 == 0.0 then 0 else RoundsLeft(2.0 * wall - high, step0)
    {
      if step == 0.0 {
        // Doubling zero leaves the bracket as it was: see SpinningIsStationary.
        return Stationary, low, high;
      }
      step := 2.0 * step;
      var (newLow, newHigh) := Widen(low, high, step);
      WidenIsNext(c, naive, eps, rounds);
      NextDoubled(step0, rounds);
      if newHigh > 2.0 * wall {
        assert GivesUpAfter(js, eps, c, naive, ds, wall, rounds);
        ReachesOut(c, naive, eps, wall, rounds);
        return PastCeiling(step), low, high;
      }
      RoundsDecrease(2.0 * wall - high, 2.0 * wall - newHigh, step0);
      low, high, rounds := newLow, newHigh, rounds + 1;
    }
    FoundIsNotGivenUp(js, eps, c, naive, ds, wall, rounds);
    out := Straddling;
  }

  /** The bisection: halve a straddling bracket until a residual is within eps of zero. */
  method Bisect(js: seq<Joint>, eps: real, c: real, ds: real, low0: real, high0: real) returns (x: real)
    requires 0.0 < eps && 0.0 < ds
    requires Straddles(Residual(js, eps, low0, c, ds), Residual(js, eps, high0, c, ds))
    ensures EpsZero(Residual(js, eps, x, c, ds), eps)
    ensures low0 <= high0 ==> low0 <= x <= high0
  {
    hide Residual, Rate, HalvingsLeft;
    var low, high := low0, high0;
    var rLow, rHigh := Residual(js, eps, low, c, ds), Residual(js, eps, high, c, ds);
    if rLow.Bounded? {
      ResidualFinite(js, eps, low, high, c, ds);
    } else {
      ResidualFinite(js, eps, high, low, c, ds);
    }
    ghost var h, width := Max(Abs(low), Abs(high)), Abs(high - low);
    ghost var k := Rate(js, eps, ds, h);
    while true
      invariant Straddles(rLow, rHigh) && rLow.Bounded? && rHigh.Bounded?
      invariant rLow == Residual(js, eps, low, c, ds) && rHigh == Residual(js, eps, high, c, ds)
      invariant Abs(low) <= h && Abs(high) <= h && width == Abs(high - low)
      invariant low0 <= high0 ==> low0 <= low <= high <= high0
      decreases HalvingsLeft(k, width, eps)
    {
      var mid := Midpoint(low, high);
      if mid == low || mid == high {
        break;
      }
      var rMid := Residual(js, eps, mid, c, ds);
      ResidualFinite(js, eps, low, mid, c, ds);
      if EpsZero(rMid, eps) {
        return mid;
      }
      WideBracket(js, eps, low, mid, high, c, ds, h, width);
      HalvingDecreases(k, width, eps);
      if Straddles(rLow, rMid) {
        high, rHigh := mid, rMid;
      } else {
        low, rLow := mid, rMid;
      }
      width := width / 2.0;
    }
    x := if Abs(rLow.v) <= Abs(rHigh.v) then low else high;
  }

  /** The Euler velocity if its residual is within eps of zero, and otherwise a velocity in the first bracket that
      straddles whose residual is. */
  ghost predicate Solved(js: seq<Joint>, eps: real, c: real, naive: real, ds: real, wall: real, x: real)
    requires 0.0 < ds
  {
    EpsZero(Residual(js, eps, x, c, ds), eps) &&
    if EpsZero(Residual(js, eps, naive, c, ds), eps) then x == naive
    else exists rounds: nat ::
           FoundAfter(js, eps, c, naive, ds, wall, rounds) && (0.0 <= c ==> WithinBracket(c, naive, eps, rounds, x))
  }

  ghost predicate WithinBracket(c: real, naive: real, eps: real, rounds: nat, x: real) {
    BracketAfter(c, naive, eps, rounds).0 <= x <= BracketAfter(c, naive, eps, rounds).1
  }

  /** The whole solve. It returns a velocity whose residual is within eps of zero, gives up at the
      velocity ceiling with a bracket that does not straddle, or spins. */
  method SolveBackwardStep(js: seq<Joint>, eps: real, c: real, naive: real, ds: real, wall: real)
    returns (out: SolveOutcome, low: real, high: real)
    requires 0.0 < eps && 0.0 < ds
    ensures out.Root? ==> EpsZero(Residual(js, eps, out.sDot, c, ds), eps)
    ensures out.Root? && 0.0 <= c ==> out.sDot == naive || 0.0 <= out.sDot
    ensures out.NeverTerminates? <==> Spins(js, eps, c, naive, ds)
    ensures out.Root? ==> Solved(js, eps, c, naive, ds, wall, out.sDot)
    ensures out.CeilingExceeded? <==>
            !EpsZero(Residual(js, eps, naive, c, ds), eps) && GivesUp(js, eps, c, naive, ds, wall)
    ensures out.CeilingExceeded? ==>
              0.0 <= low && !Straddles(Residual(js, eps, low, c, ds), Residual(js, eps, high, c, ds)) &&
              PassesCeiling(low, high, out.step, wall) && ReachedOut(c, naive, eps, low, high, wall)
  {
    if EpsZero(Residual(js, eps, naive, c, ds), eps) {
      return Root(naive), naive, naive;
    }
    var bracket;
    bracket, low, high := ExpandBracket(js, eps, c, naive, ds, wall);
    match bracket
    case PastCeiling(step) => out := CeilingExceeded(step);
    case Stationary => out := NeverTerminates;
    case Straddling =>
      var x := Bisect(js, eps, c, ds, low, high);
      ghost var rounds: nat :| (low, high) == BracketAfter(c, naive, eps, rounds) && Widens(js, eps, c, naive, ds, wall, rounds);
      assert FoundAfter(js, eps, c, naive, ds, wall, rounds);
      out := Root(x);
  }

  ghost function RoundsLeft(room: real, step0: real): int
    requires 0.0 < step0
  {
    (room / step0).Floor + 1
  }

  lemma RoundsDecrease(before: real, after: real, step0: real)
    requires 0.0 < step0 && 0.0 <= after <= before - 2.0 * step0
    ensures 0 <= RoundsLeft(after, step0) < RoundsLeft(before, step0)
  {
    var p, q := before / step0, after / step0;
    assert p * step0 == before && q * step0 == after;
    DivGe(after, 0.0, step0);
    DivGe(before, q + 2.0, step0);
    assert (q + 2.0) * step0 == q * step0 + 2.0 * step0;
  }

  ghost function HalvingsLeft(k: real, width: real, eps: real): int
    requires 0.0 < eps
  {
    (k * width / eps).Floor
  }

  lemma HalvingDecreases(k: real, width: real, eps: real)
    requires 0.0 < eps && 2.0 * eps < k * width
    ensures 0 <= HalvingsLeft(k, width / 2.0, eps) < HalvingsLeft(k, width, eps)
  {
    var y := k * width / eps;
    assert y * eps == k * width;
    DivGe(k * width, 2.0, eps);
    assert k * (width / 2.0) == k * width / 2.0;
    DivIs(k * (width / 2.0), eps, y / 2.0);
  }

  /** While the midpoint residual is not within eps of zero the bracket is still wide. */
  lemma WideBracket(js: seq<Joint>, eps: real, low: real, mid: real, high: real, c: real, ds: real, h: real, width: real)
    requires 0.0 < ds && 0.0 < eps && mid == Midpoint(low, high) && Abs(low) <= h && Abs(high) <= h
    requires width == Abs(high - low)
    requires Residual(js, eps, low, c, ds).Bounded? && Residual(js, eps, mid, c, ds).Bounded? && Residual(js, eps, high, c, ds).Bounded?
    requires Straddles(Residual(js, eps, low, c, ds), Residual(js, eps, high, c, ds)) && !EpsZero(Residual(js, eps, mid, c, ds), eps)
    ensures 2.0 * eps < Rate(js, eps, ds, h) * width
  {
    hide Residual, Rate;
    var k, d := Rate(js, eps, ds, h), width / 2.0;
    ResidualRate(js, eps, low, mid, d, c, ds, h);
    ResidualRate(js, eps, mid, low, d, c, ds, h);
    ResidualRate(js, eps, high, mid, d, c, ds, h);
    ResidualRate(js, eps, mid, high, d, c, ds, h);
    assert k * width == 2.0 * (k * d);
  }

  lemma ResidualFinite(js: seq<Joint>, eps: real, x: real, y: real, c: real, ds: real)
    requires 0.0 < ds && Residual(js, eps, x, c, ds).Bounded?
    ensures Residual(js, eps, y, c, ds).Bounded?
  {
    SameFiniteness(js, eps, x * x, y * y);
  }

  // ----- what the outcomes mean -----

  /** With a zero Euler step, one round of expansion leaves the bracket as it was, so the loop
      repeats for ever. */
  lemma SpinningIsStationary(low: real, high: real, step: real)
    requires 0.0 <= low
    ensures Widen(low, high, 2.0 * step) == (low, high) <==> step == 0.0
  {
  }

  /** A bracket that does not straddle settles the question on one side: either no velocity up to
      its top needs as little as the minimum acceleration, or every velocity from its bottom up
      needs less. So a solve that gives up at the ceiling has no root in (0, high], or none at or
      above low. */
  lemma NoStraddleNoRoot(js: seq<Joint>, eps: real, low: real, high: real, c: real, ds: real)
    requires ValidLimits(js) && 0.0 < ds && 0.0 <= low <= high
    requires !Straddles(Residual(js, eps, low, c, ds), Residual(js, eps, high, c, ds))
    ensures (forall x :: 0.0 < x <= high ==> !NonPos(Residual(js, eps, x, c, ds))) ||
            (forall x :: low <= x ==> !NonNeg(Residual(js, eps, x, c, ds)))
  {
    hide Residual;
    if !NonPos(Residual(js, eps, high, c, ds)) {
      forall x | 0.0 < x <= high
        ensures !NonPos(Residual(js, eps, x, c, ds))
      {
        if x < high && NonPos(Residual(js, eps, x, c, ds)) {
          StaysNonPositive(js, eps, x, high, c, ds);
        }
      }
    } else {
      forall x | low <= x
        ensures !NonNeg(Residual(js, eps, x, c, ds))
      {
        RestIsNonNegative(js, eps, c, ds);
        if low < x {
          StaysNonPositive(js, eps, low, x, c, ds);
        }
      }
    }
  }

  lemma RestIsNonNegative(js: seq<Joint>, eps: real, c: real, ds: real)
    requires ValidLimits(js) && 0.0 < ds
    ensures NonNeg(Residual(js, eps, 0.0, c, ds))
  {
    ResidualOfSquare(js, eps, 0.0, c, ds);
    ResidualAtRest(js, eps, c, ds);
  }

  /** The single sign change, in terms of the velocity itself. */
  lemma StaysNonPositive(js: seq<Joint>, eps: real, x: real, y: real, c: real, ds: real)
    requires ValidLimits(js) && 0.0 < ds && 0.0 < x < y
    requires NonPos(Residual(js, eps, x, c, ds))
    ensures NonPos(Residual(js, eps, y, c, ds))
    ensures !NonNeg(Residual(js, eps, x, c, ds)) ==> !NonNeg(Residual(js, eps, y, c, ds))
  {
    hide Residual, ResidualSq;
    ResidualOfSquare(js, eps, x, c, ds);
    ResidualOfSquare(js, eps, y, c, ds);
    SquareLt(x, y);
    SquareLt(0.0, x);
    var u, w := x * x, y * y;
    assert 0.0 < u < w;
    SignChangesOnce(js, eps, u, w, c, ds);
  }

  /** At the velocity the solve returns, the constant acceleration that joins it to the current
      point is the minimum acceleration to within eps, and where the bounds there cross by no more than
      a slack it keeps every moving joint within its limit to (eps + slack)*|q'|. */
  lemma BrakingMeetsLimits(js: seq<Joint>, eps: real, x: real, u: real, c: real, ds: real, slack: real)
    requires 0.0 < eps && 0.0 < ds && 0.0 <= slack && u == x * x && EpsZero(Residual(js, eps, x, c, ds), eps)
    requires !Crossed(SDdotMin(js, eps, u), SDdotMax(js, eps, u), slack)
    ensures SDdotMin(js, eps, u).Bounded? && EpsEq(Required(x, c, ds), SDdotMin(js, eps, u).v, eps)
    ensures forall i :: 0 <= i < |js| && Moving(js[i], eps) ==>
                          NearlyMeetsLimit(js[i], u, Required(x, c, ds), eps + slack)
  {
    hide Required, NearlyMeetsLimit, LowerFrom, UpperFrom, SDdotMin, SDdotMax;
    SDdotMinIsGreatest(js, eps, u);
    SDdotMaxIsLeast(js, eps, u);
    forall i | 0 <= i < |js| && Moving(js[i], eps)
      ensures NearlyMeetsLimit(js[i], u, Required(x, c, ds), eps + slack)
    {
      NearBounds(js[i], u, Required(x, c, ds), eps + slack);
    }
  }

  // ----- how far the bounds cross just above the curve -----

  lemma MaxAccelerationRate(js: seq<Joint>, eps: real, u: real, w: real, d: real)
    requires SDdotMax(js, eps, u).Bounded? && SDdotMax(js, eps, w).Bounded? && d == Abs(u - w)
    ensures SDdotMax(js, eps, u).v - SDdotMax(js, eps, w).v <= MaxRatio(js, eps) * d
  {
    hide SDdotMax, MaxRatio, Budget, Ratio;
    var i := UpperSettingJoint(js, eps, w);
    UpperBoundOf(js, eps, u, i);
    RateScalar(-Budget(js[i]), Ratio(js[i]), MaxRatio(js, eps), u, w, d, Budget(js[i]) - Ratio(js[i]) * u, SDdotMax(js, eps, w).v);
  }

  /** How far the bounds can cross at a velocity within eps of the acceleration curve. */
  ghost function CrossSlack(js: seq<Joint>, eps: real, v: real): real {
    eps * (v * (v + 4.0 * MaxRatio(js, eps)))
  }

  /** Every joint the curve sees as stationary keeps its curvature term within its limit to
      2*eps*v*|q''|. */
  ghost predicate StationaryNearlyFits(js: seq<Joint>, eps: real, v: real) {
    forall i: nat :: StationaryActive(js, eps, i) ==> Abs(js[i].ddq) * (v * v) <= js[i].aMax + Abs(js[i].ddq) * (2.0 * (eps * v))
  }

  lemma SlackIsNonNegative(js: seq<Joint>, eps: real, v: real)
    requires 0.0 <= eps && 0.0 <= v
    ensures 0.0 <= CrossSlack(js, eps, v)
  {
    hide MaxRatio;
    var k := v + 4.0 * MaxRatio(js, eps);
    MulMono(0.0, v, k);
    MulMono(0.0, v * k, eps);
  }

  /** The largest velocity no further than eps below v, and none below zero. */
  function Backed(v: real, eps: real): real {
    Max(0.0, v - eps)
  }

  lemma BackedSquare(v: real, eps: real, w: real)
    requires 0.0 <= v && 0.0 <= eps && w == Backed(v, eps)
    ensures 0.0 <= w <= v && 0.0 <= v * v - w * w <= 2.0 * (eps * v)
  {
    SquareMono(w, v);
    MulMono(v - w, eps, v + w);
    MulMono(v + w, 2.0 * v, eps);
    assert (v - w) * (v + w) == v * v - w * w;
    assert 2.0 * v * eps == 2.0 * (eps * v);
  }

  /** At most eps above the acceleration curve the bounds cross by no more than the slack, and every
      stationary joint nearly fits. */
  lemma CrossingNearCurve(js: seq<Joint>, eps: real, v: real, l: Limit, curve: Limit)
    requires ValidLimits(js) && 0.0 <= eps && 0.0 <= v && BelowAll(js, eps, l)
    requires curve.Bounded? == l.Bounded? && (curve.Bounded? ==> 0.0 <= curve.v && curve.v * curve.v == l.v)
    requires UnderBy(v, curve, eps)
    ensures !Crossed(SDdotMin(js, eps, v * v), SDdotMax(js, eps, v * v), CrossSlack(js, eps, v))
    ensures StationaryNearlyFits(js, eps, v)
  {
    hide SDdotMin, SDdotMax, BelowAll, CrossSlack, Moving, NearZero;
    var w := Backed(v, eps);
    BackedSquare(v, eps, w);
    assert Under(w * w, l) by {
      if curve.Bounded? { SquareMono(w, curve.v); }
    }
    Vectors.SquareIsPositive(w);
    CrossesNear(js, eps, v, v * v, w * w, l);
    UnderCurveStationary(js, eps, w * w, l);
    forall i: nat | StationaryActive(js, eps, i)
      ensures Abs(js[i].ddq) * (v * v) <= js[i].aMax + Abs(js[i].ddq) * (2.0 * (eps * v))
    {
      Raised(Abs(js[i].ddq), v * v, w * w, 2.0 * (eps * v));
    }
  }

  lemma Raised(k: real, u: real, w: real, d: real)
    requires 0.0 <= k && u - w <= d
    ensures k * u <= k * w + k * d
  {
    MulMono(u - w, d, k);
    assert (u - w) * k == k * u - k * w;
  }

  lemma CrossesNear(js: seq<Joint>, eps: real, v: real, u: real, u0: real, l: Limit)
    requires ValidLimits(js) && 0.0 <= eps && u == v * v && 0.0 <= u0 <= u && BelowAll(js, eps, l) && Under(u0, l)
    requires u - u0 <= 2.0 * (eps * v)
    ensures !Crossed(SDdotMin(js, eps, u), SDdotMax(js, eps, u), CrossSlack(js, eps, v))
  {
    hide SDdotMin, SDdotMax, MaxRatio, BelowAll;
    UnderCurveCrossing(js, eps, u0, l);
    if SDdotMin(js, eps, u).Bounded? && SDdotMax(js, eps, u).Bounded? {
      SameFiniteness(js, eps, u, u0);
      SameFinitenessMax(js, eps, u, u0);
      var d := u - u0;
      MinAccelerationRate(js, eps, u, u0, d);
      MaxAccelerationRate(js, eps, u0, u, d);
      SlackSum(eps, v, u, u0, d, MaxRatio(js, eps),
               SDdotMin(js, eps, u).v, SDdotMin(js, eps, u0).v, SDdotMax(js, eps, u).v, SDdotMax(js, eps, u0).v);
    }
  }

  lemma {:induction false} SameFinitenessMax(js: seq<Joint>, eps: real, u: real, w: real)
    ensures SDdotMax(js, eps, u).Bounded? <==> SDdotMax(js, eps, w).Bounded?
  {
    if js != [] {
      SameFinitenessMax(js[..|js| - 1], eps, u, w);
    }
  }

  lemma SlackSum(eps: real, v: real, u: real, u0: real, d: real, k: real, lo: real, lo0: real, hi: real, hi0: real)
    requires 0.0 <= eps && 0.0 <= k && u == v * v && d == u - u0 && 0.0 <= d <= 2.0 * (eps * v)
    requires lo - lo0 <= k * d && hi0 - hi <= k * d && lo0 <= hi0 + eps * u0
    ensures lo <= hi + eps * (v * (v + 4.0 * k))
  {
    MulMono(u0, u, eps);
    MulMono(d, 2.0 * (eps * v), k);
    assert v * (v + 4.0 * k) == u + 4.0 * (v * k);
    assert eps * (u + 4.0 * (v * k)) == eps * u + 4.0 * (eps * (v * k));
    assert 2.0 * (eps * v) * k == 2.0 * (eps * (v * k));
  }

  // ----- where the residual ends -----

  ghost predicate Negative(js: seq<Joint>, eps: real, u: real, c: real, ds: real)
    requires 0.0 < ds
  {
    ResidualSq(js, eps, u, c, ds).Bounded? && ResidualSq(js, eps, u, c, ds).v < 0.0
  }

  /** The step is short enough for joint i's curvature ratio. */
  ghost predicate ShortFor(js: seq<Joint>, eps: real, i: nat, ds: real) {
    i < |js| && Moving(js[i], eps) && Mul(Ratio(js[i]), 2.0 * ds) < 1.0
  }

  /** A squared velocity at which such a joint alone already puts the residual below zero. */
  ghost predicate Beyond(js: seq<Joint>, eps: real, i: nat, u: real, c: real, ds: real)
    requires ShortFor(js, eps, i, ds)
  {
    c * c + Mul(Budget(js[i]), 2.0 * ds) < Mul(u, 1.0 - Mul(Ratio(js[i]), 2.0 * ds))
  }

  lemma NegativeScalar(cc: real, b: real, r: real, k: real, u: real, m: real)
    requires 0.0 < k && -b - r * u <= m && cc + Mul(b, k) < Mul(u, 1.0 - Mul(r, k))
    ensures (cc - u) / k - m < 0.0
  {
    var q := (cc - u) / k;
    assert q * k == cc - u;
    var x := b + r * u;
    assert x * k == b * k + u * (r * k) by {
      assert r * u * k == u * (r * k);
    }
    assert u * (1.0 - r * k) == u - u * (r * k);
    assert (q + x) * k == q * k + x * k;
    if 0.0 <= q + x {
      MulMono(0.0, q + x, k);
    }
  }

  lemma NegativeBeyond(js: seq<Joint>, eps: real, i: nat, u: real, c: real, ds: real)
    requires 0.0 < ds && ShortFor(js, eps, i, ds) && Beyond(js, eps, i, u, c, ds)
    ensures Negative(js, eps, u, c, ds)
  {
    LowerBoundOf(js, eps, u, i);
    hide SDdotMin, Budget, Ratio;
    NegativeScalar(c * c, Budget(js[i]), Ratio(js[i]), 2.0 * ds, u, SDdotMin(js, eps, u).v);
  }

  lemma NotNegativeScalar(cc: real, b: real, r: real, k: real, u: real)
    requires 0.0 < k && 0.0 <= b && 0.0 <= u && 0.0 <= cc && 1.0 <= Mul(r, k)
    ensures 0.0 <= (cc - u) / k - (-b - r * u)
  {
    var q := (cc - u) / k;
    assert q * k == cc - u;
    var x := b + r * u;
    MulMono(1.0, r * k, u);
    assert r * u * k == r * k * u;
    assert x * k == b * k + r * u * k;
    MulMono(0.0, b, k);
    assert (q + x) * k == q * k + x * k;
    if q + x < 0.0 {
      MulPos(-(q + x), k);
    }
  }

  /** For any joints: the residual turns negative somewhere exactly when the step is short enough for
      some moving joint. */
  lemma TurnsNegativeExactly(js: seq<Joint>, eps: real, c: real, ds: real)
    requires 0.0 < ds && ValidLimits(js)
    ensures (exists u :: 0.0 <= u && Negative(js, eps, u, c, ds)) <==> exists i: nat :: ShortFor(js, eps, i, ds)
  {
    hide Budget, Ratio, SDdotMin, ResidualSq;
    if i: nat :| ShortFor(js, eps, i, ds) {
      BudgetNonNegative(js[i]);
      Vectors.SquareIsPositive(c);
      var u := FarEnough(c * c, Budget(js[i]), Ratio(js[i]), 2.0 * ds);
      NegativeBeyond(js, eps, i, u, c, ds);
    } else {
      forall u | 0.0 <= u
        ensures !Negative(js, eps, u, c, ds)
      {
        NeverNegative(js, eps, u, c, ds);
      }
    }
  }

  lemma FarEnough(cc: real, b: real, r: real, k: real) returns (u: real)
    requires 0.0 <= cc && 0.0 <= b && 0.0 < k && Mul(r, k) < 1.0
    ensures 0.0 <= u && cc + Mul(b, k) < Mul(u, 1.0 - Mul(r, k))
  {
    var d := 1.0 - r * k;
    var x := cc + b * k + 1.0;
    MulMono(0.0, b, k);
    u := x / d;
    assert u * d == x;
    DivGe(x, 0.0, d);
  }

  lemma NeverNegative(js: seq<Joint>, eps: real, u: real, c: real, ds: real)
    requires 0.0 < ds && ValidLimits(js) && 0.0 <= u && forall i: nat :: !ShortFor(js, eps, i, ds)
    ensures !Negative(js, eps, u, c, ds)
  {
    hide Budget, Ratio, SDdotMin;
    if SDdotMin(js, eps, u).Bounded? {
      var i := SettingJoint(js, eps, u);
      assert !ShortFor(js, eps, i, ds);
      BudgetNonNegative(js[i]);
      Vectors.SquareIsPositive(c);
      NotNegativeScalar(c * c, Budget(js[i]), Ratio(js[i]), 2.0 * ds, u);
    }
  }

  /** The tolerance is small enough that the joints below it cannot hold the residual up: what they
      take from the unit tangent and from its right angle with the curvature leaves a moving joint that
      the step is short enough for. */
  ghost predicate FinelyFiltered(js: seq<Joint>, eps: real, ds: real) {
    0.0 <= eps && eps * StillCurvature(js, eps) * (2.0 * ds) < 1.0 - |js| as real * (eps * eps)
  }

  lemma ShortScalar(r: real, sq: real, dot: real, still: real, k: real)
    requires 0.0 < k && 0.0 < sq && Mul(r, sq) <= dot && dot <= still && Mul(still, k) < sq
    ensures Mul(r, k) < 1.0
  {
    MulMono(r * sq, still, k);
    assert (r * k) * sq == r * sq * k;
    assert still * k == Mul(still, k);
    if 1.0 <= r * k {
      MulMono(1.0, r * k, sq);
    }
  }

  /** On a path the residual always ends negative: some moving joint puts it below zero from an explicit
      squared velocity on. With exact zero tests that joint's ratio is not positive, whatever the
      step, so the bound is its budget over the step and the velocity to brake to. */
  lemma PathResidualEndsNegative(js: seq<Joint>, eps: real, c: real, ds: real) returns (i: nat)
    requires 0.0 < ds && OnPath(js) && FinelyFiltered(js, eps, ds)
    ensures ShortFor(js, eps, i, ds)
    ensures forall u :: Beyond(js, eps, i, u, c, ds) ==> Negative(js, eps, u, c, ds)
    ensures eps == 0.0 ==>
              Ratio(js[i]) <= 0.0 &&
              forall u :: 0.0 <= u && c * c + Mul(Budget(js[i]), 2.0 * ds) < u ==> Negative(js, eps, u, c, ds)
  {
    hide Budget, Ratio, MovingSq, MovingDot, StillCurvature, Negative, Mul;
    i := MovingRatio(js, eps, ds);
    forall u | Beyond(js, eps, i, u, c, ds)
      ensures Negative(js, eps, u, c, ds)
    {
      NegativeBeyond(js, eps, i, u, c, ds);
    }
    if eps == 0.0 {
      forall u | 0.0 <= u && c * c + Mul(Budget(js[i]), 2.0 * ds) < u
        ensures Negative(js, eps, u, c, ds)
      {
        FallingRatio(Ratio(js[i]), 2.0 * ds, u);
        NegativeBeyond(js, eps, i, u, c, ds);
      }
    }
  }

  lemma FallingRatio(r: real, k: real, u: real)
    requires r <= 0.0 && 0.0 < k && 0.0 <= u
    ensures u <= Mul(u, 1.0 - Mul(r, k))
  {
    MulMono(r, 0.0, k);
    MulMono(1.0, 1.0 - r * k, u);
  }

  lemma MovingRatio(js: seq<Joint>, eps: real, ds: real) returns (i: nat)
    requires 0.0 < ds && OnPath(js) && FinelyFiltered(js, eps, ds)
    ensures ShortFor(js, eps, i, ds) && (eps == 0.0 ==> Ratio(js[i]) <= 0.0)
  {
    hide Ratio, MovingSq, MovingDot, StillCurvature, Vectors.Dot;
    MovingShare(js, eps);
    var k, still := 2.0 * ds, Mul(eps, StillCurvature(js, eps));
    NonNegativeCurvature(js, eps);
    MulMono(0.0, eps, StillCurvature(js, eps));
    MulMono(0.0, still, k);
    assert Mul(still, k) < MovingSq(js, eps) && MovingDot(js, eps) <= still;
    i := LeastRatio(js, eps);
    hide Mul;
    ShortScalar(Ratio(js[i]), MovingSq(js, eps), MovingDot(js, eps), still, k);
    if eps == 0.0 && 0.0 < Ratio(js[i]) {
      PositiveProduct(Ratio(js[i]), MovingSq(js, eps));
      NoProduct(StillCurvature(js, eps));
    }
  }

  lemma PositiveProduct(a: real, b: real)
    requires 0.0 < a && 0.0 < b
    ensures 0.0 < Mul(a, b)
  {
    MulPos(a, b);
  }

  lemma NoProduct(a: real)
    ensures Mul(0.0, a) == 0.0
  {
  }

  /** So there is always a bracket for the bisection: from rest to any velocity past that bound. */
  lemma PathHasBracket(js: seq<Joint>, eps: real, c: real, ds: real, high: real) returns (i: nat)
    requires 0.0 < ds && ValidLimits(js) && OnPath(js) && FinelyFiltered(js, eps, ds)
    ensures ShortFor(js, eps, i, ds)
    ensures Beyond(js, eps, i, high * high, c, ds) ==>
              Straddles(Residual(js, eps, 0.0, c, ds), Residual(js, eps, high, c, ds))
  {
    hide Residual, ResidualSq, OnPath, FinelyFiltered;
    i := PathResidualEndsNegative(js, eps, c, ds);
    ResidualOfSquare(js, eps, high, c, ds);
    RestIsNonNegative(js, eps, c, ds);
  }

  // ----- when giving up is right -----

  /** No velocity up to a limit needs as little as the minimum acceleration exactly when the residual at the limit
      is still positive. */
  lemma NoneUpToExactly(js: seq<Joint>, eps: real, c: real, ds: real, wall: real)
    requires ValidLimits(js) && 0.0 < ds && 0.0 < wall
    ensures (forall x :: 0.0 < x <= wall ==> !NonPos(Residual(js, eps, x, c, ds))) <==> !NonPos(Residual(js, eps, wall, c, ds))
  {
    hide Residual;
    if !NonPos(Residual(js, eps, wall, c, ds)) {
      forall x | 0.0 < x <= wall
        ensures !NonPos(Residual(js, eps, x, c, ds))
      {
        if x < wall && NonPos(Residual(js, eps, x, c, ds)) {
          StaysNonPositive(js, eps, x, wall, c, ds);
        }
      }
    }
  }

  /** On a path there is always a velocity that needs less. So the source's claim that none lives above the ceiling
      is right exactly when the residual there is not positive any more; for instance past the bound of
      a joint's budget. */
  lemma NoneAboveExactly(js: seq<Joint>, eps: real, c: real, ds: real, ceiling: real)
    requires ValidLimits(js) && 0.0 < ds && 0.0 < ceiling && OnPath(js) && FinelyFiltered(js, eps, ds)
    ensures NonPos(Residual(js, eps, ceiling, c, ds)) <==> forall x :: ceiling <= x ==> NonPos(Residual(js, eps, x, c, ds))
    ensures !NonPos(Residual(js, eps, ceiling, c, ds)) ==>
              exists x :: ceiling < x && Straddles(Residual(js, eps, ceiling, c, ds), Residual(js, eps, x, c, ds))
  {
    hide Residual, ResidualSq, OnPath, FinelyFiltered;
    if NonPos(Residual(js, eps, ceiling, c, ds)) {
      forall x | ceiling <= x
        ensures NonPos(Residual(js, eps, x, c, ds))
      {
        if ceiling < x {
          StaysNonPositive(js, eps, ceiling, x, c, ds);
        }
      }
    } else {
      var x := NegativeAbove(js, eps, c, ds, ceiling);
      assert Straddles(Residual(js, eps, ceiling, c, ds), Residual(js, eps, x, c, ds));
    }
  }

  lemma NegativeAbove(js: seq<Joint>, eps: real, c: real, ds: real, floor: real) returns (x: real)
    requires ValidLimits(js) && 0.0 < ds && 0.0 < floor && OnPath(js) && FinelyFiltered(js, eps, ds)
    ensures floor < x && NonPos(Residual(js, eps, x, c, ds))
  {
    hide Budget, Ratio, OnPath, FinelyFiltered;
    var i := PathResidualEndsNegative(js, eps, c, ds);
    BudgetNonNegative(js[i]);
    Vectors.SquareIsPositive(c);
    var u := FarEnough(c * c, Budget(js[i]), Ratio(js[i]), 2.0 * ds);
    x := floor + u + 1.0;
    var w: real :| w == x * x;
    assert u <= w by { LargeSquare(x, u, w); }
    BeyondGrows(js, eps, i, u, w, c, ds);
    hide ResidualSq, Residual;
    ResidualOfSquare(js, eps, x, c, ds);
  }

  lemma LargeSquare(x: real, u: real, w: real)
    requires 0.0 <= u && u + 1.0 <= x && w == x * x
    ensures u <= w
  {
    MulMono(1.0, x, x);
  }

  lemma BeyondGrows(js: seq<Joint>, eps: real, i: nat, u: real, w: real, c: real, ds: real)
    requires ShortFor(js, eps, i, ds) && Beyond(js, eps, i, u, c, ds) && u <= w
    ensures Beyond(js, eps, i, w, c, ds)
  {
    hide Budget, Ratio;
    MulMono(u, w, 1.0 - Mul(Ratio(js[i]), 2.0 * ds));
  }

  /** What giving up leaves behind. Either the residual at the bracket's top is positive, and then no velocity up to
      there would have done; or it is not, and then any that would lie below the bracket, which the
      bisection would have found from rest. It is never the second once the bracket has come down to
      rest. */
  lemma GivenUp(js: seq<Joint>, eps: real, c: real, ds: real, low: real, high: real)
    requires ValidLimits(js) && 0.0 < ds && 0.0 <= low <= high
    requires !Straddles(Residual(js, eps, low, c, ds), Residual(js, eps, high, c, ds))
    ensures !NonPos(Residual(js, eps, high, c, ds)) ==> forall x :: 0.0 < x <= high ==> !NonPos(Residual(js, eps, x, c, ds))
    ensures NonPos(Residual(js, eps, high, c, ds)) ==>
              0.0 < low && Straddles(Residual(js, eps, 0.0, c, ds), Residual(js, eps, low, c, ds)) &&
              forall x :: low <= x ==> !NonNeg(Residual(js, eps, x, c, ds))
  {
    hide Residual;
    RestIsNonNegative(js, eps, c, ds);
    if 0.0 < high {
      NoneUpToExactly(js, eps, c, ds, high);
    }
    if NonPos(Residual(js, eps, high, c, ds)) {
      forall x | low <= x
        ensures !NonNeg(Residual(js, eps, x, c, ds))
      {
        if low < x {
          StaysNonPositive(js, eps, low, x, c, ds);
        }
      }
    }
  }

  /** A check before the solve under which giving up is right: where neither the current velocity nor the Euler
      one is above about half the wall, the bracket given up has come down to rest, and no velocity up to
      its top would have done. Its top lies past the wall by half the current velocity, less the first
      step. */
  lemma GivesUpRightly(js: seq<Joint>, eps: real, c: real, naive: real, ds: real, wall: real, low: real, high: real)
    requires ValidLimits(js) && 0.0 < ds && 0.0 <= low <= high && ReachedOut(c, naive, eps, low, high, wall)
    requires !Straddles(Residual(js, eps, low, c, ds), Residual(js, eps, high, c, ds))
    requires 2.0 * Max(c, naive) <= wall + (c + eps) / 2.0
    ensures low == 0.0 && forall x :: 0.0 < x <= high ==> !NonPos(Residual(js, eps, x, c, ds))
    ensures Abs(naive - c) <= (c + eps) / 2.0 ==> wall < high
  {
    hide Residual;
    GivenUp(js, eps, c, ds, low, high);
  }

  /** The root can lie above the ceiling: on a straight path no velocity limit bounds it, only the joint's
      acceleration. */
  lemma RootAboveCeiling()
    ensures var js := [Joint(1.0, 0.0, 1.0, 100.0)];
            OnPath(js) && ValidLimits(js) && IsVelocityLimit(js, 0.1, 1, Bounded(1.0), 0) &&
            !NonPos(Residual(js, 0.1, 2.0, 1.0, 1.0)) && NonPos(Residual(js, 0.1, 15.0, 1.0, 1.0))
  {
    var js := [Joint(1.0, 0.0, 1.0, 100.0)];
    assert Tangent(js) == [1.0] && Curvature(js) == [0.0];
    assert Tangent(js)[1..] == [] && Curvature(js)[1..] == [];
    assert OnPath(js) by {
      Vectors.FrontProduct(Tangent(js), Tangent(js), 1.0, 1.0);
      Vectors.FrontProduct(Tangent(js), Curvature(js), 1.0, 0.0);
    }
    RequiredIsQuadratic(2.0, 1.0, 1.0);
    RequiredIsQuadratic(15.0, 1.0, 1.0);
    DivIs(1.0, 1.0, 1.0);
    DivIs(100.0, 1.0, 100.0);
    DivIs(0.0, 1.0, 0.0);
    forall u: real
      ensures SDdotMin(js, 0.1, u) == Bounded(-100.0)
    {
      AffineForms(js[0], u);
      assert js[..0] == [];
    }
  }

  // ----- the residual is not monotone -----

  /** A circular path through the tangent (0.96, -0.28), with a tolerance of 0.3 that leaves only the
      first joint moving. */
  function Arc(): seq<Joint> { [Joint(0.96, 1.68, 1.0, 0.96), Joint(-0.28, 5.76, 1.0, 1.0)] }

  lemma ArcResidual(x: real)
    ensures Residual(Arc(), 0.3, x, 1.0, 1.0) == Bounded(1.5 + 1.25 * (x * x))
  {
    var js := Arc();
    RequiredIsQuadratic(x, 1.0, 1.0);
    DivIs(1.68, 0.96, 1.75);
    DivIs(0.96, 0.96, 1.0);
    AffineForms(js[0], x * x);
    assert js[..1] == [js[0]] && js[..1][..0] == [];
    assert Moving(js[0], 0.3) && !Moving(js[1], 0.3);
    assert SDdotMin(js[..1], 0.3, x * x) == Bounded(-1.0 - 1.75 * (x * x));
  }

  /** The source's comment calls the residual monotone. It need not fall at all, on joints a path
      supplies: it rises without bound, so there is no root to find, and a step whose Euler velocity
      equals the current one spins. */
  lemma ResidualCanRise()
    ensures OnPath(Arc()) && ValidLimits(Arc())
    ensures forall x :: !NonPos(Residual(Arc(), 0.3, x, 1.0, 1.0))
    ensures Spins(Arc(), 0.3, 1.0, 1.0, 1.0)
  {
    PairOnPath(Arc()[0], Arc()[1]);
    hide Residual, OnPath;
    forall x
      ensures !NonPos(Residual(Arc(), 0.3, x, 1.0, 1.0))
    {
      ArcResidual(x);
      SquareMono(0.0, Abs(x));
      assert Abs(x) * Abs(x) == x * x;
    }
    ArcResidual(1.0);
  }

  /** The condition under which the residual never rises: among the joints that set the minimum
      acceleration at rest, one has a curvature ratio that the step is short enough for. */
  ghost predicate FallsFromRest(js: seq<Joint>, eps: real, ds: real) {
    exists i :: 0 <= i < |js| && Moving(js[i], eps) &&
                SDdotMin(js, eps, 0.0) == Bounded(-Budget(js[i])) && Ratio(js[i]) * (2.0 * ds) <= 1.0
  }

  ghost predicate NeverRises(js: seq<Joint>, eps: real, c: real, ds: real)
    requires 0.0 < ds
  {
    forall u1, u2 :: 0.0 <= u1 < u2 && ResidualSq(js, eps, u1, c, ds).Bounded? && ResidualSq(js, eps, u2, c, ds).Bounded? ==>
                       ResidualSq(js, eps, u2, c, ds).v <= ResidualSq(js, eps, u1, c, ds).v
  }

  /** The quadratic term over the step's double length, as a quotient of its own. */
  function Energy(cc: real, u: real, k: real): real
    requires 0.0 < k
  {
    (cc - u) / k
  }

  lemma EnergyIs(cc: real, u: real, k: real, e: real)
    requires 0.0 < k && e * k == 1.0
    ensures Energy(cc, u, k) == Energy(cc, 0.0, k) - e * u
  {
    DivIs(cc - u, k, e * cc - e * u);
    DivIs(cc - 0.0, k, e * cc);
  }

  lemma ResidualIs(js: seq<Joint>, eps: real, u: real, c: real, ds: real) returns (k: real, e: real, cc: real)
    requires 0.0 < ds && SDdotMin(js, eps, 0.0).Bounded?
    ensures k == 2.0 * ds && 0.0 < k && e * k == 1.0 && 0.0 < e
    ensures ResidualSq(js, eps, u, c, ds).Bounded? && ResidualSq(js, eps, 0.0, c, ds).Bounded?
    ensures SDdotMin(js, eps, u).Bounded?
    ensures ResidualSq(js, eps, 0.0, c, ds).v == Energy(cc, 0.0, k) - SDdotMin(js, eps, 0.0).v
    ensures ResidualSq(js, eps, u, c, ds).v == Energy(cc, 0.0, k) - e * u - SDdotMin(js, eps, u).v
  {
    k, cc := 2.0 * ds, c * c;
    SameFiniteness(js, eps, u, 0.0);
    e := 1.0 / k;
    assert e * k == 1.0;
    DivGe(1.0, 0.0, k);
    EnergyIs(cc, u, k, e);
  }

  lemma RestingBound(j: Joint)
    requires j.dq != 0.0
    ensures LowerFrom(j, 0.0) == -Budget(j)
  {
    AffineForms(j, 0.0);
  }

  lemma SlopeOrder(r: real, k: real, e: real)
    requires 0.0 < k && e * k == 1.0
    ensures r * k <= 1.0 <==> r <= e
  {
    if r <= e {
      MulMono(r, e, k);
    } else {
      MulPos(r - e, k);
      assert (r - e) * k == r * k - e * k;
    }
  }

  /** Under the condition, no velocity has a larger residual than rest. */
  lemma HighestAtRest(js: seq<Joint>, eps: real, u: real, c: real, ds: real)
    requires 0.0 < ds && 0.0 <= u && FallsFromRest(js, eps, ds)
    ensures ResidualSq(js, eps, u, c, ds).Bounded? && ResidualSq(js, eps, 0.0, c, ds).Bounded?
    ensures ResidualSq(js, eps, u, c, ds).v <= ResidualSq(js, eps, 0.0, c, ds).v
  {
    var i :| 0 <= i < |js| && Moving(js[i], eps) &&
             SDdotMin(js, eps, 0.0) == Bounded(-Budget(js[i])) && Ratio(js[i]) * (2.0 * ds) <= 1.0;
    hide ResidualSq, SDdotMin, Energy;
    var k, e, cc := ResidualIs(js, eps, u, c, ds);
    LowerBoundOf(js, eps, u, i);
    SlopeOrder(Ratio(js[i]), k, e);
    MulMono(Ratio(js[i]), e, u);
  }

  lemma FallsBetween(r0: real, r1: real, r2: real, t: real)
    requires 0.0 <= t <= 1.0 && r2 <= r0 && t * r2 + (1.0 - t) * r0 <= r1
    ensures r2 <= r1
  {
    MulMono(r2, r0, 1.0 - t);
  }

  lemma FallsFrom(js: seq<Joint>, eps: real, u1: real, u2: real, c: real, ds: real)
    requires 0.0 < ds && FallsFromRest(js, eps, ds) && 0.0 <= u1 < u2
    ensures ResidualSq(js, eps, u1, c, ds).Bounded? && ResidualSq(js, eps, u2, c, ds).Bounded?
    ensures ResidualSq(js, eps, u2, c, ds).v <= ResidualSq(js, eps, u1, c, ds).v
  {
    hide FallsFromRest, ResidualSq;
    HighestAtRest(js, eps, u1, c, ds);
    HighestAtRest(js, eps, u2, c, ds);
    var t := u1 / u2;
    assert t * u2 == u1;
    DivGe(u1, 0.0, u2);
    DivLe(u1, 1.0, u2);
    assert t * u2 + (1.0 - t) * 0.0 == u1;
    ResidualConcave(js, eps, 0.0, u2, t, c, ds);
    FallsBetween(ResidualSq(js, eps, 0.0, c, ds).v, ResidualSq(js, eps, u1, c, ds).v, ResidualSq(js, eps, u2, c, ds).v, t);
  }

  /** A joint's bound lies below the line of slope -e through m0. */
  ghost predicate BelowLine(b: real, r: real, e: real, m0: real, u: real) {
    -b - r * u < m0 - e * u
  }

  /** How far from rest every joint's bound stays below the line through the minimum at rest. */
  lemma {:induction false} RisesNearRest(js: seq<Joint>, eps: real, e: real, m0: real, n: nat) returns (u0: real)
    requires n <= |js| && 0.0 < e
    requires forall i :: 0 <= i < n && Moving(js[i], eps) ==>
                           -Budget(js[i]) <= m0 && (-Budget(js[i]) == m0 ==> e < Ratio(js[i]))
    ensures 0.0 < u0
    ensures forall i, u :: 0 <= i < n && Moving(js[i], eps) && 0.0 < u <= u0 ==> BelowLine(Budget(js[i]), Ratio(js[i]), e, m0, u)
  {
    hide BelowLine;
    if n == 0 {
      return 1.0;
    }
    var rest := RisesNearRest(js, eps, e, m0, n - 1);
    if !Moving(js[n - 1], eps) {
      return rest;
    }
    var here := JointRoom(Budget(js[n - 1]), Ratio(js[n - 1]), e, m0);
    u0 := Min(rest, here);
  }

  lemma JointRoom(b: real, r: real, e: real, m0: real) returns (u0: real)
    requires 0.0 < e && -b <= m0 && (-b == m0 ==> e < r)
    ensures 0.0 < u0 && forall u :: 0.0 < u <= u0 ==> BelowLine(b, r, e, m0, u)
  {
    var gap, size := m0 + b, Abs(r);
    var w := e + size + 1.0;
    u0 := if gap == 0.0 then 1.0 else gap / w;
    DivGe(gap, 0.0, w);
    assert gap != 0.0 ==> u0 * w == gap;
    assert gap != 0.0 ==> u0 != 0.0;
    forall u | 0.0 < u <= u0
      ensures BelowLine(b, r, e, m0, u)
    {
      RoomAt(b, r, e, m0, gap, size, w, u, u0);
    }
  }

  lemma RoomAt(b: real, r: real, e: real, m0: real, gap: real, size: real, w: real, u: real, u0: real)
    requires 0.0 < e && gap == m0 + b && w == e + size + 1.0 && r <= size && -r <= size && 0.0 < u <= u0
    requires if gap == 0.0 then e < r else u0 * w == gap
    ensures BelowLine(b, r, e, m0, u)
  {
    if gap == 0.0 {
      MulPos(r - e, u);
      assert (r - e) * u == r * u - e * u;
    } else {
      MulMono(u, u0, w);
      MulMono(e - r, e + size, u);
      assert (e - r) * u == e * u - r * u;
      assert u * w == (e + size) * u + u;
    }
  }

  lemma RisesSomewhere(js: seq<Joint>, eps: real, c: real, ds: real)
    requires 0.0 < ds && SDdotMin(js, eps, 0.0).Bounded? && !FallsFromRest(js, eps, ds)
    ensures !NeverRises(js, eps, c, ds)
  {
    hide ResidualSq, SDdotMin, Energy, BelowLine;
    SDdotMinIsGreatest(js, eps, 0.0);
    var m0 := SDdotMin(js, eps, 0.0).v;
    var k, e, cc := ResidualIs(js, eps, 0.0, c, ds);
    forall i | 0 <= i < |js| && Moving(js[i], eps)
      ensures -Budget(js[i]) <= m0 && (-Budget(js[i]) == m0 ==> e < Ratio(js[i]))
    {
      RestingBound(js[i]);
      SlopeOrder(Ratio(js[i]), k, e);
    }
    var u := RisesNearRest(js, eps, e, m0, |js|);
    RisesAt(js, eps, c, ds, u, e, k);
  }

  lemma RisesAt(js: seq<Joint>, eps: real, c: real, ds: real, u: real, e: real, k: real)
    requires 0.0 < ds && SDdotMin(js, eps, 0.0).Bounded? && 0.0 < u && k == 2.0 * ds && e * k == 1.0
    requires forall i :: 0 <= i < |js| && Moving(js[i], eps) ==>
                           BelowLine(Budget(js[i]), Ratio(js[i]), e, SDdotMin(js, eps, 0.0).v, u)
    ensures !NeverRises(js, eps, c, ds)
  {
    hide ResidualSq, SDdotMin, Energy;
    var k1, e1, cc := ResidualIs(js, eps, u, c, ds);
    DivIs(1.0, k, e);
    DivIs(1.0, k, e1);
    var i := SettingJoint(js, eps, u);
    assert SDdotMin(js, eps, u).v < SDdotMin(js, eps, 0.0).v - e * u;
    assert ResidualSq(js, eps, u, c, ds).v > ResidualSq(js, eps, 0.0, c, ds).v;
  }

  /** Exactly when the residual is monotone, as the source's comment has it: it never rises over the
      non-negative velocities if and only if the condition at rest holds. */
  lemma ResidualFallsExactly(js: seq<Joint>, eps: real, c: real, ds: real)
    requires 0.0 < ds && SDdotMin(js, eps, 0.0).Bounded?
    ensures NeverRises(js, eps, c, ds) <==> FallsFromRest(js, eps, ds)
  {
    hide ResidualSq, FallsFromRest;
    if FallsFromRest(js, eps, ds) {
      forall u1, u2 | 0.0 <= u1 < u2
        ensures ResidualSq(js, eps, u1, c, ds).Bounded? && ResidualSq(js, eps, u2, c, ds).Bounded?
        ensures ResidualSq(js, eps, u2, c, ds).v <= ResidualSq(js, eps, u1, c, ds).v
      {
        FallsFrom(js, eps, u1, u2, c, ds);
      }
    } else {
      RisesSomewhere(js, eps, c, ds);
    }
  }
}
