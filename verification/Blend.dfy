/** Circular blends at path corners (path.cpp, `try_create_blend`): the curvature and deviation limits
    an arc keeps, and how it meets the two legs. */
module Blend {
  import opened Reals
  import opened Vectors

  // ----- the elementary functions -----

  /** The mathematical library the source calls: the Euclidean norm and trigonometry. */
  datatype Maths = Maths(norm: Vec -> real, cos: real -> real, sin: real -> real, acos: real -> real)

  ghost predicate NormIsRoot(m: Maths, v: Vec) {
    0.0 <= m.norm(v) && m.norm(v) * m.norm(v) == Dot(v, v)
  }

  ghost predicate OnUnitCircle(m: Maths, t: real) {
    m.cos(t) * m.cos(t) + m.sin(t) * m.sin(t) == 1.0
  }

  ghost predicate AddsAngles(m: Maths, s: real, t: real) {
    m.cos(s + t) == m.cos(s) * m.cos(t) - m.sin(s) * m.sin(t) &&
    m.sin(s + t) == m.cos(s) * m.sin(t) + m.sin(s) * m.cos(t)
  }

  /** acos returns an angle strictly between zero and a half turn, so its half and quarter are in the
      first quadrant. */
  ghost predicate InvertsCosine(m: Maths, d: real) {
    -1.0 < d < 1.0 ==>
      var angle := m.acos(d);
      0.0 < angle && m.cos(angle) == d &&
      0.0 < m.cos(angle / 2.0) && 0.0 < m.sin(angle / 2.0) &&
      0.0 < m.cos(angle / 2.0 / 2.0) && 0.0 < m.sin(angle / 2.0 / 2.0)
  }

  ghost predicate Faithful(m: Maths) {
    m.cos(0.0) == 1.0 && m.sin(0.0) == 0.0 &&
    (forall v :: NormIsRoot(m, v)) &&
    (forall t :: OnUnitCircle(m, t)) &&
    (forall s, t :: AddsAngles(m, s, t)) &&
    forall d :: InvertsCosine(m, d)
  }

  function Tan(m: Maths, t: real): real {
    if m.cos(t) == 0.0 then 0.0 else m.sin(t) / m.cos(t)
  }

  lemma NormIs(m: Maths, v: Vec, n: real)
    requires Faithful(m) && 0.0 <= n && n * n == Dot(v, v)
    ensures m.norm(v) == n
  {
    assert NormIsRoot(m, v);
    SquareMono(n, m.norm(v));
    SquareMono(m.norm(v), n);
  }

  function Normalized(m: Maths, v: Vec): (r: Vec)
    ensures |r| == |v|
  {
    if m.norm(v) == 0.0 then v else Scale(1.0 / m.norm(v), v)
  }

  lemma NormalizedIsUnit(m: Maths, v: Vec)
    requires Faithful(m) && 0.0 < m.norm(v)
    ensures Dot(Normalized(m, v), Normalized(m, v)) == 1.0
  {
    var n, e := m.norm(v), 1.0 / m.norm(v);
    assert NormIsRoot(m, v);
    var r := Normalized(m, v);
    DotScale(e, v, v);
    DotScale(e, v, r);
    DotSymmetric(v, r);
    UnitArithmetic(n, e, Dot(v, v), Dot(v, r), Dot(r, r));
  }

  lemma UnitArithmetic(n: real, e: real, vv: real, vr: real, rr: real)
    requires 0.0 < n && e == 1.0 / n && n * n == vv && vr == e * vv && rr == e * vr
    ensures rr == 1.0
  {
    assert e * n == 1.0;
    assert vr == (e * n) * n;
    assert e * vr == e * n;
  }

  /** Cauchy and Schwarz for unit vectors, with equality only for equal ones. */
  lemma UnitDot(u: Vec, w: Vec)
    requires |u| == |w| && Dot(u, u) == 1.0 && Dot(w, w) == 1.0
    ensures -1.0 <= Dot(u, w) <= 1.0 && (Dot(u, w) == 1.0 <==> u == w)
  {
    var minus, plus := Sub(w, u), Add(w, u);
    hide Dot;
    SquareOfCombination(minus, 1.0, w, -1.0, u);
    DotNonNegative(minus);
    if u != w {
      ChordIsPositive(u, w);
    }
    SquareOfCombination(plus, 1.0, w, 1.0, u);
    DotSymmetric(u, w);
    DotNonNegative(plus);
  }

  // ----- the angle of a corner -----

  /** The functions of a corner's angle that a blend uses: its cosine and sine, those of its half, and
      the tangents of its half and quarter. */
  datatype Angles = Angles(cosine: real, sine: real, c: real, s: real, tanHalf: real, tanQuarter: real)

  function AnglesOf(m: Maths, angle: real): Angles {
    var half := angle / 2.0;
    Angles(m.cos(angle), m.sin(angle), m.cos(half), m.sin(half), Tan(m, half), Tan(m, half / 2.0))
  }

  ghost predicate Acute(a: Angles) {
    0.0 < a.c && 0.0 < a.s && 0.0 < a.sine && 0.0 < a.tanHalf && 0.0 < a.tanQuarter
  }

  /** How they are related. */
  ghost predicate Related(a: Angles) {
    a.c * a.c + a.s * a.s == 1.0 &&
    a.cosine == a.c * a.c - a.s * a.s && a.sine == 2.0 * a.s * a.c &&
    a.tanHalf * a.c == a.s && a.tanQuarter * (1.0 + a.c) == a.s
  }

  lemma CornerAngles(m: Maths, d: real)
    requires Faithful(m) && -1.0 < d < 1.0
    ensures var angle := m.acos(d);
            var a := AnglesOf(m, angle);
            0.0 < angle && a.cosine == d && Acute(a) && Related(a)
  {
    var angle := m.acos(d);
    var a, half := AnglesOf(m, angle), angle / 2.0;
    assert InvertsCosine(m, d);
    hide Tan, Faithful;
    assert a.cosine == d;
    Halved(m, angle);
    Halved(m, half);
    hide InvertsCosine;
    QuarterTangent(m.cos(half / 2.0), m.sin(half / 2.0), Tan(m, half / 2.0), a.c, a.s);
    MulPos(a.s, a.c);
  }

  lemma Halved(m: Maths, angle: real)
    requires Faithful(m) && 0.0 < m.cos(angle / 2.0) && 0.0 < m.sin(angle / 2.0)
    ensures var c, s, t := m.cos(angle / 2.0), m.sin(angle / 2.0), Tan(m, angle / 2.0);
            c * c + s * s == 1.0 && m.cos(angle) == c * c - s * s && m.sin(angle) == 2.0 * s * c &&
            0.0 < t && t * c == s
  {
    var half := angle / 2.0;
    assert AddsAngles(m, half, half) && OnUnitCircle(m, half);
    assert half + half == angle;
    Quotient(m.sin(half), m.cos(half));
  }

  lemma Quotient(a: real, b: real)
    requires 0.0 < a && 0.0 < b
    ensures 0.0 < a / b && (a / b) * b == a
  {
  }

  lemma QuarterTangent(cq: real, sq: real, t: real, c: real, s: real)
    requires cq * cq + sq * sq == 1.0 && t * cq == sq && c == cq * cq - sq * sq && s == 2.0 * sq * cq
    ensures t * (1.0 + c) == s
  {
    assert 1.0 + c == 2.0 * (cq * cq);
    assert t * (2.0 * (cq * cq)) == 2.0 * ((t * cq) * cq);
  }

  /** The identities the geometry rests on. */
  lemma Identities(a: Angles)
    requires Acute(a) && Related(a)
    ensures 1.0 - a.cosine == 2.0 * (a.s * a.s)
    ensures a.cosine * a.cosine + a.sine * a.sine == 1.0
    ensures 1.0 - a.cosine == a.tanHalf * a.sine
    ensures a.s * a.tanQuarter == 1.0 - a.c
  {
    var p, q := a.c * a.c, a.s * a.s;
    assert a.sine * a.sine == 4.0 * (p * q);
    assert a.tanHalf * a.sine == 2.0 * (a.s * (a.tanHalf * a.c));
    assert (a.s * a.tanQuarter) * (1.0 + a.c) == q;
    assert (1.0 - a.c) * (1.0 + a.c) == q;
    DivIs(q, 1.0 + a.c, a.s * a.tanQuarter);
    DivIs(q, 1.0 + a.c, 1.0 - a.c);
  }

  lemma UnitCircle(a: Angles)
    requires Acute(a) && Related(a)
    ensures a.cosine * a.cosine + a.sine * a.sine == 1.0
  {
    Identities(a);
  }

  // ----- the blend -----

  datatype Options = Options(maxBlendDeviation: real, maxLinearDeviation: real, minBlendCurvature: real, maxBlendCurvature: real)

  ghost predicate CurvatureRange(opts: Options) {
    0.0 < opts.minBlendCurvature <= opts.maxBlendCurvature
  }

  /** `segment::circular`: x points from the center to the start of the arc, y along the tangent
      there. */
  datatype Arc = Arc(center: Vec, x: Vec, y: Vec, radius: real, angle: real)

  datatype Geometry = Geometry(arc: Arc, trim: real, takesHalfIncoming: bool, takesHalfOutgoing: bool)

  /** The two legs at a waypoint: their lengths, their directions, and the cosine of the angle between
      those. */
  datatype Corner = Corner(incoming: real, outgoing: real, u: Vec, w: Vec, dot: real)

  function CornerOf(m: Maths, current: Vec, corner: Vec, next: Vec): (k: Corner)
    requires |current| == |corner| == |next|
    ensures |k.u| == |k.w| == |corner|
  {
    var incoming, outgoing := Sub(corner, current), Sub(next, corner);
    var u, w := Normalized(m, incoming), Normalized(m, outgoing);
    Corner(m.norm(incoming), m.norm(outgoing), u, w, Max(-1.0, Min(1.0, Dot(u, w))))
  }

  /** The trim before the lower curvature limit caps it. */
  function NaturalTrim(opts: Options, k: Corner, tanQuarter: real): real {
    var fromSegments := Min(k.incoming / 2.0, k.outgoing / 2.0);
    if fromSegments * tanQuarter <= opts.maxBlendDeviation || tanQuarter == 0.0 then fromSegments
    else opts.maxBlendDeviation / tanQuarter
  }

  /** The trim whose arc has the smallest curvature allowed. */
  function CurvatureCap(opts: Options, tanHalf: real): real
    requires CurvatureRange(opts)
  {
    tanHalf / opts.minBlendCurvature
  }

  /** The curvature of the natural trim exceeds the upper limit. */
  predicate TooSharp(opts: Options, k: Corner, a: Angles) {
    a.tanHalf > opts.maxBlendCurvature * NaturalTrim(opts, k, a.tanQuarter)
  }

  /** The radius of the arc of a given trim. */
  function Radius(trim: real, a: Angles): real
    requires Acute(a)
  {
    trim / a.tanHalf
  }

  /** The arc of a given radius and trim at a corner between unit directions u and w. */
  function CornerArc(m: Maths, corner: Vec, u: Vec, w: Vec, trim: real, radius: real, angle: real): (arc: Arc)
    requires |corner| == |u| == |w|
    requires m.cos(angle / 2.0) != 0.0
    ensures arc.radius == radius && arc.angle == angle && arc.y == u && |arc.x| == |arc.center| == |u|
  {
    var bisectorUnit := Normalized(m, Sub(w, u));
    var centerOffset := radius / m.cos(angle / 2.0);
    var center := Add(corner, Scale(centerOffset, bisectorUnit));
    var blendStart := Sub(corner, Scale(trim, u));
    var raw := Sub(blendStart, center);
    var x := Sub(raw, Scale(Dot(raw, u), u));
    Arc(center, Normalized(m, x), u, radius, angle)
  }

  function TryCreateBlend(m: Maths, opts: Options, current: Vec, corner: Vec, next: Vec): Option<Geometry>
    requires Faithful(m) && CurvatureRange(opts)
    requires |current| == |corner| == |next|
  {
    hide Faithful, Related;
    if opts.maxBlendDeviation <= 0.0 then None else
    var k := CornerOf(m, current, corner, next);
    if k.incoming <= 0.0 || k.outgoing <= 0.0 || k.u == k.w || k.dot == 1.0 || k.dot == -1.0 then None else
    var angle := m.acos(k.dot);
    var a := AnglesOf(m, angle);
    CornerIsOpen(m, current, corner, next);
    if TooSharp(opts, k, a) then None else
    var trim := Min(NaturalTrim(opts, k, a.tanQuarter), CurvatureCap(opts, a.tanHalf));
    var arc := CornerArc(m, corner, k.u, k.w, trim, Radius(trim, a), angle);
    Some(Geometry(arc, trim, trim == k.incoming / 2.0, trim == k.outgoing / 2.0))
  }

  lemma CornerIsOpen(m: Maths, current: Vec, corner: Vec, next: Vec)
    requires Faithful(m) && |current| == |corner| == |next|
    ensures var k := CornerOf(m, current, corner, next);
            k.dot == 1.0 || k.dot == -1.0 ||
            (-1.0 < k.dot < 1.0 && 0.0 < m.acos(k.dot) && Acute(AnglesOf(m, m.acos(k.dot))) &&
             AnglesOf(m, m.acos(k.dot)).cosine == k.dot && Related(AnglesOf(m, m.acos(k.dot))) &&
             m.cos(m.acos(k.dot) / 2.0) != 0.0)
  {
    var k := CornerOf(m, current, corner, next);
    if -1.0 < k.dot < 1.0 {
      hide Related;
      CornerAngles(m, k.dot);
    }
  }

  // ----- the trim -----

  /** A trim that leaves half of each leg, keeps the corner within the deviation budget, and whose arc
      has a curvature between the limits. */
  ghost predicate Admissible(opts: Options, k: Corner, a: Angles, trim: real) {
    0.0 < trim && trim <= k.incoming / 2.0 && trim <= k.outgoing / 2.0 &&
    trim * a.tanQuarter <= opts.maxBlendDeviation &&
    opts.minBlendCurvature * trim <= a.tanHalf <= opts.maxBlendCurvature * trim
  }

  ghost predicate Bendable(opts: Options, k: Corner, a: Angles) {
    CurvatureRange(opts) && 0.0 < opts.maxBlendDeviation && 0.0 < k.incoming && 0.0 < k.outgoing && Acute(a)
  }

  /** The natural trim is the largest one that keeps half of each leg and the deviation budget. */
  lemma NaturalTrimIsLargest(opts: Options, k: Corner, tanQuarter: real, any: real)
    requires 0.0 < opts.maxBlendDeviation && 0.0 < k.incoming && 0.0 < k.outgoing && 0.0 < tanQuarter
    ensures var natural := NaturalTrim(opts, k, tanQuarter);
            0.0 < natural <= k.incoming / 2.0 && natural <= k.outgoing / 2.0 &&
            natural * tanQuarter <= opts.maxBlendDeviation &&
            (any <= natural <==> any <= k.incoming / 2.0 && any <= k.outgoing / 2.0 && any * tanQuarter <= opts.maxBlendDeviation)
  {
    var natural := NaturalTrim(opts, k, tanQuarter);
    var fromSegments := Min(k.incoming / 2.0, k.outgoing / 2.0);
    Quotient(opts.maxBlendDeviation, tanQuarter);
    DivLe(opts.maxBlendDeviation, fromSegments, tanQuarter);
    DivGe(opts.maxBlendDeviation, any, tanQuarter);
    if any <= fromSegments {
      MulMono(any, fromSegments, tanQuarter);
    }
  }

  lemma TrimIsAdmissible(opts: Options, k: Corner, a: Angles)
    requires Bendable(opts, k, a)
    ensures !TooSharp(opts, k, a) <==>
            Admissible(opts, k, a, Min(NaturalTrim(opts, k, a.tanQuarter), CurvatureCap(opts, a.tanHalf)))
  {
    var natural, cap := NaturalTrim(opts, k, a.tanQuarter), CurvatureCap(opts, a.tanHalf);
    var trim := Min(natural, cap);
    Quotient(a.tanHalf, opts.minBlendCurvature);
    NaturalTrimIsLargest(opts, k, a.tanQuarter, trim);
    hide NaturalTrim;
    CapArithmetic(opts.minBlendCurvature, opts.maxBlendCurvature, a.tanHalf, natural, cap, trim);
  }

  lemma NoneIsLarger(opts: Options, k: Corner, a: Angles, any: real)
    requires Bendable(opts, k, a) && Admissible(opts, k, a, any)
    ensures any <= Min(NaturalTrim(opts, k, a.tanQuarter), CurvatureCap(opts, a.tanHalf)) && !TooSharp(opts, k, a)
  {
    assert 0.0 < opts.minBlendCurvature <= opts.maxBlendCurvature;
    assert opts.minBlendCurvature * any <= a.tanHalf <= opts.maxBlendCurvature * any;
    CapMeetsCurvature(opts, a.tanHalf);
    NaturalIsNotSmaller(opts, k, a, any);
    SharpAt(opts, k, a);
    hide *;
    AnyArithmetic(opts.minBlendCurvature, opts.maxBlendCurvature, a.tanHalf, NaturalTrim(opts, k, a.tanQuarter),
                  CurvatureCap(opts, a.tanHalf), any);
  }

  lemma CapMeetsCurvature(opts: Options, tanHalf: real)
    requires CurvatureRange(opts) && 0.0 < tanHalf
    ensures CurvatureCap(opts, tanHalf) * opts.minBlendCurvature == tanHalf
  {
    Quotient(tanHalf, opts.minBlendCurvature);
  }

  lemma NaturalIsNotSmaller(opts: Options, k: Corner, a: Angles, any: real)
    requires Bendable(opts, k, a) && Admissible(opts, k, a, any)
    ensures any <= NaturalTrim(opts, k, a.tanQuarter)
  {
    hide NaturalTrim;
    NaturalTrimIsLargest(opts, k, a.tanQuarter, any);
  }

  lemma SharpAt(opts: Options, k: Corner, a: Angles)
    ensures TooSharp(opts, k, a) <==> a.tanHalf > opts.maxBlendCurvature * NaturalTrim(opts, k, a.tanQuarter)
  {
    hide NaturalTrim;
  }

  lemma AnyArithmetic(kmin: real, kmax: real, tanHalf: real, natural: real, cap: real, any: real)
    requires 0.0 < kmin <= kmax && cap * kmin == tanHalf
    ensures any <= natural && kmin * any <= tanHalf <= kmax * any ==> any <= Min(natural, cap) && tanHalf <= kmax * natural
  {
    if cap < any {
      MulPos(any - cap, kmin);
    }
    if any <= natural {
      MulMono(any, natural, kmax);
    }
  }

  lemma CapArithmetic(kmin: real, kmax: real, tanHalf: real, natural: real, cap: real, trim: real)
    requires 0.0 < kmin <= kmax && 0.0 < natural && 0.0 < cap && cap * kmin == tanHalf && trim == Min(natural, cap)
    ensures 0.0 < trim && kmin * trim <= tanHalf
    ensures tanHalf <= kmax * natural <==> tanHalf <= kmax * trim
  {
    MulMono(trim, cap, kmin);
    MulMono(kmin, kmax, cap);
    MulMono(trim, natural, kmax);
  }

  // ----- the arc -----

  function ArcLength(arc: Arc): real {
    arc.radius * arc.angle
  }

  /** The point of an arc at an angle of the given cosine and sine, and the tangent there. */
  function Around(arc: Arc, co: real, si: real): (r: Vec)
    requires |arc.center| == |arc.x| == |arc.y|
    ensures |r| == |arc.center|
  {
    seq(|arc.center|, i requires 0 <= i < |arc.center| => arc.center[i] + arc.radius * (arc.x[i] * co + arc.y[i] * si))
  }

  function Heading(arc: Arc, co: real, si: real): (r: Vec)
    requires |arc.center| == |arc.x| == |arc.y|
    ensures |r| == |arc.center|
  {
    seq(|arc.center|, i requires 0 <= i < |arc.center| => -arc.x[i] * si + arc.y[i] * co)
  }

  /** `view::configuration` and `view::tangent` on a circular segment, at a distance along it
      (equations 7 and 8). */
  function ArcAt(m: Maths, arc: Arc, along: real): (r: Vec)
    requires |arc.center| == |arc.x| == |arc.y| && arc.radius != 0.0
    ensures |r| == |arc.center|
  {
    var t := along / arc.radius;
    Around(arc, m.cos(t), m.sin(t))
  }

  function ArcTangent(m: Maths, arc: Arc, along: real): (r: Vec)
    requires |arc.center| == |arc.x| == |arc.y| && arc.radius != 0.0
    ensures |r| == |arc.center|
  {
    var t := along / arc.radius;
    Heading(arc, m.cos(t), m.sin(t))
  }

  /** u and w are unit vectors at a cosine d. */
  ghost predicate Directions(u: Vec, w: Vec, d: real) {
    |u| == |w| && Dot(u, u) == 1.0 && Dot(w, w) == 1.0 && Dot(u, w) == d
  }

  /** The factor k fixes the arc: it is the radius over the sine, and the trim over 1 minus the
      cosine. */
  ghost predicate Scaling(k: real, a: Angles, radius: real, trim: real) {
    0.0 < k && 0.0 < radius && k * a.sine == radius && k * (1.0 - a.cosine) == trim
  }

  /** A vector h (w - u): where it points along the legs, and how long it is. */
  lemma StretchedBisector(dev: Vec, h: real, u: Vec, w: Vec, d: real) returns (wd: real, ud: real)
    requires Directions(u, w, d) && |dev| == |u| && forall i :: 0 <= i < |u| ==> dev[i] == h * (w[i] - u[i])
    ensures wd == h - h * d && ud == h * d - h && Dot(dev, dev) == h * wd - h * ud
  {
    var g := -h;
    hide Dot;
    StretchCombines(dev, h, g, u, w);
    DotSymmetric(u, w);
    hide Combines;
    SquareOfCombination(dev, h, w, g, u);
    wd, ud := Dot(w, dev), Dot(u, dev);
    WithUnits(h, d, Dot(w, w), Dot(u, w), Dot(w, u), Dot(u, u), wd, ud);
  }

  lemma StretchCombines(dev: Vec, h: real, g: real, u: Vec, w: Vec)
    requires |dev| == |u| == |w| && g == -h && forall i :: 0 <= i < |u| ==> dev[i] == h * (w[i] - u[i])
    ensures Combines(dev, h, w, g, u)
  {
    forall i | 0 <= i < |dev|
      ensures dev[i] == h * w[i] + g * u[i]
    {
      Distribute(h, w[i], u[i]);
    }
  }

  lemma Distribute(h: real, a: real, b: real)
    ensures h * (a - b) == h * a + -h * b
  {
  }

  lemma WithUnits(h: real, d: real, ww: real, uw: real, wu: real, uu: real, wd: real, ud: real)
    requires ww == 1.0 && uw == d && wu == d && uu == 1.0
    requires wd == h * ww + -h * uw && ud == h * wu + -h * uu
    ensures wd == h - h * d && ud == h * d - h
  {
  }

  lemma BisectorNorm(m: Maths, u: Vec, w: Vec, a: Angles)
    requires Faithful(m) && Directions(u, w, a.cosine) && Acute(a) && Related(a)
    ensures m.norm(Sub(w, u)) == 2.0 * a.s
  {
    hide *;
    var n := Twice(a);
    BisectorSquare(u, w, a.cosine);
    NormIs(m, Sub(w, u), n);
  }

  lemma Twice(a: Angles) returns (n: real)
    requires Acute(a) && Related(a)
    ensures n == 2.0 * a.s && 0.0 < n && n * n == 2.0 - 2.0 * a.cosine
  {
    n := 2.0 * a.s;
    Identities(a);
    assert n * n == 4.0 * (a.s * a.s);
  }

  lemma BisectorSquare(u: Vec, w: Vec, d: real)
    requires Directions(u, w, d)
    ensures |u| == |w| && Dot(Sub(w, u), Sub(w, u)) == 2.0 - 2.0 * d
  {
    hide Dot;
    SquareOfCombination(Sub(w, u), 1.0, w, -1.0, u);
    DotSymmetric(u, w);
  }

  /** The center of the arc, in closed form. */
  ghost predicate Centered(center: Vec, corner: Vec, u: Vec, w: Vec, k: real) {
    |corner| == |u| == |w| == |center| && forall i :: 0 <= i < |u| ==> center[i] == corner[i] + k * (w[i] - u[i])
  }

  /** The direction from the center to the start of the arc, in closed form. */
  ghost predicate Pointed(x: Vec, u: Vec, w: Vec, a: Angles) {
    |x| == |u| == |w| && forall i :: 0 <= i < |u| ==> a.sine * x[i] == a.cosine * u[i] - w[i]
  }

  ghost predicate Shaped(arc: Arc, corner: Vec, u: Vec, w: Vec, a: Angles, k: real) {
    arc.y == u && Centered(arc.center, corner, u, w, k) && Pointed(arc.x, u, w, a)
  }

  /** Where the center lies. */
  lemma CenterShape(m: Maths, corner: Vec, u: Vec, w: Vec, a: Angles, radius: real, trim: real, k: real)
    requires Faithful(m) && Directions(u, w, a.cosine) && |corner| == |u| && Acute(a) && Related(a) && Scaling(k, a, radius, trim)
    ensures |w| == |u| && Centered(Add(corner, Scale(radius / a.c, Normalized(m, Sub(w, u)))), corner, u, w, k)
  {
    SameLength(u, w, a.cosine);
    hide Dot, Directions, Faithful, Related, Normalized;
    BisectorNorm(m, u, w, a);
    var offset := Scale(radius / a.c, Normalized(m, Sub(w, u)));
    OffsetShape(m, Sub(w, u), a, radius, trim, k);
    hide *;
    CenterFold(offset, corner, u, w, k);
  }

  lemma CenterFold(offset: Vec, corner: Vec, u: Vec, w: Vec, k: real)
    requires |offset| == |corner| == |u| == |w| && forall i :: 0 <= i < |u| ==> offset[i] == k * Sub(w, u)[i]
    ensures Centered(Add(corner, offset), corner, u, w, k)
  {
  }

  lemma SameLength(u: Vec, w: Vec, d: real)
    requires Directions(u, w, d)
    ensures |u| == |w|
  {
    hide Dot;
  }

  lemma OffsetShape(m: Maths, bisector: Vec, a: Angles, radius: real, trim: real, k: real)
    requires m.norm(bisector) == 2.0 * a.s && Acute(a) && Related(a) && Scaling(k, a, radius, trim)
    ensures forall i :: 0 <= i < |bisector| ==> Scale(radius / a.c, Normalized(m, bisector))[i] == k * bisector[i]
  {
    var n := Normalized(m, bisector);
    hide Faithful, Dot;
    forall i | 0 <= i < |bisector|
      ensures Scale(radius / a.c, n)[i] == k * bisector[i]
    {
      assert n[i] == 1.0 / (2.0 * a.s) * bisector[i];
      CenterArithmetic(radius, a.sine, a.c, a.s, k, bisector[i]);
    }
  }

  lemma CenterArithmetic(radius: real, sine: real, c: real, s: real, k: real, b: real)
    requires 0.0 < s && 0.0 < c && k * sine == radius && sine == 2.0 * s * c
    ensures (radius / c) * ((1.0 / (2.0 * s)) * b) == k * b
  {
    assert k * sine == k * (2.0 * s) * c;
    DivIs(radius, c, k * (2.0 * s));
    var e := 1.0 / (2.0 * s);
    assert e * (2.0 * s) == 1.0;
    assert k * (2.0 * s) * (e * b) == k * ((e * (2.0 * s)) * b);
  }


  /** The vector from the center to the start of the arc is k (cosine u - w), as long as the radius: the
      projection that makes it perpendicular to u changes nothing. */
  lemma StartShape(m: Maths, raw: Vec, u: Vec, w: Vec, a: Angles, radius: real, trim: real, k: real, p: real, q: real)
    requires Faithful(m) && Directions(u, w, a.cosine) && |raw| == |u| && Acute(a) && Related(a) && Scaling(k, a, radius, trim)
    requires Combines(raw, p, u, q, w) && p == k * a.cosine && q == -k
    ensures Dot(raw, u) == 0.0 && m.norm(raw) == radius
  {
    hide *;
    var uu, wu, uw, ww := UnitProducts(u, w, a.cosine);
    SquareOfCombination(raw, p, u, q, w);
    DotSymmetric(u, raw);
    StartLength(a, radius, trim, k, p, q, uu, wu, uw, ww, Dot(u, raw), Dot(w, raw), Dot(raw, raw));
    NormIs(m, raw, radius);
  }

  lemma UnitProducts(u: Vec, w: Vec, d: real) returns (uu: real, wu: real, uw: real, ww: real)
    requires Directions(u, w, d)
    ensures |u| == |w| && uu == Dot(u, u) == 1.0 && wu == Dot(w, u) == d && uw == Dot(u, w) == d && ww == Dot(w, w) == 1.0
  {
    DotSymmetric(u, w);
    uu, wu, uw, ww := Dot(u, u), Dot(w, u), Dot(u, w), Dot(w, w);
  }

  lemma StartLength(a: Angles, radius: real, trim: real, k: real, p: real, q: real, uu: real, wu: real, uw: real, ww: real,
                    ur: real, wr: real, rr: real)
    requires Acute(a) && Related(a) && Scaling(k, a, radius, trim) && p == k * a.cosine && q == -k
    requires uu == 1.0 && wu == a.cosine && uw == a.cosine && ww == 1.0
    requires ur == p * uu + q * wu && wr == p * uw + q * ww && rr == p * ur + q * wr
    ensures ur == 0.0 && rr == radius * radius && 0.0 < radius
  {
    UnitCircle(a);
    hide Related;
    StartArithmetic(k, a.cosine, a.sine, ur, wr, rr, radius);
  }

  lemma StartArithmetic(k: real, d: real, sine: real, ur: real, wr: real, rr: real, radius: real)
    requires d * d + sine * sine == 1.0 && k * sine == radius
    requires ur == 0.0 && wr == k * d * d - k && rr == -k * wr
    ensures rr == radius * radius
  {
    var p, q := d * d, sine * sine;
    assert wr == -(k * q);
    assert (k * sine) * (k * sine) == k * (k * q);
  }

  lemma ArcShape(m: Maths, corner: Vec, u: Vec, w: Vec, a: Angles, angle: real, trim: real, radius: real, k: real)
    requires Faithful(m) && Directions(u, w, a.cosine) && |corner| == |u| == |w| && a == AnglesOf(m, angle)
    requires Acute(a) && Related(a) && Scaling(k, a, radius, trim) && m.cos(angle / 2.0) != 0.0
    ensures Shaped(CornerArc(m, corner, u, w, trim, radius, angle), corner, u, w, a, k)
  {
    var arc := CornerArc(m, corner, u, w, trim, radius, angle);
    var center := arc.center;
    var raw := Sub(Sub(corner, Scale(trim, u)), center);
    hide *;
    ArcParts(m, corner, u, w, trim, radius, angle, a);
    CenterShape(m, corner, u, w, a, radius, trim, k);
    var p, q := StartFactors(a, k);
    RawShape(corner, center, raw, u, w, a, radius, trim, k, p, q);
    StartShape(m, raw, u, w, a, radius, trim, k, p, q);
    NothingProjected(raw, u);
    UnitShape(m, raw, u, w, a, radius, trim, k, p, q);
    ShapedFold(arc, corner, u, w, a, k);
  }

  lemma ArcParts(m: Maths, corner: Vec, u: Vec, w: Vec, trim: real, radius: real, angle: real, a: Angles)
    requires |corner| == |u| == |w| && m.cos(angle / 2.0) != 0.0 && a == AnglesOf(m, angle)
    ensures a.c != 0.0
    ensures var arc := CornerArc(m, corner, u, w, trim, radius, angle);
            arc.center == Add(corner, Scale(radius / a.c, Normalized(m, Sub(w, u)))) &&
            var raw := Sub(Sub(corner, Scale(trim, u)), arc.center);
            arc.x == Normalized(m, Sub(raw, Scale(Dot(raw, u), u)))
  {
  }

  lemma StartFactors(a: Angles, k: real) returns (p: real, q: real)
    ensures p == k * a.cosine && q == -k
  {
    p, q := k * a.cosine, -k;
  }

  lemma NothingProjected(raw: Vec, u: Vec)
    requires |raw| == |u| && Dot(raw, u) == 0.0
    ensures Sub(raw, Scale(Dot(raw, u), u)) == raw
  {
  }

  lemma ShapedFold(arc: Arc, corner: Vec, u: Vec, w: Vec, a: Angles, k: real)
    requires arc.y == u && Centered(arc.center, corner, u, w, k) && Pointed(arc.x, u, w, a)
    ensures Shaped(arc, corner, u, w, a, k)
  {
  }

  lemma RawShape(corner: Vec, center: Vec, raw: Vec, u: Vec, w: Vec, a: Angles, radius: real, trim: real, k: real, p: real, q: real)
    requires |corner| == |center| == |u| == |w| && Scaling(k, a, radius, trim) && p == k * a.cosine && q == -k
    requires raw == Sub(Sub(corner, Scale(trim, u)), center)
    requires Centered(center, corner, u, w, k)
    ensures Combines(raw, p, u, q, w)
  {
    forall i | 0 <= i < |raw|
      ensures raw[i] == p * u[i] + q * w[i]
    {
      RawArithmetic(k, a.cosine, trim, u[i], w[i], corner[i], center[i], Scale(trim, u)[i], p, q);
    }
  }

  lemma RawArithmetic(k: real, d: real, trim: real, u: real, w: real, corner: real, center: real, tu: real, p: real, q: real)
    requires k * (1.0 - d) == trim && center == corner + k * (w - u) && tu == trim * u && p == k * d && q == -k
    ensures corner - tu - center == p * u + q * w
  {
    assert trim * u == k * u - k * d * u;
  }

  lemma UnitShape(m: Maths, raw: Vec, u: Vec, w: Vec, a: Angles, radius: real, trim: real, k: real, p: real, q: real)
    requires Combines(raw, p, u, q, w) && m.norm(raw) == radius && Scaling(k, a, radius, trim) && p == k * a.cosine && q == -k
    ensures Pointed(Normalized(m, raw), u, w, a)
  {
    forall i | 0 <= i < |raw|
      ensures a.sine * Normalized(m, raw)[i] == a.cosine * u[i] - w[i]
    {
      ScaledArithmetic(k, a.cosine, a.sine, radius, u[i], w[i], p, q, raw[i], Normalized(m, raw)[i]);
    }
  }

  lemma ScaledArithmetic(k: real, d: real, sine: real, radius: real, u: real, w: real, p: real, q: real, raw: real,
                         x: real)
    requires 0.0 < k && 0.0 < radius && k * sine == radius && p == k * d && q == -k
    requires raw == p * u + q * w && x == (1.0 / radius) * raw
    ensures sine * x == d * u - w
  {
    var v := d * u - w;
    assert raw == k * v;
    assert radius * (1.0 / radius) == 1.0;
    assert radius * x == raw;
    assert k * (sine * x) == k * v;
    DivIs(k * v, k, v);
    DivIs(k * v, k, sine * x);
  }

  // ----- meeting the legs -----

  lemma RadiusTimesX(a: Angles, radius: real, trim: real, k: real, u: real, w: real, x: real)
    requires Scaling(k, a, radius, trim) && a.sine * x == a.cosine * u - w
    ensures radius * x == k * (a.cosine * u - w)
  {
    assert k * a.sine * x == k * (a.sine * x);
  }

  lemma ArcStart(m: Maths, arc: Arc, corner: Vec, u: Vec, w: Vec, a: Angles, trim: real, k: real)
    requires Faithful(m) && Shaped(arc, corner, u, w, a, k) && Scaling(k, a, arc.radius, trim)
    requires |u| == |w| == |corner| == |arc.center| == |arc.x| == |arc.y| && 0.0 < arc.radius
    ensures ArcAt(m, arc, 0.0) == Sub(corner, Scale(trim, u)) && ArcTangent(m, arc, 0.0) == u
  {
    var co, si := m.cos(0.0 / arc.radius), m.sin(0.0 / arc.radius);
    DivIs(0.0, arc.radius, 0.0);
    assert ArcAt(m, arc, 0.0) == Around(arc, co, si) && ArcTangent(m, arc, 0.0) == Heading(arc, co, si);
    assert co == 1.0 && si == 0.0;
    hide ArcAt, ArcTangent, Faithful, Scaling;
    StartPoint(arc, corner, u, w, a, trim, k, co, si);
    Heads(arc, u, co, si);
  }

  lemma Heads(arc: Arc, u: Vec, co: real, si: real)
    requires |arc.center| == |arc.x| == |arc.y| && arc.y == u && co == 1.0 && si == 0.0
    ensures Heading(arc, co, si) == u
  {
    forall i | 0 <= i < |u|
      ensures Heading(arc, co, si)[i] == u[i]
    {
      assert -arc.x[i] * si == 0.0;
      assert arc.y[i] * co == u[i];
    }
  }

  lemma StartPoint(arc: Arc, corner: Vec, u: Vec, w: Vec, a: Angles, trim: real, k: real, co: real, si: real)
    requires Shaped(arc, corner, u, w, a, k) && Scaling(k, a, arc.radius, trim)
    requires |u| == |w| == |corner| == |arc.center| == |arc.x| == |arc.y| && co == 1.0 && si == 0.0
    ensures Around(arc, co, si) == Sub(corner, Scale(trim, u))
  {
    assert arc.y == u && Centered(arc.center, corner, u, w, k) && Pointed(arc.x, u, w, a);
    hide Scaling, Shaped;
    var there := Sub(corner, Scale(trim, u));
    forall i | 0 <= i < |u|
      ensures Around(arc, co, si)[i] == there[i]
    {
      StartAt(a, arc.radius, trim, k, corner[i], u[i], w[i], arc.center[i], arc.x[i], arc.y[i], co, si, Around(arc, co, si)[i], there[i]);
    }
  }

  lemma StartAt(a: Angles, radius: real, trim: real, k: real, q: real, u: real, w: real, center: real, x: real, y: real,
                co: real, si: real, at: real, there: real)
    requires Scaling(k, a, radius, trim) && center == q + k * (w - u) && a.sine * x == a.cosine * u - w
    requires y == u && co == 1.0 && si == 0.0
    requires at == center + radius * (x * co + y * si) && there == q - trim * u
    ensures at == there
  {
    RadiusTimesX(a, radius, trim, k, u, w, x);
    assert trim * u == k * u - k * (a.cosine * u);
  }

  lemma ArcEnd(m: Maths, arc: Arc, corner: Vec, u: Vec, w: Vec, a: Angles, trim: real, k: real)
    requires Shaped(arc, corner, u, w, a, k) && Scaling(k, a, arc.radius, trim)
    requires a == AnglesOf(m, arc.angle) && Acute(a) && Related(a)
    requires |u| == |w| == |corner| == |arc.center| == |arc.x| == |arc.y| && 0.0 < arc.radius
    ensures ArcAt(m, arc, ArcLength(arc)) == Add(corner, Scale(trim, w))
    ensures ArcTangent(m, arc, ArcLength(arc)) == w
  {
    var along := ArcLength(arc);
    var co, si := m.cos(along / arc.radius), m.sin(along / arc.radius);
    DivIs(along, arc.radius, arc.angle);
    assert ArcAt(m, arc, along) == Around(arc, co, si) && ArcTangent(m, arc, along) == Heading(arc, co, si);
    assert co == a.cosine && si == a.sine;
    hide ArcAt, ArcTangent, AnglesOf;
    EndPoint(arc, corner, u, w, a, trim, k, co, si);
  }

  lemma EndPoint(arc: Arc, corner: Vec, u: Vec, w: Vec, a: Angles, trim: real, k: real, co: real, si: real)
    requires Shaped(arc, corner, u, w, a, k) && Scaling(k, a, arc.radius, trim) && Acute(a) && Related(a)
    requires |u| == |w| == |corner| == |arc.center| == |arc.x| == |arc.y| && co == a.cosine && si == a.sine
    ensures Around(arc, co, si) == Add(corner, Scale(trim, w)) && Heading(arc, co, si) == w
  {
    UnitCircle(a);
    hide *;
    EndsThere(arc, corner, u, w, a, trim, k, co, si);
    EndHeads(arc, corner, u, w, a, k, co, si);
  }

  lemma EndsThere(arc: Arc, corner: Vec, u: Vec, w: Vec, a: Angles, trim: real, k: real, co: real, si: real)
    requires Shaped(arc, corner, u, w, a, k) && Scaling(k, a, arc.radius, trim)
    requires a.cosine * a.cosine + a.sine * a.sine == 1.0
    requires |u| == |w| == |corner| == |arc.center| == |arc.x| == |arc.y| && co == a.cosine && si == a.sine
    ensures Around(arc, co, si) == Add(corner, Scale(trim, w))
  {
    var there := Add(corner, Scale(trim, w));
    assert arc.y == u && Centered(arc.center, corner, u, w, k) && Pointed(arc.x, u, w, a);
    hide Scaling, Shaped;
    forall i | 0 <= i < |u|
      ensures Around(arc, co, si)[i] == there[i]
    {
      EndAt(a, arc.radius, trim, k, corner[i], u[i], w[i], arc.center[i], arc.x[i], arc.y[i], co, si, Around(arc, co, si)[i], there[i]);
    }
  }

  lemma EndHeads(arc: Arc, corner: Vec, u: Vec, w: Vec, a: Angles, k: real, co: real, si: real)
    requires Shaped(arc, corner, u, w, a, k) && a.cosine * a.cosine + a.sine * a.sine == 1.0
    requires |u| == |w| == |corner| == |arc.center| == |arc.x| == |arc.y| && co == a.cosine && si == a.sine
    ensures Heading(arc, co, si) == w
  {
    assert arc.y == u && forall i :: 0 <= i < |u| ==> a.sine * arc.x[i] == a.cosine * u[i] - w[i];
    hide Shaped, Centered, Pointed;
    forall i | 0 <= i < |u|
      ensures Heading(arc, co, si)[i] == w[i]
    {
      EndHeading(a, u[i], w[i], arc.x[i], arc.y[i], co, si);
    }
  }

  lemma EndHeading(a: Angles, u: real, w: real, x: real, y: real, co: real, si: real)
    requires a.cosine * a.cosine + a.sine * a.sine == 1.0 && a.sine * x == a.cosine * u - w
    requires y == u && co == a.cosine && si == a.sine
    ensures -x * si + y * co == w
  {
    assert x * si == a.cosine * u - w;
  }

  lemma EndAt(a: Angles, radius: real, trim: real, k: real, q: real, u: real, w: real, center: real, x: real, y: real,
              co: real, si: real, at: real, there: real)
    requires a.cosine * a.cosine + a.sine * a.sine == 1.0
    requires Scaling(k, a, radius, trim) && center == q + k * (w - u) && a.sine * x == a.cosine * u - w
    requires y == u && co == a.cosine && si == a.sine
    requires at == center + radius * (x * co + y * si) && there == q + trim * w
    ensures at == there
  {
    RadiusTimesX(a, radius, trim, k, u, w, x);
    EndSum(co, si, radius, k, radius * x, u, w, x);
    assert trim * w == k * w - k * (a.cosine * w);
  }

  lemma EndSum(d: real, sine: real, radius: real, k: real, rx: real, u: real, w: real, x: real)
    requires d * d + sine * sine == 1.0 && rx == radius * x && rx == k * (d * u - w) && k * sine == radius
    ensures radius * (x * d + u * sine) == k * u - k * (d * w)
  {
    var dd, ss := d * d, sine * sine;
    assert radius * (x * d + u * sine) == rx * d + (radius * u) * sine;
    assert rx * d == k * (dd * u) - k * (d * w);
    assert (radius * u) * sine == k * (ss * u);
    assert k * (dd * u) + k * (ss * u) == k * ((dd + ss) * u);
  }

  lemma ArcMiddle(m: Maths, arc: Arc, corner: Vec, u: Vec, w: Vec, a: Angles, trim: real, k: real, h: real)
    requires Shaped(arc, corner, u, w, a, k) && Scaling(k, a, arc.radius, trim)
    requires a == AnglesOf(m, arc.angle) && Acute(a) && Related(a) && h == k * (1.0 - a.c)
    requires |u| == |w| == |corner| == |arc.center| == |arc.x| == |arc.y| && 0.0 < arc.radius
    ensures forall i :: 0 <= i < |u| ==>
                          ArcAt(m, arc, arc.radius * (arc.angle / 2.0))[i] - corner[i] == h * (w[i] - u[i])
  {
    var along := arc.radius * (arc.angle / 2.0);
    var co, si := m.cos(along / arc.radius), m.sin(along / arc.radius);
    DivIs(along, arc.radius, arc.angle / 2.0);
    assert ArcAt(m, arc, along) == Around(arc, co, si);
    assert co == a.c && si == a.s;
    hide ArcAt, AnglesOf, Related, Scaling;
    MiddlePoint(arc, corner, u, w, a, trim, k, h, co, si);
  }

  lemma MiddlePoint(arc: Arc, corner: Vec, u: Vec, w: Vec, a: Angles, trim: real, k: real, h: real, co: real, si: real)
    requires Shaped(arc, corner, u, w, a, k) && Scaling(k, a, arc.radius, trim) && Related(a) && h == k * (1.0 - a.c)
    requires |u| == |w| == |corner| == |arc.center| == |arc.x| == |arc.y| && co == a.c && si == a.s
    ensures forall i :: 0 <= i < |u| ==> Around(arc, co, si)[i] - corner[i] == h * (w[i] - u[i])
  {
    hide Related, Scaling;
    forall i | 0 <= i < |u|
      ensures Around(arc, co, si)[i] - corner[i] == h * (w[i] - u[i])
    {
      MiddleAt(a, arc.radius, trim, k, corner[i], u[i], w[i], arc.center[i], arc.x[i], arc.y[i], co, si, h);
    }
  }

  lemma MiddleAt(a: Angles, radius: real, trim: real, k: real, q: real, u: real, w: real, center: real, x: real, y: real,
                 co: real, si: real, h: real)
    requires Related(a) && Scaling(k, a, radius, trim) && center == q + k * (w - u) && a.sine * x == a.cosine * u - w
    requires y == u && co == a.c && si == a.s && h == k * (1.0 - a.c)
    ensures center + radius * (x * co + y * si) - q == h * (w - u)
  {
    RadiusTimesX(a, radius, trim, k, u, w, x);
    HalfwayIdentity(a);
    var d, sine := a.cosine, a.sine;
    hide Related, Scaling;
    MiddleSum(d, sine, co, si, radius, k, radius * x, u, w, x);
  }

  lemma HalfwayIdentity(a: Angles)
    requires Related(a)
    ensures a.cosine * a.c + a.sine * a.s == a.c
  {
    var cc, ss := a.c * a.c, a.s * a.s;
    assert a.cosine * a.c == cc * a.c - ss * a.c;
    assert a.sine * a.s == 2.0 * (ss * a.c);
    assert cc * a.c + ss * a.c == (cc + ss) * a.c;
  }

  lemma MiddleSum(d: real, sine: real, c: real, s: real, radius: real, k: real, rx: real, u: real, w: real, x: real)
    requires d * c + sine * s == c && rx == radius * x && rx == k * (d * u - w) && k * sine == radius
    ensures radius * (x * c + u * s) == k * (c * u) - k * (c * w)
  {
    assert radius * (x * c + u * s) == rx * c + (radius * u) * s;
    assert rx * c == k * (d * c * u) - k * (c * w);
    assert (radius * u) * s == k * (sine * s * u);
    assert k * (d * c * u) + k * (sine * s * u) == k * ((d * c + sine * s) * u);
  }

  lemma MiddleLength(a: Angles, radius: real, trim: real, k: real, h: real, wd: real, ud: real, dd: real)
    requires Acute(a) && Related(a) && Scaling(k, a, radius, trim) && h == k * (1.0 - a.c)
    requires wd == h - h * a.cosine && ud == h * a.cosine - h && dd == h * wd - h * ud
    ensures dd == (trim * a.tanQuarter) * (trim * a.tanQuarter)
  {
    hide *;
    TrimDeviation(a, radius, trim, k, h);
    HalfSquare(a);
    FourSquares(h, a.cosine, a.s, wd, ud, dd, trim * a.tanQuarter);
  }

  lemma HalfSquare(a: Angles)
    requires Acute(a) && Related(a)
    ensures 1.0 - a.cosine == 2.0 * (a.s * a.s)
  {
  }

  lemma TrimDeviation(a: Angles, radius: real, trim: real, k: real, h: real)
    requires Acute(a) && Related(a) && Scaling(k, a, radius, trim) && h == k * (1.0 - a.c)
    ensures trim * a.tanQuarter == 2.0 * (h * a.s)
  {
    Identities(a);
    hide Related;
    TrimTimesQuarter(a.cosine, a.c, a.s, a.tanQuarter, k, trim, h);
  }

  lemma FourSquares(h: real, d: real, s: real, wd: real, ud: real, dd: real, r: real)
    requires 1.0 - d == 2.0 * (s * s) && wd == h - h * d && ud == h * d - h && dd == h * wd - h * ud && r == 2.0 * (h * s)
    ensures dd == r * r
  {
    var ss, v := s * s, h * s;
    assert wd == 2.0 * (h * ss) && ud == -2.0 * (h * ss);
    assert h * (h * ss) == v * v;
    assert r * r == 4.0 * (v * v);
  }

  lemma TrimTimesQuarter(d: real, c: real, s: real, tanQuarter: real, k: real, trim: real, h: real)
    requires 1.0 - d == 2.0 * (s * s) && s * tanQuarter == 1.0 - c && trim == k * (1.0 - d) && h == k * (1.0 - c)
    ensures trim * tanQuarter == 2.0 * (h * s)
  {
    assert trim == 2.0 * (k * s * s);
    assert k * s * s * tanQuarter == k * s * (s * tanQuarter);
    assert h * s == k * s * (1.0 - c);
  }

  /** Halfway along, the arc is as far from the corner as the deviation formula says. */
  lemma MiddleIsNear(m: Maths, arc: Arc, corner: Vec, u: Vec, w: Vec, a: Angles, trim: real, k: real)
    requires Faithful(m) && Directions(u, w, a.cosine) && Shaped(arc, corner, u, w, a, k) && Scaling(k, a, arc.radius, trim)
    requires a == AnglesOf(m, arc.angle) && Acute(a) && Related(a) && 0.0 <= trim * a.tanQuarter
    requires |u| == |w| == |corner| == |arc.center| == |arc.x| == |arc.y| && 0.0 < arc.radius
    ensures m.norm(Sub(ArcAt(m, arc, arc.radius * (arc.angle / 2.0)), corner)) == trim * a.tanQuarter
  {
    var dev := Sub(ArcAt(m, arc, arc.radius * (arc.angle / 2.0)), corner);
    hide *;
    var h := MiddleFactor(a, k);
    ArcMiddle(m, arc, corner, u, w, a, trim, k, h);
    var wd, ud := StretchedBisector(dev, h, u, w, a.cosine);
    MiddleLength(a, arc.radius, trim, k, h, wd, ud, Dot(dev, dev));
    NormIs(m, dev, trim * a.tanQuarter);
  }

  lemma MiddleFactor(a: Angles, k: real) returns (h: real)
    ensures h == k * (1.0 - a.c)
  {
    h := k * (1.0 - a.c);
  }

  lemma ArcBasis(arc: Arc, corner: Vec, u: Vec, w: Vec, a: Angles, k: real)
    requires Directions(u, w, a.cosine) && Shaped(arc, corner, u, w, a, k) && Acute(a) && Related(a)
    ensures |arc.x| == |arc.y| && Dot(arc.x, arc.x) == 1.0 && Dot(arc.x, arc.y) == 0.0 && Dot(arc.y, arc.y) == 1.0
  {
    var p, q := BasisShape(arc, corner, u, w, a, k);
    hide *;
    UnitDirections(u, w, a.cosine);
    var uu, wu, uw, ww := UnitProducts(u, w, a.cosine);
    SquareOfCombination(arc.x, p, u, q, w);
    DotSymmetric(u, arc.x);
    BasisLength(a, p, q, uu, wu, uw, ww, Dot(u, arc.x), Dot(w, arc.x), Dot(arc.x, arc.x));
  }

  lemma UnitDirections(u: Vec, w: Vec, d: real)
    requires Directions(u, w, d)
    ensures |u| == |w| && Dot(u, u) == 1.0
  {
  }

  lemma BasisShape(arc: Arc, corner: Vec, u: Vec, w: Vec, a: Angles, k: real) returns (p: real, q: real)
    requires Shaped(arc, corner, u, w, a, k) && Acute(a)
    ensures a.sine * p == a.cosine && a.sine * q == -1.0 && Combines(arc.x, p, u, q, w)
    ensures arc.y == u && |arc.x| == |u|
  {
    var e := 1.0 / a.sine;
    p, q := e * a.cosine, -e;
    assert a.sine * e == 1.0;
    forall i | 0 <= i < |u|
      ensures arc.x[i] == p * u[i] + q * w[i]
    {
      UnscaledArithmetic(a.sine, e, a.cosine, u[i], w[i], arc.x[i], p, q);
    }
  }

  lemma UnscaledArithmetic(sine: real, e: real, d: real, u: real, w: real, x: real, p: real, q: real)
    requires 0.0 < sine && sine * e == 1.0 && sine * x == d * u - w && p == e * d && q == -e
    ensures x == p * u + q * w
  {
    assert e * (sine * x) == (e * sine) * x;
    assert e * (d * u - w) == (e * d) * u - e * w;
  }

  lemma BasisLength(a: Angles, p: real, q: real, uu: real, wu: real, uw: real, ww: real, ux: real, wx: real, xx: real)
    requires Acute(a) && Related(a) && a.sine * p == a.cosine && a.sine * q == -1.0
    requires uu == 1.0 && wu == a.cosine && uw == a.cosine && ww == 1.0
    requires ux == p * uu + q * wu && wx == p * uw + q * ww && xx == p * ux + q * wx
    ensures ux == 0.0 && xx == 1.0
  {
    UnitCircle(a);
    hide Related;
    BasisArithmetic(a.cosine, a.sine, p, q, ux, wx, xx);
  }

  lemma BasisArithmetic(d: real, sine: real, p: real, q: real, ux: real, wx: real, xx: real)
    requires 0.0 < sine && d * d + sine * sine == 1.0 && sine * p == d && sine * q == -1.0
    requires ux == p + q * d && wx == p * d + q && xx == p * ux + q * wx
    ensures ux == 0.0 && xx == 1.0
  {
    assert sine * (q * d) == -d;
    assert sine * ux == 0.0;
    assert sine * wx == d * d - 1.0;
    assert sine * (wx + sine) == 0.0;
    assert wx == -sine;
  }

  // ----- the main results -----

  /** An arc leaves the incoming leg a trim before the corner and joins the outgoing one a trim after
      it, each in the leg's direction. */
  ghost predicate MeetsLegs(m: Maths, corner: Vec, u: Vec, w: Vec, arc: Arc, trim: real) {
    |u| == |w| == |arc.center| == |arc.x| == |arc.y| == |corner| && 0.0 < arc.radius &&
    ArcAt(m, arc, 0.0) == Sub(corner, Scale(trim, u)) && ArcTangent(m, arc, 0.0) == u &&
    ArcAt(m, arc, ArcLength(arc)) == Add(corner, Scale(trim, w)) &&
    ArcTangent(m, arc, ArcLength(arc)) == w
  }

  /** Its curvature is within the limits and its frame orthonormal. */
  ghost predicate Bends(opts: Options, arc: Arc) {
    0.0 < arc.angle && |arc.x| == |arc.y| &&
    opts.minBlendCurvature * arc.radius <= 1.0 <= opts.maxBlendCurvature * arc.radius &&
    Dot(arc.x, arc.x) == 1.0 && Dot(arc.x, arc.y) == 0.0 && Dot(arc.y, arc.y) == 1.0
  }

  /** Halfway along it is within the deviation budget of the corner. */
  ghost predicate Deviates(m: Maths, opts: Options, corner: Vec, arc: Arc) {
    |corner| == |arc.center| == |arc.x| == |arc.y| && arc.radius != 0.0 &&
    m.norm(Sub(ArcAt(m, arc, arc.radius * (arc.angle / 2.0)), corner)) <= opts.maxBlendDeviation
  }

  /** The factor k that fixes the arc, from its trim and its radius. */
  lemma ArcFactor(opts: Options, k: Corner, a: Angles, trim: real, arc: Arc) returns (factor: real)
    requires Acute(a) && Related(a) && Admissible(opts, k, a, trim) && arc.radius == Radius(trim, a)
    ensures Scaling(factor, a, arc.radius, trim) && 0.0 < arc.radius && 0.0 <= trim * a.tanQuarter <= opts.maxBlendDeviation
    ensures opts.minBlendCurvature * arc.radius <= 1.0 <= opts.maxBlendCurvature * arc.radius
  {
    MulPos(trim, a.tanQuarter);
    assert 1.0 - a.cosine == a.tanHalf * a.sine && 0.0 < a.sine by {
      Identities(a);
    }
    hide Related;
    factor := FactorArithmetic(a.cosine, a.sine, a.tanHalf, trim, arc.radius);
    hide *;
    ScalingIs(factor, a, arc.radius, trim);
    RadiusBounds(opts.minBlendCurvature, opts.maxBlendCurvature, a.tanHalf, trim, arc.radius);
  }

  lemma ScalingIs(k: real, a: Angles, radius: real, trim: real)
    requires 0.0 < k && 0.0 < radius && k * a.sine == radius && k * (1.0 - a.cosine) == trim
    ensures Scaling(k, a, radius, trim)
  {
  }

  lemma FactorArithmetic(d: real, sine: real, tanHalf: real, trim: real, radius: real) returns (k: real)
    requires 0.0 < tanHalf && 0.0 < sine && 1.0 - d == tanHalf * sine && 0.0 < trim && radius == trim / tanHalf
    ensures 0.0 < radius && 0.0 < k && k * sine == radius && k * (1.0 - d) == trim && radius * tanHalf == trim
  {
    Quotient(trim, tanHalf);
    Quotient(radius, sine);
    k := radius / sine;
    assert k * (tanHalf * sine) == (k * sine) * tanHalf;
  }

  lemma RadiusBounds(kmin: real, kmax: real, tanHalf: real, trim: real, radius: real)
    requires 0.0 < tanHalf && radius * tanHalf == trim && kmin * trim <= tanHalf <= kmax * trim
    ensures kmin * radius <= 1.0 <= kmax * radius
  {
    DivLe(kmin * trim, 1.0, tanHalf);
    DivGe(kmax * trim, 1.0, tanHalf);
    DivIs(kmin * trim, tanHalf, kmin * radius);
    DivIs(kmax * trim, tanHalf, kmax * radius);
  }

  lemma ArcRounds(m: Maths, opts: Options, k: Corner, corner: Vec, angle: real, a: Angles, trim: real, arc: Arc)
    requires Faithful(m) && Directions(k.u, k.w, a.cosine) && |corner| == |k.u| == |k.w|
    requires 0.0 < angle && a == AnglesOf(m, angle) && Acute(a) && Related(a) && m.cos(angle / 2.0) != 0.0
    requires Admissible(opts, k, a, trim)
    requires arc == CornerArc(m, corner, k.u, k.w, trim, Radius(trim, a), angle)
    ensures MeetsLegs(m, corner, k.u, k.w, arc, trim) && Bends(opts, arc) && Deviates(m, opts, corner, arc)
  {
    hide Faithful, Directions, AnglesOf, Acute, Related, Admissible, CornerArc, Radius, Scaling, Shaped, Dot, ArcAt, ArcTangent;
    assert arc.angle == angle && arc.radius == Radius(trim, a) && arc.y == k.u;
    var factor := ArcFactor(opts, k, a, trim, arc);
    ArcShape(m, corner, k.u, k.w, a, angle, trim, arc.radius, factor);
    ArcStart(m, arc, corner, k.u, k.w, a, trim, factor);
    ArcEnd(m, arc, corner, k.u, k.w, a, trim, factor);
    ArcBasis(arc, corner, k.u, k.w, a, factor);
    MiddleIsNear(m, arc, corner, k.u, k.w, a, trim, factor);
    Fold(m, opts, corner, k.u, k.w, arc, trim);
  }

  lemma Fold(m: Maths, opts: Options, corner: Vec, u: Vec, w: Vec, arc: Arc, trim: real)
    requires |u| == |w| == |arc.center| == |arc.x| == |arc.y| == |corner| && 0.0 < arc.radius
    requires ArcAt(m, arc, 0.0) == Sub(corner, Scale(trim, u)) && ArcTangent(m, arc, 0.0) == u
    requires ArcAt(m, arc, ArcLength(arc)) == Add(corner, Scale(trim, w))
    requires ArcTangent(m, arc, ArcLength(arc)) == w
    requires m.norm(Sub(ArcAt(m, arc, arc.radius * (arc.angle / 2.0)), corner)) <= opts.maxBlendDeviation
    ensures MeetsLegs(m, corner, u, w, arc, trim) && Deviates(m, opts, corner, arc)
  {
  }

  lemma CornerDirections(m: Maths, current: Vec, corner: Vec, next: Vec)
    requires Faithful(m) && |current| == |corner| == |next|
    ensures var k := CornerOf(m, current, corner, next);
            0.0 < k.incoming && 0.0 < k.outgoing ==>
              Directions(k.u, k.w, k.dot) && -1.0 <= k.dot <= 1.0 && (k.dot == 1.0 <==> k.u == k.w)
  {
    var k := CornerOf(m, current, corner, next);
    if 0.0 < k.incoming && 0.0 < k.outgoing {
      hide Dot, Normalized;
      NormalizedIsUnit(m, Sub(corner, current));
      NormalizedIsUnit(m, Sub(next, corner));
      UnitDot(k.u, k.w);
    }
  }

  /** Every blend rounds its corner: the trim is admissible, so it takes no more than half of either
      leg; the arc meets both legs in position and direction; its curvature is within the limits; and
      it passes within the deviation budget of the corner. */
  lemma BlendRoundsCorner(m: Maths, opts: Options, current: Vec, corner: Vec, next: Vec)
    requires Faithful(m) && CurvatureRange(opts) && |current| == |corner| == |next|
    ensures var k, blend := CornerOf(m, current, corner, next), TryCreateBlend(m, opts, current, corner, next);
            blend.Some? ==>
              var g := blend.value;
              0.0 < g.trim && g.trim <= k.incoming / 2.0 && g.trim <= k.outgoing / 2.0 &&
              MeetsLegs(m, corner, k.u, k.w, g.arc, g.trim) && Bends(opts, g.arc) && Deviates(m, opts, corner, g.arc)
  {
    var k, blend := CornerOf(m, current, corner, next), TryCreateBlend(m, opts, current, corner, next);
    if blend.Some? {
      var g := blend.value;
      var angle := m.acos(k.dot);
      var a := AnglesOf(m, angle);
      CornerIsOpen(m, current, corner, next);
      hide Faithful, CornerOf, Related, AnglesOf, CornerArc, Radius, NaturalTrim, CurvatureCap, TooSharp, MeetsLegs, Bends, Deviates;
      CornerDirections(m, current, corner, next);
      TrimIsAdmissible(opts, k, a);
      ArcRounds(m, opts, k, corner, angle, a, g.trim, g.arc);
    }
  }

  /** A corner that turns, between legs of positive length, is blended exactly when some trim is
      admissible; the blend then uses the largest. */
  lemma BlendIsLargest(m: Maths, opts: Options, current: Vec, corner: Vec, next: Vec, any: real)
    requires Faithful(m) && CurvatureRange(opts) && |current| == |corner| == |next| && 0.0 < opts.maxBlendDeviation
    requires var k := CornerOf(m, current, corner, next); 0.0 < k.incoming && 0.0 < k.outgoing && -1.0 < k.dot < 1.0
    ensures var k, blend := CornerOf(m, current, corner, next), TryCreateBlend(m, opts, current, corner, next);
            var a := AnglesOf(m, m.acos(k.dot));
            (blend.Some? ==> Admissible(opts, k, a, blend.value.trim)) &&
            (Admissible(opts, k, a, any) ==> blend.Some? && any <= blend.value.trim)
  {
    var k := CornerOf(m, current, corner, next);
    var a := AnglesOf(m, m.acos(k.dot));
    CornerIsOpen(m, current, corner, next);
    hide Faithful, CornerOf, Related, AnglesOf, CornerArc, Radius, NaturalTrim, CurvatureCap, TooSharp, Admissible;
    CornerDirections(m, current, corner, next);
    TrimIsAdmissible(opts, k, a);
    if Admissible(opts, k, a, any) {
      NoneIsLarger(opts, k, a, any);
    }
  }

  /** A turning corner between legs of positive length can be blended with this trim. */
  ghost predicate CanTrim(m: Maths, opts: Options, current: Vec, corner: Vec, next: Vec, trim: real)
    requires |current| == |corner| == |next|
  {
    var k := CornerOf(m, current, corner, next);
    0.0 < opts.maxBlendDeviation && 0.0 < k.incoming && 0.0 < k.outgoing && -1.0 < k.dot < 1.0 &&
    Admissible(opts, k, AnglesOf(m, m.acos(k.dot)), trim)
  }

  ghost predicate LargestTrim(m: Maths, opts: Options, current: Vec, corner: Vec, next: Vec, trim: real)
    requires |current| == |corner| == |next|
  {
    CanTrim(m, opts, current, corner, next, trim) && forall any :: CanTrim(m, opts, current, corner, next, any) ==> any <= trim
  }

  /** There is a blend exactly where there is a trim, and its trim is the largest. */
  lemma BlendsExactly(m: Maths, opts: Options, current: Vec, corner: Vec, next: Vec)
    requires Faithful(m) && CurvatureRange(opts) && |current| == |corner| == |next|
    ensures match TryCreateBlend(m, opts, current, corner, next)
            case None => forall trim :: !CanTrim(m, opts, current, corner, next, trim)
            case Some(g) => LargestTrim(m, opts, current, corner, next, g.trim)
  {
    var k := CornerOf(m, current, corner, next);
    CornerDirections(m, current, corner, next);
    if 0.0 < opts.maxBlendDeviation && 0.0 < k.incoming && 0.0 < k.outgoing && -1.0 < k.dot < 1.0 {
      forall any
        ensures var blend := TryCreateBlend(m, opts, current, corner, next);
                var a := AnglesOf(m, m.acos(k.dot));
                (blend.Some? ==> Admissible(opts, k, a, blend.value.trim)) &&
                (Admissible(opts, k, a, any) ==> blend.Some? && any <= blend.value.trim)
      {
        hide *;
        BlendIsLargest(m, opts, current, corner, next, any);
      }
      hide TryCreateBlend, Faithful, CornerOf, AnglesOf, Admissible;
    } else {
      hide Faithful, AnglesOf, Related, Directions, Admissible, CornerArc, Normalized;
    }
  }

  /** The flags say which halves the trim takes. */
  lemma BlendFlags(m: Maths, opts: Options, current: Vec, corner: Vec, next: Vec)
    requires Faithful(m) && CurvatureRange(opts) && |current| == |corner| == |next|
    ensures var blend := TryCreateBlend(m, opts, current, corner, next);
            blend.Some? ==>
              (blend.value.takesHalfIncoming <==> blend.value.trim == m.norm(Sub(corner, current)) / 2.0) &&
              (blend.value.takesHalfOutgoing <==> blend.value.trim == m.norm(Sub(next, corner)) / 2.0)
  {
    hide Faithful, CornerArc, Radius, NaturalTrim, CurvatureCap, TooSharp, AnglesOf, Related, Dot, Normalized;
    CornerIsOpen(m, current, corner, next);
  }
}
