/** How near an arc runs to the corner it blends and to the corner's legs (path.cpp, `try_create_blend`): the
    deviation that is bounded halfway along is the least distance from the corner, and nowhere is the arc
    further than that from the leg it is nearer to. */
module BlendDistance {
  import opened Reals
  import opened Vectors
  import opened Blend

  ghost predicate Sized(arc: Arc, corner: Vec) {
    |corner| == |arc.center| == |arc.x| == |arc.y| && arc.radius != 0.0
  }

  /** No point of the arc, or of its circle, is nearer to the corner than the one a distance along. */
  ghost predicate NearestAt(m: Maths, arc: Arc, corner: Vec, near: real) {
    Sized(arc, corner) &&
    forall along :: m.norm(Sub(ArcAt(m, arc, near), corner)) <= m.norm(Sub(ArcAt(m, arc, along), corner))
  }

  ghost predicate Halfway(arc: Arc, along: real) {
    along == arc.radius * (arc.angle / 2.0)
  }

  // ----- the nearest point -----

  /** An arc point's offset from the corner, with the bisector's stretch and the radius apart. */
  lemma OffsetCombines(arc: Arc, corner: Vec, u: Vec, w: Vec, a: Angles, k: real, co: real, si: real, e: Vec)
    requires Shaped(arc, corner, u, w, a, k) && |u| == |w| == |corner| == |arc.center| == |arc.x| == |arc.y|
    requires Combines(e, co, arc.x, si, arc.y)
    ensures Combines(Sub(Around(arc, co, si), corner), k, Sub(w, u), arc.radius, e)
  {
    var v, d := Sub(Around(arc, co, si), corner), Sub(w, u);
    forall i | 0 <= i < |v|
      ensures v[i] == k * d[i] + arc.radius * e[i]
    {
      OffsetAt(arc.center[i], corner[i], arc.radius, arc.x[i], arc.y[i], co, si, k, d[i], e[i], v[i]);
    }
  }

  lemma OffsetAt(center: real, corner: real, radius: real, x: real, y: real, co: real, si: real, k: real, d: real, e: real, v: real)
    requires center == corner + k * d && e == co * x + si * y && v == center + radius * (x * co + y * si) - corner
    ensures v == k * d + radius * e
  {
    assert x * co + y * si == e;
  }

  function Radial(arc: Arc, co: real, si: real): (r: Vec)
    requires |arc.x| == |arc.y|
    ensures |r| == |arc.x| && Combines(r, co, arc.x, si, arc.y)
  {
    seq(|arc.x|, i requires 0 <= i < |arc.x| => co * arc.x[i] + si * arc.y[i])
  }

  lemma RadialIsUnit(arc: Arc, co: real, si: real)
    requires |arc.x| == |arc.y| && Dot(arc.x, arc.x) == 1.0 && Dot(arc.x, arc.y) == 0.0 && Dot(arc.y, arc.y) == 1.0
    requires co * co + si * si == 1.0
    ensures Dot(Radial(arc, co, si), Radial(arc, co, si)) == 1.0
  {
    var e := Radial(arc, co, si);
    hide Dot, Radial;
    SquareOfCombination(e, co, arc.x, si, arc.y);
    DotSymmetric(arc.x, arc.y);
    UnitSum(co, si, Dot(arc.x, e), Dot(arc.y, e), Dot(arc.x, arc.x), Dot(arc.y, arc.x), Dot(arc.y, arc.y), Dot(e, e));
  }

  lemma UnitSum(co: real, si: real, xe: real, ye: real, xx: real, yx: real, yy: real, ee: real)
    requires xx == 1.0 && yx == 0.0 && yy == 1.0 && co * co + si * si == 1.0
    requires xe == co * xx + si * yx && ye == co * yx + si * yy && ee == co * xe + si * ye
    ensures ee == 1.0
  {
    assert xe == co && ye == si;
  }

  /** The squared distance of k d + r e from the origin is at least (q - r)^2, for q^2 = k^2 d.d: the
      triangle inequality, squared. */
  lemma CircleIsAtLeast(v: Vec, k: real, d: Vec, r: real, e: Vec, q: real, far: Vec, dd: real)
    requires Combines(v, k, d, r, e) && Combines(far, k, d, q, e) && Dot(e, e) == 1.0 && dd == Dot(d, d)
    requires 0.0 < q && 0.0 <= r && q * q == k * k * dd
    ensures (q - r) * (q - r) <= Dot(v, v)
  {
    assert |v| == |d| == |e| == |far|;
    hide *;
    DotNonNegative(far);
    CombinedProducts(v, k, d, r, e, v);
    CombinedProducts(v, k, d, r, e, d);
    CombinedProducts(v, k, d, r, e, e);
    CombinedProducts(far, k, d, q, e, far);
    CombinedProducts(far, k, d, q, e, d);
    CombinedProducts(far, k, d, q, e, e);
    DotSymmetric(d, e);
    LeastSquare(k, r, q, dd, Dot(d, e), Dot(d, v), Dot(e, v), Dot(v, v), Dot(d, far), Dot(e, far), Dot(far, far));
  }

  lemma LeastSquare(k: real, r: real, q: real, dd: real, de: real, dv: real, ev: real, vv: real, df: real, ef: real, ff: real)
    requires 0.0 < q && 0.0 <= r && q * q == k * k * dd && 0.0 <= ff
    requires vv == Mul(k, dv) + Mul(r, ev) && dv == Mul(k, dd) + Mul(r, de) && ev == Mul(k, de) + Mul(r, 1.0)
    requires ff == Mul(k, df) + Mul(q, ef) && df == Mul(k, dd) + Mul(q, de) && ef == Mul(k, de) + Mul(q, 1.0)
    ensures (q - r) * (q - r) <= vv
  {
    var x: real :| x == k * de;
    PartSquare(k, r, dd, de, x, dv, ev, vv);
    PartSquare(k, q, dd, de, x, df, ef, ff);
    var y := q + x;
    assert ff == 2.0 * (q * y) by {
      assert q * y == q * q + q * x;
    }
    if y < 0.0 {
      MulPos(q, -y);
    }
    MulMono(-q, x, r);
    assert (q - r) * (q - r) == q * q - 2.0 * (q * r) + r * r;
  }

  lemma PartSquare(k: real, r: real, dd: real, de: real, x: real, dv: real, ev: real, vv: real)
    requires x == k * de
    requires vv == Mul(k, dv) + Mul(r, ev) && dv == Mul(k, dd) + Mul(r, de) && ev == Mul(k, de) + Mul(r, 1.0)
    ensures vv == k * k * dd + 2.0 * (r * x) + r * r
  {
    assert k * dv == k * k * dd + r * x by {
      assert k * (k * dd + r * de) == k * k * dd + r * (k * de);
    }
    assert r * ev == r * x + r * r by {
      assert ev == x + r;
    }
  }

  /** An arc as the blend of a corner makes it, with the factor k that fixes it. */
  ghost predicate Blends(m: Maths, arc: Arc, corner: Vec, u: Vec, w: Vec, a: Angles, trim: real, k: real) {
    Faithful(m) && Directions(u, w, a.cosine) && Shaped(arc, corner, u, w, a, k) && Scaling(k, a, arc.radius, trim) &&
    a == AnglesOf(m, arc.angle) && Acute(a) && Related(a) && 0.0 <= trim * a.tanQuarter &&
    |u| == |w| == |corner| == |arc.center| == |arc.x| == |arc.y| && 0.0 < arc.radius
  }

  /** The stretch and the radius, in terms of the half angle. */
  lemma Reach(a: Angles, radius: real, trim: real, k: real, dd: real) returns (q: real)
    requires Acute(a) && Related(a) && Scaling(k, a, radius, trim) && dd == 2.0 - 2.0 * a.cosine
    ensures q == 2.0 * (k * a.s) && 0.0 < q && q * q == k * k * dd && q - radius == trim * a.tanQuarter && radius == q * a.c
  {
    hide *;
    var h := k * (1.0 - a.c);
    TrimDeviation(a, radius, trim, k, h);
    HalfSquare(a);
    SineOfHalf(a, radius, trim, k);
    q := ReachArithmetic(k, a.s, a.c, radius, dd, a.sine, h, a.cosine, trim * a.tanQuarter);
  }

  lemma SineOfHalf(a: Angles, radius: real, trim: real, k: real)
    requires Acute(a) && Related(a) && Scaling(k, a, radius, trim)
    ensures 0.0 < k && 0.0 < a.s && 0.0 < a.c && 0.0 < radius && a.sine == 2.0 * a.s * a.c && k * a.sine == radius
  {
  }

  lemma ReachArithmetic(k: real, s: real, c: real, radius: real, dd: real, sine: real, h: real, cosine: real, n: real) returns (q: real)
    requires 0.0 < k && 0.0 < s && dd == 2.0 - 2.0 * cosine && 1.0 - cosine == 2.0 * (s * s) && sine == 2.0 * s * c
    requires k * sine == radius && h == k * (1.0 - c) && n == 2.0 * (h * s)
    ensures q == 2.0 * (k * s) && 0.0 < q && q * q == k * k * dd && radius == q * c && q - radius == n
  {
    var x := k * s;
    MulPos(k, s);
    q := 2.0 * x;
    assert k * sine == 2.0 * (x * c);
    assert x * x == k * k * (s * s);
    assert h * s == x - x * c;
  }

  lemma AtLeastMiddle(m: Maths, arc: Arc, corner: Vec, u: Vec, w: Vec, a: Angles, trim: real, k: real, co: real, si: real)
    requires Blends(m, arc, corner, u, w, a, trim, k) && co * co + si * si == 1.0
    ensures trim * a.tanQuarter <= m.norm(Sub(Around(arc, co, si), corner))
  {
    var v, d, e := Sub(Around(arc, co, si), corner), Sub(w, u), Radial(arc, co, si);
    hide Dot, Shaped, Scaling, Related, Acute, Directions, AnglesOf, Radial, Around;
    BisectorSquare(u, w, a.cosine);
    ArcBasis(arc, corner, u, w, a, k);
    RadialIsUnit(arc, co, si);
    OffsetCombines(arc, corner, u, w, a, k, co, si, e);
    var dd: real :| dd == Dot(d, d);
    var q := Reach(a, arc.radius, trim, k, dd);
    var far := Add(Scale(k, d), Scale(q, e));
    assert Combines(far, k, d, q, e) && NormIsRoot(m, v) && 0.0 < arc.radius;
    assert 0.0 <= q - arc.radius;
    hide *;
    CircleIsAtLeast(v, k, d, arc.radius, e, q, far, dd);
    NormAtLeast(m, v, q - arc.radius);
  }

  lemma NormAtLeast(m: Maths, v: Vec, n: real)
    requires NormIsRoot(m, v) && 0.0 <= n && n * n <= Dot(v, v)
    ensures n <= m.norm(v)
  {
    SquareMono(n, m.norm(v));
  }

  lemma MiddleIsNearest(m: Maths, arc: Arc, corner: Vec, u: Vec, w: Vec, a: Angles, trim: real, k: real, half: real)
    requires Blends(m, arc, corner, u, w, a, trim, k) && Halfway(arc, half)
    ensures NearestAt(m, arc, corner, half)
  {
    hide Dot, Shaped, Scaling, Related, Acute, Directions, AnglesOf, Around, Faithful;
    MidwayDistance(m, arc, corner, u, w, a, trim, k, half);
    forall along
      ensures m.norm(Sub(ArcAt(m, arc, half), corner)) <= m.norm(Sub(ArcAt(m, arc, along), corner))
    {
      var t := along / arc.radius;
      OnCircle(m, t);
      var co, si := m.cos(t), m.sin(t);
      assert ArcAt(m, arc, along) == Around(arc, co, si);
      AtLeastMiddle(m, arc, corner, u, w, a, trim, k, co, si);
    }
  }

  lemma MidwayDistance(m: Maths, arc: Arc, corner: Vec, u: Vec, w: Vec, a: Angles, trim: real, k: real, half: real)
    requires Blends(m, arc, corner, u, w, a, trim, k) && half == arc.radius * (arc.angle / 2.0)
    ensures m.norm(Sub(ArcAt(m, arc, half), corner)) == trim * a.tanQuarter
  {
    hide Dot, Shaped, Scaling, Related, Acute, Directions, AnglesOf, Faithful, ArcAt;
    MiddleIsNear(m, arc, corner, u, w, a, trim, k);
  }

  lemma OnCircle(m: Maths, t: real)
    requires Faithful(m)
    ensures m.cos(t) * m.cos(t) + m.sin(t) * m.sin(t) == 1.0
  {
    assert OnUnitCircle(m, t);
  }

  // ----- the legs -----

  ghost predicate InBudget(opts: Options, a: Angles, trim: real) {
    trim * a.tanQuarter <= opts.maxBlendDeviation
  }

  /** A point up to halfway from an end, by the cosine and sine of its angle from there, and what is left of the
      trim beside it. */
  ghost predicate UpToHalf(c: real, radius: real, trim: real, co: real, si: real, left: real) {
    co * co + si * si == 1.0 && c <= co && 0.0 <= si && left == trim - radius * si
  }

  /** How far a radius falls short of its own length in the direction it started in. */
  ghost predicate FallsShort(g: real, radius: real, co: real) {
    g == radius * (co - 1.0)
  }

  /** Up to halfway from either end, an arc point is no further than the budget from the point of the leg there
      that lies as far in. The point is given by the cosine and sine of its angle from that end. */
  ghost predicate HugsLegs(m: Maths, opts: Options, corner: Vec, u: Vec, w: Vec, arc: Arc, trim: real) {
    Sized(arc, corner) && |u| == |w| == |corner| &&
    forall co, si, left, back, up ::
      UpToHalf(m.cos(arc.angle / 2.0), arc.radius, trim, co, si, left) &&
      Mirrors(m.cos(arc.angle), m.sin(arc.angle), co, si, back, up) ==>
        BesideLegs(m, opts, corner, u, w, arc, trim, co, si, left, back, up)
  }

  /** The same angle taken back from an end at cosine d and sine e. */
  ghost predicate Mirrors(d: real, e: real, co: real, si: real, back: real, up: real) {
    back == d * co + e * si && up == e * co - d * si
  }

  ghost predicate BesideLegs(m: Maths, opts: Options, corner: Vec, u: Vec, w: Vec, arc: Arc, trim: real, co: real, si: real,
                             left: real, back: real, up: real)
    requires Sized(arc, corner) && |u| == |w| == |corner|
  {
    0.0 <= left <= trim &&
    m.norm(Sub(Around(arc, co, si), Sub(corner, Scale(left, u)))) <= opts.maxBlendDeviation &&
    m.norm(Sub(Around(arc, back, up), Add(corner, Scale(left, w)))) <= opts.maxBlendDeviation
  }

  /** A leg's foot is within reach: the cosine is at least that of the half angle. */
  lemma FootArithmetic(a: Angles, radius: real, trim: real, k: real, co: real, si: real, left: real, q: real, dev: real) returns (g: real)
    requires Acute(a) && Related(a) && Scaling(k, a, radius, trim) && UpToHalf(a.c, radius, trim, co, si, left)
    requires q == 2.0 * (k * a.s) && 0.0 < q && q - radius == dev && radius == q * a.c
    ensures FallsShort(g, radius, co) && g <= 0.0 && -g <= dev && 0.0 <= left <= trim
  {
    SineOfHalf(a, radius, trim, k);
    HalfOnCircle(a, radius, trim, k);
    HalfSquare(a);
    hide Acute, Related, Scaling;
    SineIsLess(co, si, a.c, a.s);
    FootBounds(k, a.s, a.c, radius, trim, co, si, q, a.cosine);
    g := radius * (co - 1.0);
    assert -g == radius * (1.0 - co);
  }

  lemma HalfOnCircle(a: Angles, radius: real, trim: real, k: real)
    requires Related(a) && Scaling(k, a, radius, trim)
    ensures a.c * a.c + a.s * a.s == 1.0 && k * (1.0 - a.cosine) == trim
  {
  }

  lemma SineIsLess(co: real, si: real, c: real, s: real)
    requires co * co + si * si == 1.0 && c * c + s * s == 1.0 && 0.0 < c <= co && 0.0 <= si && 0.0 < s
    ensures si <= s && co <= 1.0 && c <= 1.0
  {
    SquareMono(c, co);
    SquareMono(si, s);
    SquareMono(co, 1.0);
    SquareMono(c, 1.0);
    SquareIsPositive(si);
    SquareIsPositive(s);
  }

  lemma FootBounds(k: real, s: real, c: real, radius: real, trim: real, co: real, si: real, q: real, cosine: real)
    requires 0.0 < k && 0.0 < s && 0.0 < c <= co <= 1.0 && 0.0 <= si <= s && q == 2.0 * (k * s) && radius == q * c
    requires 0.0 < radius && 0.0 < q && k * (1.0 - cosine) == trim && 1.0 - cosine == 2.0 * (s * s)
    ensures 0.0 <= trim - radius * si <= trim && 0.0 <= radius * (1.0 - co) <= q - radius
  {
    assert trim == q * s by { assert k * (2.0 * (s * s)) == 2.0 * (k * s) * s; }
    MulMono(si, s, radius);
    MulMono(0.0, si, radius);
    MulMono(c, 1.0, q);
    MulMono(radius, q, s);
    MulMono(0.0, 1.0 - co, radius);
    MulMono(1.0 - co, 1.0 - c, radius);
    MulMono(radius, q, 1.0 - c);
    assert q * (1.0 - c) == q - q * c;
  }

  lemma ScaledNorm(m: Maths, v: Vec, g: real, x: Vec)
    requires NormIsRoot(m, v) && |v| == |x| && Dot(x, x) == 1.0 && g <= 0.0 && forall i :: 0 <= i < |v| ==> v[i] == g * x[i]
    ensures m.norm(v) == -g
  {
    assert v == Scale(g, x);
    hide Dot;
    DotScaled(g, x, v);
    DotScaled(g, x, x);
    DotSymmetric(x, v);
    var n: real :| n == Dot(v, v);
    assert n == g * g by { OnceMore(g, Dot(x, v), n); }
    hide *;
    RootIs(m.norm(v), -g, n);
  }

  lemma OnceMore(g: real, xv: real, n: real)
    requires xv == Mul(g, 1.0) && n == Mul(g, xv)
    ensures n == g * g
  {
  }

  lemma RootIs(r: real, n: real, square: real)
    requires 0.0 <= r && 0.0 <= n && r * r == square && n * n == square
    ensures r == n
  {
    SquareMono(r, n);
    SquareMono(n, r);
  }

  lemma FirstFootAt(center: real, corner: real, radius: real, x: real, u: real, c: real, co: real, si: real, trim: real, left: real,
                    g: real, from: real, at: real, v: real)
    requires from == center + radius * (x * 1.0 + u * 0.0) && from == corner - trim * u && UpToHalf(c, radius, trim, co, si, left)
    requires at == center + radius * (x * co + u * si) && v == at - (corner - left * u) && FallsShort(g, radius, co)
    ensures v == g * x
  {
    assert radius * (x * co + u * si) == radius * co * x + radius * si * u;
    assert left * u == trim * u - radius * si * u;
    assert g * x == radius * co * x - radius * x;
  }

  lemma LastFootAt(center: real, corner: real, radius: real, x: real, u: real, w: real, c: real, d: real, sine: real, co: real, si: real,
                   back: real, up: real, trim: real, left: real, g: real, e: real, to: real, at: real, v: real)
    requires to == center + radius * (x * d + u * sine) && to == corner + trim * w && w == -x * sine + u * d
    requires e == d * x + sine * u && Mirrors(d, sine, co, si, back, up) && UpToHalf(c, radius, trim, co, si, left)
    requires at == center + radius * (x * back + u * up) && v == at - (corner + left * w) && FallsShort(g, radius, co)
    ensures v == g * e
  {
    TurnedBack(x, u, w, d, sine, co, si, back, up, e);
    assert x * d + u * sine == e;
    assert radius * (co * e - si * w) == radius * co * e - radius * si * w;
    assert left * w == trim * w - radius * si * w;
    assert g * e == radius * co * e - radius * e;
  }

  lemma TurnedBack(x: real, u: real, w: real, d: real, sine: real, co: real, si: real, back: real, up: real, e: real)
    requires w == -x * sine + u * d && e == d * x + sine * u && Mirrors(d, sine, co, si, back, up)
    ensures x * back + u * up == co * e - si * w
  {
    assert x * back == x * d * co + x * sine * si;
    assert u * up == u * sine * co - u * d * si;
    assert co * e == x * d * co + u * sine * co;
    assert si * w == -(x * sine * si) + u * d * si;
  }

  lemma FirstFoot(arc: Arc, corner: Vec, u: Vec, trim: real, c: real, co: real, si: real, left: real, g: real, from: Vec, at: Vec, v: Vec)
    requires Sized(arc, corner) && |u| == |corner| && arc.y == u && from == Around(arc, 1.0, 0.0) && from == Sub(corner, Scale(trim, u))
    requires UpToHalf(c, arc.radius, trim, co, si, left) && FallsShort(g, arc.radius, co)
    requires at == Around(arc, co, si) && v == Sub(at, Sub(corner, Scale(left, u)))
    ensures forall i :: 0 <= i < |v| ==> v[i] == g * arc.x[i]
  {
    hide UpToHalf, FallsShort;
    forall i | 0 <= i < |v|
      ensures v[i] == g * arc.x[i]
    {
      FirstFootAt(arc.center[i], corner[i], arc.radius, arc.x[i], u[i], c, co, si, trim, left, g, from[i], at[i], v[i]);
    }
  }

  lemma LastFoot(arc: Arc, corner: Vec, u: Vec, w: Vec, trim: real, c: real, d: real, sine: real, co: real, si: real, back: real, up: real,
                 left: real, g: real, e: Vec, to: Vec, at: Vec, v: Vec)
    requires Sized(arc, corner) && |u| == |w| == |corner| && arc.y == u && w == Heading(arc, d, sine) && e == Radial(arc, d, sine)
    requires to == Around(arc, d, sine) && to == Add(corner, Scale(trim, w)) && Mirrors(d, sine, co, si, back, up)
    requires UpToHalf(c, arc.radius, trim, co, si, left) && FallsShort(g, arc.radius, co)
    requires at == Around(arc, back, up) && v == Sub(at, Add(corner, Scale(left, w)))
    ensures forall i :: 0 <= i < |v| ==> v[i] == g * e[i]
  {
    hide UpToHalf, FallsShort, Mirrors, Around, Heading, Radial;
    forall i: nat | i < |v|
      ensures v[i] == g * e[i]
    {
      LastFootOf(arc, corner, u, w, trim, c, d, sine, co, si, back, up, left, g, e[i], to[i], at[i], v[i], i);
    }
  }

  lemma LastFootOf(arc: Arc, corner: Vec, u: Vec, w: Vec, trim: real, c: real, d: real, sine: real, co: real, si: real, back: real, up: real,
                   left: real, g: real, e: real, to: real, at: real, v: real, i: nat)
    requires Sized(arc, corner) && |u| == |w| == |corner| && arc.y == u && i < |u| && w[i] == Heading(arc, d, sine)[i]
    requires e == Radial(arc, d, sine)[i] && to == Around(arc, d, sine)[i] && to == corner[i] + trim * w[i]
    requires Mirrors(d, sine, co, si, back, up) && UpToHalf(c, arc.radius, trim, co, si, left) && FallsShort(g, arc.radius, co)
    requires at == Around(arc, back, up)[i] && v == at - (corner[i] + left * w[i])
    ensures v == g * e
  {
    hide UpToHalf, FallsShort, Mirrors;
    LastFootAt(arc.center[i], corner[i], arc.radius, arc.x[i], u[i], w[i], c, d, sine, co, si, back, up, trim, left, g, e, to, at, v);
  }

  lemma StaysByLegs(m: Maths, opts: Options, arc: Arc, corner: Vec, u: Vec, w: Vec, a: Angles, trim: real, k: real)
    requires Blends(m, arc, corner, u, w, a, trim, k) && InBudget(opts, a, trim)
    ensures HugsLegs(m, opts, corner, u, w, arc, trim)
  {
    hide Faithful, Directions, Shaped, Scaling, Related, Acute, Mirrors, BesideLegs;
    forall co, si, left, back, up |
      UpToHalf(m.cos(arc.angle / 2.0), arc.radius, trim, co, si, left) &&
      Mirrors(m.cos(arc.angle), m.sin(arc.angle), co, si, back, up)
      ensures BesideLegs(m, opts, corner, u, w, arc, trim, co, si, left, back, up)
    {
      BesideAt(m, opts, arc, corner, u, w, a, trim, k, co, si, left, back, up);
    }
  }

  lemma BesideAt(m: Maths, opts: Options, arc: Arc, corner: Vec, u: Vec, w: Vec, a: Angles, trim: real, k: real, co: real, si: real,
                 left: real, back: real, up: real)
    requires Blends(m, arc, corner, u, w, a, trim, k) && InBudget(opts, a, trim)
    requires UpToHalf(a.c, arc.radius, trim, co, si, left)
    requires Mirrors(a.cosine, a.sine, co, si, back, up)
    ensures BesideLegs(m, opts, corner, u, w, arc, trim, co, si, left, back, up)
  {
    hide *;
    OpenBlend(m, arc, corner, u, w, a, trim, k);
    var g := BesideReach(opts, arc.radius, a, trim, k, co, si, left);
    ArcBasis(arc, corner, u, w, a, k);
    StartPoint(arc, corner, u, w, a, trim, k, 1.0, 0.0);
    EndPoint(arc, corner, u, w, a, trim, k, a.cosine, a.sine);
    EndRadial(arc, a);
    var first, last := Around(arc, co, si), Around(arc, back, up);
    var v, z := Sub(first, Sub(corner, Scale(left, u))), Sub(last, Add(corner, Scale(left, w)));
    RootsOf(m, v, z);
    FirstFoot(arc, corner, u, trim, a.c, co, si, left, g, Around(arc, 1.0, 0.0), first, v);
    LastFoot(arc, corner, u, w, trim, a.c, a.cosine, a.sine, co, si, back, up, left, g, Radial(arc, a.cosine, a.sine),
             Around(arc, a.cosine, a.sine), last, z);
    ScaledNorm(m, v, g, arc.x);
    ScaledNorm(m, z, g, Radial(arc, a.cosine, a.sine));
    BesideFold(m, opts, corner, u, w, arc, trim, co, si, left, back, up);
  }

  lemma BesideReach(opts: Options, radius: real, a: Angles, trim: real, k: real, co: real, si: real, left: real) returns (g: real)
    requires Acute(a) && Related(a) && Scaling(k, a, radius, trim) && UpToHalf(a.c, radius, trim, co, si, left) && InBudget(opts, a, trim)
    ensures FallsShort(g, radius, co) && g <= 0.0 && -g <= opts.maxBlendDeviation && 0.0 <= left <= trim
  {
    hide UpToHalf, Acute, Related, Scaling, FallsShort;
    var q := Reach(a, radius, trim, k, 2.0 - 2.0 * a.cosine);
    g := FootArithmetic(a, radius, trim, k, co, si, left, q, trim * a.tanQuarter);
  }

  /** The parts of a blend that its distances rest on. */
  lemma OpenBlend(m: Maths, arc: Arc, corner: Vec, u: Vec, w: Vec, a: Angles, trim: real, k: real)
    requires Blends(m, arc, corner, u, w, a, trim, k)
    ensures |u| == |w| == |corner| == |arc.center| == |arc.x| == |arc.y| && 0.0 < arc.radius && arc.y == u && Sized(arc, corner)
    ensures Acute(a) && Related(a) && Scaling(k, a, arc.radius, trim) && Shaped(arc, corner, u, w, a, k) && Faithful(m)
    ensures Directions(u, w, a.cosine)
  {
    hide Faithful, Directions, Scaling, Related, Acute, AnglesOf;
  }

  lemma EndRadial(arc: Arc, a: Angles)
    requires |arc.x| == |arc.y| && Dot(arc.x, arc.x) == 1.0 && Dot(arc.x, arc.y) == 0.0 && Dot(arc.y, arc.y) == 1.0
    requires Acute(a) && Related(a)
    ensures Dot(Radial(arc, a.cosine, a.sine), Radial(arc, a.cosine, a.sine)) == 1.0
  {
    hide Dot, Radial;
    UnitCircle(a);
    RadialIsUnit(arc, a.cosine, a.sine);
  }

  lemma RootsOf(m: Maths, v: Vec, z: Vec)
    requires Faithful(m)
    ensures NormIsRoot(m, v) && NormIsRoot(m, z)
  {
  }

  lemma BesideFold(m: Maths, opts: Options, corner: Vec, u: Vec, w: Vec, arc: Arc, trim: real, co: real, si: real, left: real,
                   back: real, up: real)
    requires Sized(arc, corner) && |u| == |w| == |corner| && 0.0 <= left <= trim
    requires m.norm(Sub(Around(arc, co, si), Sub(corner, Scale(left, u)))) <= opts.maxBlendDeviation
    requires m.norm(Sub(Around(arc, back, up), Add(corner, Scale(left, w)))) <= opts.maxBlendDeviation
    ensures BesideLegs(m, opts, corner, u, w, arc, trim, co, si, left, back, up)
  {
  }

  // ----- every blend -----

  lemma MakesBlend(m: Maths, opts: Options, k: Corner, corner: Vec, angle: real, a: Angles, trim: real, arc: Arc) returns (factor: real)
    requires Faithful(m) && Directions(k.u, k.w, a.cosine) && |corner| == |k.u| == |k.w|
    requires 0.0 < angle && a == AnglesOf(m, angle) && Acute(a) && Related(a) && m.cos(angle / 2.0) != 0.0
    requires Admissible(opts, k, a, trim)
    requires arc == CornerArc(m, corner, k.u, k.w, trim, Radius(trim, a), angle)
    ensures Blends(m, arc, corner, k.u, k.w, a, trim, factor) && InBudget(opts, a, trim)
  {
    hide Faithful, Directions, AnglesOf, Acute, Related, Admissible, CornerArc, Radius, Scaling, Shaped, Dot;
    assert arc.angle == angle && arc.radius == Radius(trim, a) && arc.y == k.u;
    factor := ArcFactor(opts, k, a, trim, arc);
    ArcShape(m, corner, k.u, k.w, a, angle, trim, arc.radius, factor);
  }

  /** Of every blend the point halfway along is the nearest to the corner, and up to there from either end the arc
      stays within the deviation budget of that end's leg. */
  lemma BlendStaysNear(m: Maths, opts: Options, current: Vec, corner: Vec, next: Vec, half: real)
    requires Faithful(m) && CurvatureRange(opts) && |current| == |corner| == |next|
    requires var blend := TryCreateBlend(m, opts, current, corner, next);
             blend.Some? ==> Halfway(blend.value.arc, half)
    ensures var k, blend := CornerOf(m, current, corner, next), TryCreateBlend(m, opts, current, corner, next);
            blend.Some? ==>
              NearestAt(m, blend.value.arc, corner, half) && HugsLegs(m, opts, corner, k.u, k.w, blend.value.arc, blend.value.trim)
  {
    var k, blend := CornerOf(m, current, corner, next), TryCreateBlend(m, opts, current, corner, next);
    if blend.Some? {
      var arc, trim := blend.value.arc, blend.value.trim;
      hide *;
      var a, factor := MadeBlend(m, opts, current, corner, next);
      MiddleIsNearest(m, arc, corner, k.u, k.w, a, trim, factor, half);
      StaysByLegs(m, opts, arc, corner, k.u, k.w, a, trim, factor);
    }
  }

  lemma MadeBlend(m: Maths, opts: Options, current: Vec, corner: Vec, next: Vec) returns (a: Angles, factor: real)
    requires Faithful(m) && CurvatureRange(opts) && |current| == |corner| == |next| && TryCreateBlend(m, opts, current, corner, next).Some?
    ensures var k, g := CornerOf(m, current, corner, next), TryCreateBlend(m, opts, current, corner, next).value;
            Blends(m, g.arc, corner, k.u, k.w, a, g.trim, factor) && InBudget(opts, a, g.trim)
  {
    var k, g := CornerOf(m, current, corner, next), TryCreateBlend(m, opts, current, corner, next).value;
    var angle := m.acos(k.dot);
    a := AnglesOf(m, angle);
    CornerIsOpen(m, current, corner, next);
    hide Faithful, CornerOf, Related, AnglesOf, CornerArc, Radius, NaturalTrim, CurvatureCap, TooSharp, Blends, InBudget, Acute, Admissible;
    CornerDirections(m, current, corner, next);
    TrimIsAdmissible(opts, k, a);
    factor := MakesBlend(m, opts, k, corner, angle, a, g.trim, g.arc);
  }
}
