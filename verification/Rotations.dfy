/** The vector and quaternion helpers of the kinematic chain (kinematics/chain.cpp), and why they are
    rotations. */
module Rotations {
  import opened Reals

  datatype V3 = V3(x: real, y: real, z: real)

  const Zero3 := V3(0.0, 0.0, 0.0)

  function Plus(a: V3, b: V3): V3 {
    V3(a.x + b.x, a.y + b.y, a.z + b.z)
  }

  function Minus(a: V3, b: V3): V3 {
    V3(a.x - b.x, a.y - b.y, a.z - b.z)
  }

  function Times(k: real, a: V3): V3 {
    V3(k * a.x, k * a.y, k * a.z)
  }

  function Dot3(a: V3, b: V3): real {
    a.x * b.x + a.y * b.y + a.z * b.z
  }

  function Cross(a: V3, b: V3): V3 {
    V3(a.y * b.z - a.z * b.y, a.z * b.x - a.x * b.z, a.x * b.y - a.y * b.x)
  }

  /** Hamilton quaternions. */
  datatype Quat = Quat(w: real, x: real, y: real, z: real)

  const Identity := Quat(1.0, 0.0, 0.0, 0.0)

  function Multiply(a: Quat, b: Quat): Quat {
    Quat(a.w * b.w - a.x * b.x - a.y * b.y - a.z * b.z,
         a.w * b.x + a.x * b.w + a.y * b.z - a.z * b.y,
         a.w * b.y - a.x * b.z + a.y * b.w + a.z * b.x,
         a.w * b.z + a.x * b.y - a.y * b.x + a.z * b.w)
  }

  /** `rotate`, without forming quaternion products: v is moved along, and then around, twice its cross
      product with the quaternion's vector part. */
  function Rotate(q: Quat, v: V3): V3 {
    var u := V3(q.x, q.y, q.z);
    var t := Times(2.0, Cross(u, v));
    Plus(Plus(v, Times(q.w, t)), Cross(u, t))
  }

  function NormSq(q: Quat): real {
    q.w * q.w + q.x * q.x + q.y * q.y + q.z * q.z
  }

  ghost predicate Unit(q: Quat) {
    NormSq(q) == 1.0
  }

  function Conjugate(q: Quat): Quat {
    Quat(q.w, -q.x, -q.y, -q.z)
  }

  function Pure(v: V3): Quat {
    Quat(0.0, v.x, v.y, v.z)
  }

  // ----- the sandwich -----

  // The identities are proved over named products of reals with their meaning hidden, so that each
  // is a linear fact.

  ghost predicate IsProduct(p: Quat, a: Quat, b: Quat) {
    p.w == Mul(a.w, b.w) - Mul(a.x, b.x) - Mul(a.y, b.y) - Mul(a.z, b.z) &&
    p.x == Mul(a.w, b.x) + Mul(a.x, b.w) + Mul(a.y, b.z) - Mul(a.z, b.y) &&
    p.y == Mul(a.w, b.y) - Mul(a.x, b.z) + Mul(a.y, b.w) + Mul(a.z, b.x) &&
    p.z == Mul(a.w, b.z) + Mul(a.x, b.y) - Mul(a.y, b.x) + Mul(a.z, b.w)
  }

  lemma ProductIs(a: Quat, b: Quat)
    ensures IsProduct(Multiply(a, b), a, b)
  {
    ProductsWith(a.w, b);
    ProductsWith(a.x, b);
    ProductsWith(a.y, b);
    ProductsWith(a.z, b);
    hide Mul;
  }

  lemma ProductsWith(k: real, b: Quat)
    ensures Mul(k, b.w) == k * b.w && Mul(k, b.x) == k * b.x && Mul(k, b.y) == k * b.y && Mul(k, b.z) == k * b.z
  {
  }

  lemma MultiplyAssociative(a: Quat, b: Quat, c: Quat)
    ensures Multiply(Multiply(a, b), c) == Multiply(a, Multiply(b, c))
  {
    var ab, bc := Multiply(a, b), Multiply(b, c);
    hide *;
    ProductIs(a, b);
    ProductIs(b, c);
    ProductIs(ab, c);
    ProductIs(a, bc);
    Associate(a, b, c, ab, bc, Multiply(ab, c), Multiply(a, bc));
  }

  lemma Associate(a: Quat, b: Quat, c: Quat, ab: Quat, bc: Quat, p: Quat, q: Quat)
    requires IsProduct(ab, a, b) && IsProduct(bc, b, c) && IsProduct(p, ab, c) && IsProduct(q, a, bc)
    ensures p == q
  {
    hide *;
    AssociateW(a, b, c, ab, bc, p, q);
    AssociateX(a, b, c, ab, bc, p, q);
    AssociateY(a, b, c, ab, bc, p, q);
    AssociateZ(a, b, c, ab, bc, p, q);
  }

  // A product of two quaternions times a further component, on either side, in one normal form.

  lemma SpreadW(p: real, aw: real, ax: real, ay: real, az: real, bw: real, bx: real, by_: real, bz: real, k: real)
    requires p == Mul(aw, bw) - Mul(ax, bx) - Mul(ay, by_) - Mul(az, bz)
    ensures Mul(p, k) == Mul3(aw, bw, k) - Mul3(ax, bx, k) - Mul3(ay, by_, k) - Mul3(az, bz, k)
    ensures Mul(k, p) == Mul3(k, aw, bw) - Mul3(k, ax, bx) - Mul3(k, ay, by_) - Mul3(k, az, bz)
  {
    var w, x, y, z := Mul(aw, bw), Mul(ax, bx), Mul(ay, by_), Mul(az, bz);
    Bracket(aw, bw, k);
    Bracket(ax, bx, k);
    Bracket(ay, by_, k);
    Bracket(az, bz, k);
    hide Mul, Mul3;
    FourProducts(w, -x, -y, z, k);
    Opposite(x, k);
    Opposite(y, k);
  }

  lemma Opposite(x: real, k: real)
    ensures Mul(-x, k) == -Mul(x, k) && Mul(k, -x) == -Mul(k, x)
  {
  }

  lemma SpreadV(p: real, a0: real, b0: real, a1: real, b1: real, a2: real, b2: real, a3: real, b3: real, k: real)
    requires p == Mul(a0, b0) + Mul(a1, b1) + Mul(a2, b2) - Mul(a3, b3)
    ensures Mul(p, k) == Mul3(a0, b0, k) + Mul3(a1, b1, k) + Mul3(a2, b2, k) - Mul3(a3, b3, k)
    ensures Mul(k, p) == Mul3(k, a0, b0) + Mul3(k, a1, b1) + Mul3(k, a2, b2) - Mul3(k, a3, b3)
  {
    var x0, x1, x2, x3 := Mul(a0, b0), Mul(a1, b1), Mul(a2, b2), Mul(a3, b3);
    Bracket(a0, b0, k);
    Bracket(a1, b1, k);
    Bracket(a2, b2, k);
    Bracket(a3, b3, k);
    hide Mul, Mul3;
    FourProducts(x0, x1, x2, x3, k);
  }

  lemma FourProducts(x0: real, x1: real, x2: real, x3: real, k: real)
    ensures Mul(x0 + x1 + x2 - x3, k) == Mul(x0, k) + Mul(x1, k) + Mul(x2, k) - Mul(x3, k)
    ensures Mul(k, x0 + x1 + x2 - x3) == Mul(k, x0) + Mul(k, x1) + Mul(k, x2) - Mul(k, x3)
  {
    hide Mul;
    Expand(k, x0, x1);
    Expand(k, x0 + x1, x2);
    Expand(k, x0 + x1 + x2, x3);
    Commute(k, x0);
    Commute(k, x1);
    Commute(k, x2);
    Commute(k, x3);
    Commute(k, x0 + x1 + x2 - x3);
  }

  lemma SpreadT(t: real, a0: real, b0: real, a1: real, b1: real, k: real)
    requires t == 2.0 * (Mul(a0, b0) - Mul(a1, b1))
    ensures Mul(k, t) == 2.0 * Mul3(a0, b0, k) - 2.0 * Mul3(a1, b1, k)
  {
  }

  lemma SpreadOne(q: Quat, v: real)
    requires Unit(q)
    ensures Mul3(q.w, v, q.w) + Mul3(q.x, v, q.x) + Mul3(q.y, v, q.y) + Mul3(q.z, v, q.z) == v
  {
    assert NormSq(q) * v == v;
  }

  lemma Swap(x: real, v: real, y: real)
    ensures Mul3(x, v, y) == Mul3(y, v, x)
  {
  }

  lemma Nothing(x: real, y: real)
    ensures Mul3(x, 0.0, y) == 0.0
  {
  }

  lemma Swaps(q: Quat, v: real)
    ensures Mul3(q.w, v, q.x) == Mul3(q.x, v, q.w) && Mul3(q.w, v, q.y) == Mul3(q.y, v, q.w) && Mul3(q.w, v, q.z) == Mul3(q.z, v, q.w)
    ensures Mul3(q.x, v, q.y) == Mul3(q.y, v, q.x) && Mul3(q.x, v, q.z) == Mul3(q.z, v, q.x) && Mul3(q.y, v, q.z) == Mul3(q.z, v, q.y)
  {
    Swap(q.w, v, q.x);
    Swap(q.w, v, q.y);
    Swap(q.w, v, q.z);
    Swap(q.x, v, q.y);
    Swap(q.x, v, q.z);
    Swap(q.y, v, q.z);
  }

  lemma AssociateW(a: Quat, b: Quat, c: Quat, ab: Quat, bc: Quat, p: Quat, q: Quat)
    requires IsProduct(ab, a, b) && IsProduct(bc, b, c) && IsProduct(p, ab, c) && IsProduct(q, a, bc)
    ensures p.w == q.w
  {
    hide Mul, Mul3;
    SpreadW(ab.w, a.w, a.x, a.y, a.z, b.w, b.x, b.y, b.z, c.w);
    SpreadV(ab.x, a.w, b.x, a.x, b.w, a.y, b.z, a.z, b.y, c.x);
    SpreadV(ab.y, a.w, b.y, a.y, b.w, a.z, b.x, a.x, b.z, c.y);
    SpreadV(ab.z, a.w, b.z, a.x, b.y, a.z, b.w, a.y, b.x, c.z);
    SpreadW(bc.w, b.w, b.x, b.y, b.z, c.w, c.x, c.y, c.z, a.w);
    SpreadV(bc.x, b.w, c.x, b.x, c.w, b.y, c.z, b.z, c.y, a.x);
    SpreadV(bc.y, b.w, c.y, b.y, c.w, b.z, c.x, b.x, c.z, a.y);
    SpreadV(bc.z, b.w, c.z, b.x, c.y, b.z, c.w, b.y, c.x, a.z);
  }

  lemma AssociateX(a: Quat, b: Quat, c: Quat, ab: Quat, bc: Quat, p: Quat, q: Quat)
    requires IsProduct(ab, a, b) && IsProduct(bc, b, c) && IsProduct(p, ab, c) && IsProduct(q, a, bc)
    ensures p.x == q.x
  {
    hide Mul, Mul3;
    SpreadW(ab.w, a.w, a.x, a.y, a.z, b.w, b.x, b.y, b.z, c.x);
    SpreadV(ab.x, a.w, b.x, a.x, b.w, a.y, b.z, a.z, b.y, c.w);
    SpreadV(ab.y, a.w, b.y, a.y, b.w, a.z, b.x, a.x, b.z, c.z);
    SpreadV(ab.z, a.w, b.z, a.x, b.y, a.z, b.w, a.y, b.x, c.y);
    SpreadV(bc.x, b.w, c.x, b.x, c.w, b.y, c.z, b.z, c.y, a.w);
    SpreadW(bc.w, b.w, b.x, b.y, b.z, c.w, c.x, c.y, c.z, a.x);
    SpreadV(bc.z, b.w, c.z, b.x, c.y, b.z, c.w, b.y, c.x, a.y);
    SpreadV(bc.y, b.w, c.y, b.y, c.w, b.z, c.x, b.x, c.z, a.z);
  }

  lemma AssociateY(a: Quat, b: Quat, c: Quat, ab: Quat, bc: Quat, p: Quat, q: Quat)
    requires IsProduct(ab, a, b) && IsProduct(bc, b, c) && IsProduct(p, ab, c) && IsProduct(q, a, bc)
    ensures p.y == q.y
  {
    hide Mul, Mul3;
    SpreadW(ab.w, a.w, a.x, a.y, a.z, b.w, b.x, b.y, b.z, c.y);
    SpreadV(ab.x, a.w, b.x, a.x, b.w, a.y, b.z, a.z, b.y, c.z);
    SpreadV(ab.y, a.w, b.y, a.y, b.w, a.z, b.x, a.x, b.z, c.w);
    SpreadV(ab.z, a.w, b.z, a.x, b.y, a.z, b.w, a.y, b.x, c.x);
    SpreadV(bc.y, b.w, c.y, b.y, c.w, b.z, c.x, b.x, c.z, a.w);
    SpreadV(bc.z, b.w, c.z, b.x, c.y, b.z, c.w, b.y, c.x, a.x);
    SpreadW(bc.w, b.w, b.x, b.y, b.z, c.w, c.x, c.y, c.z, a.y);
    SpreadV(bc.x, b.w, c.x, b.x, c.w, b.y, c.z, b.z, c.y, a.z);
  }

  lemma AssociateZ(a: Quat, b: Quat, c: Quat, ab: Quat, bc: Quat, p: Quat, q: Quat)
    requires IsProduct(ab, a, b) && IsProduct(bc, b, c) && IsProduct(p, ab, c) && IsProduct(q, a, bc)
    ensures p.z == q.z
  {
    hide Mul, Mul3;
    SpreadW(ab.w, a.w, a.x, a.y, a.z, b.w, b.x, b.y, b.z, c.z);
    SpreadV(ab.x, a.w, b.x, a.x, b.w, a.y, b.z, a.z, b.y, c.y);
    SpreadV(ab.y, a.w, b.y, a.y, b.w, a.z, b.x, a.x, b.z, c.x);
    SpreadV(ab.z, a.w, b.z, a.x, b.y, a.z, b.w, a.y, b.x, c.w);
    SpreadV(bc.z, b.w, c.z, b.x, c.y, b.z, c.w, b.y, c.x, a.w);
    SpreadV(bc.y, b.w, c.y, b.y, c.w, b.z, c.x, b.x, c.z, a.x);
    SpreadV(bc.x, b.w, c.x, b.x, c.w, b.y, c.z, b.z, c.y, a.y);
    SpreadW(bc.w, b.w, b.x, b.y, b.z, c.w, c.x, c.y, c.z, a.z);
  }

  lemma ConjugateProduct(a: Quat, b: Quat)
    ensures Conjugate(Multiply(a, b)) == Multiply(Conjugate(b), Conjugate(a))
  {
    hide Multiply, Mul;
    ProductIs(a, b);
    ProductIs(Conjugate(b), Conjugate(a));
    Reverse(a, b, Conjugate(a), Conjugate(b), Multiply(a, b), Multiply(Conjugate(b), Conjugate(a)));
  }

  lemma Reverse(a: Quat, b: Quat, ac: Quat, bc: Quat, p: Quat, q: Quat)
    requires IsProduct(p, a, b) && IsProduct(q, bc, ac) && ac == Conjugate(a) && bc == Conjugate(b)
    ensures q == Conjugate(p)
  {
  }

  function RealQuat(k: real): Quat {
    Quat(k, 0.0, 0.0, 0.0)
  }

  lemma SelfConjugate(a: Quat)
    ensures Multiply(a, Conjugate(a)) == RealQuat(NormSq(a))
  {
  }

  lemma RealCommutes(a: Quat, k: real)
    ensures Multiply(a, RealQuat(k)) == Multiply(RealQuat(k), a)
  {
  }

  lemma RealProduct(j: real, k: real)
    ensures Multiply(RealQuat(j), RealQuat(k)) == RealQuat(j * k)
  {
  }

  /** The norm is multiplicative: (a b)(a b)* = a (b b*) a*, and b b* is a real. */
  lemma NormProduct(a: Quat, b: Quat)
    ensures NormSq(Multiply(a, b)) == NormSq(a) * NormSq(b)
  {
    var ab, ac, bc := Multiply(a, b), Conjugate(a), Conjugate(b);
    var n := NormSq(b);
    hide Multiply, NormSq, Conjugate;
    SelfConjugate(ab);
    ConjugateProduct(a, b);
    MultiplyAssociative(a, b, Multiply(bc, ac));
    MultiplyAssociative(b, bc, ac);
    SelfConjugate(b);
    RealCommutes(ac, n);
    MultiplyAssociative(a, ac, RealQuat(n));
    SelfConjugate(a);
    RealProduct(NormSq(a), n);
  }

  ghost predicate IsRotated(r: V3, q: Quat, v: V3, t: V3) {
    t.x == 2.0 * (Mul(q.y, v.z) - Mul(q.z, v.y)) && t.y == 2.0 * (Mul(q.z, v.x) - Mul(q.x, v.z)) && t.z == 2.0 * (Mul(q.x, v.y) - Mul(q.y, v.x)) &&
    r.x == v.x + Mul(q.w, t.x) + (Mul(q.y, t.z) - Mul(q.z, t.y)) &&
    r.y == v.y + Mul(q.w, t.y) + (Mul(q.z, t.x) - Mul(q.x, t.z)) &&
    r.z == v.z + Mul(q.w, t.z) + (Mul(q.x, t.y) - Mul(q.y, t.x))
  }

  lemma CrossIs(a: V3, b: V3)
    ensures Cross(a, b) == V3(Mul(a.y, b.z) - Mul(a.z, b.y), Mul(a.z, b.x) - Mul(a.x, b.z), Mul(a.x, b.y) - Mul(a.y, b.x))
  {
  }

  lemma TimesIs(k: real, a: V3)
    ensures Times(k, a) == V3(Mul(k, a.x), Mul(k, a.y), Mul(k, a.z))
  {
  }

  lemma RotatedIs(q: Quat, v: V3) returns (t: V3)
    ensures IsRotated(Rotate(q, v), q, v, t)
  {
    var u := V3(q.x, q.y, q.z);
    var uv := Cross(u, v);
    t := Times(2.0, uv);
    assert t == V3(2.0 * uv.x, 2.0 * uv.y, 2.0 * uv.z);
    assert Rotate(q, v) == Plus(Plus(v, Times(q.w, t)), Cross(u, t));
    hide Times, Cross, Mul, Rotate;
    CrossIs(u, v);
    TimesIs(q.w, t);
    CrossIs(u, t);
  }

  /** s = p q*. */
  ghost predicate IsTurned(s: Quat, p: Quat, q: Quat) {
    s.w == Mul(p.w, q.w) + Mul(p.x, q.x) + Mul(p.y, q.y) + Mul(p.z, q.z) &&
    s.x == Mul(p.x, q.w) - Mul(p.w, q.x) - Mul(p.y, q.z) + Mul(p.z, q.y) &&
    s.y == Mul(p.y, q.w) - Mul(p.w, q.y) + Mul(p.x, q.z) - Mul(p.z, q.x) &&
    s.z == Mul(p.z, q.w) - Mul(p.w, q.z) - Mul(p.x, q.y) + Mul(p.y, q.x)
  }

  lemma TurnedIs(p: Quat, q: Quat)
    ensures IsTurned(Multiply(p, Conjugate(q)), p, q)
  {
    var c := Conjugate(q);
    hide Multiply, Mul;
    ProductIs(p, c);
    Negated(p.w, q.x, c.x);
    Negated(p.w, q.y, c.y);
    Negated(p.w, q.z, c.z);
    Negated(p.x, q.x, c.x);
    Negated(p.x, q.y, c.y);
    Negated(p.x, q.z, c.z);
    Negated(p.y, q.x, c.x);
    Negated(p.y, q.y, c.y);
    Negated(p.y, q.z, c.z);
    Negated(p.z, q.x, c.x);
    Negated(p.z, q.y, c.y);
    Negated(p.z, q.z, c.z);
  }

  lemma Negated(a: real, b: real, c: real)
    requires c == -b
    ensures Mul(a, c) == -Mul(a, b)
  {
  }

  /** The cheap form is q v q* when q is a unit. */
  lemma RotateIsSandwich(q: Quat, v: V3)
    requires Unit(q)
    ensures Multiply(Multiply(q, Pure(v)), Conjugate(q)) == Pure(Rotate(q, v))
  {
    var p, pv, r := Multiply(q, Pure(v)), Pure(v), Rotate(q, v);
    var s := Multiply(p, Conjugate(q));
    assert pv == Quat(0.0, v.x, v.y, v.z) && Pure(r) == Quat(0.0, r.x, r.y, r.z);
    hide *;
    var t := RotatedIs(q, v);
    ProductIs(q, pv);
    TurnedIs(p, q);
    SandwichW(q, pv, p, s);
    SandwichX(q, v, pv, p, s, r, t);
    SandwichY(q, v, pv, p, s, r, t);
    SandwichZ(q, v, pv, p, s, r, t);
  }

  lemma SandwichW(q: Quat, pv: Quat, p: Quat, s: Quat)
    requires pv.w == 0.0 && IsProduct(p, q, pv) && IsTurned(s, p, q)
    ensures s.w == 0.0
  {
    hide Mul, Mul3;
    SpreadW(p.w, q.w, q.x, q.y, q.z, pv.w, pv.x, pv.y, pv.z, q.w);
    SpreadV(p.x, q.w, pv.x, q.x, pv.w, q.y, pv.z, q.z, pv.y, q.x);
    SpreadV(p.y, q.w, pv.y, q.y, pv.w, q.z, pv.x, q.x, pv.z, q.y);
    SpreadV(p.z, q.w, pv.z, q.x, pv.y, q.z, pv.w, q.y, pv.x, q.z);
    Nothing(q.w, q.w);
    Nothing(q.x, q.x);
    Nothing(q.y, q.y);
    Nothing(q.z, q.z);
    Swaps(q, pv.x);
    Swaps(q, pv.y);
    Swaps(q, pv.z);
  }

  lemma SandwichX(q: Quat, v: V3, pv: Quat, p: Quat, s: Quat, r: V3, t: V3)
    requires pv == Quat(0.0, v.x, v.y, v.z) && IsProduct(p, q, pv) && IsTurned(s, p, q) && IsRotated(r, q, v, t) && Unit(q)
    ensures s.x == r.x
  {
    hide Mul, Mul3, Unit;
    SpreadW(p.w, q.w, q.x, q.y, q.z, pv.w, pv.x, pv.y, pv.z, q.x);
    SpreadV(p.x, q.w, pv.x, q.x, pv.w, q.y, pv.z, q.z, pv.y, q.w);
    SpreadV(p.y, q.w, pv.y, q.y, pv.w, q.z, pv.x, q.x, pv.z, q.z);
    SpreadV(p.z, q.w, pv.z, q.x, pv.y, q.z, pv.w, q.y, pv.x, q.y);
    Nothing(q.w, q.x);
    Nothing(q.x, q.w);
    Nothing(q.y, q.z);
    Nothing(q.z, q.y);
    SpreadT(t.x, q.y, v.z, q.z, v.y, q.w);
    SpreadT(t.z, q.x, v.y, q.y, v.x, q.y);
    SpreadT(t.y, q.z, v.x, q.x, v.z, q.z);
    Swaps(q, v.x);
    Swaps(q, v.y);
    Swaps(q, v.z);
    SpreadOne(q, v.x);
  }

  lemma SandwichY(q: Quat, v: V3, pv: Quat, p: Quat, s: Quat, r: V3, t: V3)
    requires pv == Quat(0.0, v.x, v.y, v.z) && IsProduct(p, q, pv) && IsTurned(s, p, q) && IsRotated(r, q, v, t) && Unit(q)
    ensures s.y == r.y
  {
    hide Mul, Mul3, Unit;
    SpreadW(p.w, q.w, q.x, q.y, q.z, pv.w, pv.x, pv.y, pv.z, q.y);
    SpreadV(p.x, q.w, pv.x, q.x, pv.w, q.y, pv.z, q.z, pv.y, q.z);
    SpreadV(p.y, q.w, pv.y, q.y, pv.w, q.z, pv.x, q.x, pv.z, q.w);
    SpreadV(p.z, q.w, pv.z, q.x, pv.y, q.z, pv.w, q.y, pv.x, q.x);
    Nothing(q.w, q.y);
    Nothing(q.x, q.z);
    Nothing(q.y, q.w);
    Nothing(q.z, q.x);
    SpreadT(t.y, q.z, v.x, q.x, v.z, q.w);
    SpreadT(t.x, q.y, v.z, q.z, v.y, q.z);
    SpreadT(t.z, q.x, v.y, q.y, v.x, q.x);
    Swaps(q, v.x);
    Swaps(q, v.y);
    Swaps(q, v.z);
    SpreadOne(q, v.y);
  }

  lemma SandwichZ(q: Quat, v: V3, pv: Quat, p: Quat, s: Quat, r: V3, t: V3)
    requires pv == Quat(0.0, v.x, v.y, v.z) && IsProduct(p, q, pv) && IsTurned(s, p, q) && IsRotated(r, q, v, t) && Unit(q)
    ensures s.z == r.z
  {
    hide Mul, Mul3, Unit;
    SpreadW(p.w, q.w, q.x, q.y, q.z, pv.w, pv.x, pv.y, pv.z, q.z);
    SpreadV(p.x, q.w, pv.x, q.x, pv.w, q.y, pv.z, q.z, pv.y, q.y);
    SpreadV(p.y, q.w, pv.y, q.y, pv.w, q.z, pv.x, q.x, pv.z, q.x);
    SpreadV(p.z, q.w, pv.z, q.x, pv.y, q.z, pv.w, q.y, pv.x, q.w);
    Nothing(q.w, q.z);
    Nothing(q.x, q.y);
    Nothing(q.y, q.x);
    Nothing(q.z, q.w);
    SpreadT(t.z, q.x, v.y, q.y, v.x, q.w);
    SpreadT(t.y, q.z, v.x, q.x, v.z, q.x);
    SpreadT(t.x, q.y, v.z, q.z, v.y, q.y);
    Swaps(q, v.x);
    Swaps(q, v.y);
    Swaps(q, v.z);
    SpreadOne(q, v.z);
  }

  // ----- what rotation keeps -----

  /** A product of unit quaternions is a unit. */
  lemma UnitProduct(a: Quat, b: Quat)
    requires Unit(a) && Unit(b)
    ensures Unit(Multiply(a, b))
  {
    hide Multiply, NormSq;
    NormProduct(a, b);
  }

  /** Rotating by a product is rotating by one factor after the other. */
  lemma RotateMultiply(a: Quat, b: Quat, v: V3)
    requires Unit(a) && Unit(b)
    ensures Rotate(Multiply(a, b), v) == Rotate(a, Rotate(b, v))
  {
    var ab, pv, ac, bc := Multiply(a, b), Pure(v), Conjugate(a), Conjugate(b);
    var inner := Rotate(b, v);
    hide Multiply, Conjugate, Rotate, Unit, NormSq;
    UnitProduct(a, b);
    RotateIsSandwich(ab, v);
    RotateIsSandwich(b, v);
    RotateIsSandwich(a, inner);
    ConjugateProduct(a, b);
    MultiplyAssociative(Multiply(ab, pv), bc, ac);
    MultiplyAssociative(a, b, pv);
    MultiplyAssociative(a, Multiply(b, pv), bc);
  }

  lemma ConjugateNorm(q: Quat)
    ensures NormSq(Conjugate(q)) == NormSq(q)
  {
  }

  lemma PureNorm(v: V3)
    ensures NormSq(Pure(v)) == Dot3(v, v)
  {
  }

  /** Rotation keeps lengths. */
  lemma RotateKeepsNorm(q: Quat, v: V3)
    requires Unit(q)
    ensures Dot3(Rotate(q, v), Rotate(q, v)) == Dot3(v, v)
  {
    var r, p := Rotate(q, v), Multiply(q, Pure(v));
    RotateIsSandwich(q, v);
    NormProduct(q, Pure(v));
    NormProduct(p, Conjugate(q));
    ConjugateNorm(q);
    PureNorm(v);
    PureNorm(r);
    assert NormSq(q) == 1.0;
    hide *;
    Ones(NormSq(q), NormSq(Pure(v)), NormSq(p), NormSq(Conjugate(q)), NormSq(Multiply(p, Conjugate(q))));
  }

  lemma Ones(q: real, v: real, p: real, c: real, r: real)
    requires q == 1.0 && c == q && p == q * v && r == p * c
    ensures r == v
  {
  }

  lemma DistributeAll(q: Quat, a: real, b: real, c: real)
    requires c == a + b
    ensures Mul(q.w, c) == Mul(q.w, a) + Mul(q.w, b) && Mul(q.x, c) == Mul(q.x, a) + Mul(q.x, b)
    ensures Mul(q.y, c) == Mul(q.y, a) + Mul(q.y, b) && Mul(q.z, c) == Mul(q.z, a) + Mul(q.z, b)
  {
  }

  /** Rotation is linear. */
  lemma RotateAdds(q: Quat, v: V3, w: V3)
    ensures Rotate(q, Plus(v, w)) == Plus(Rotate(q, v), Rotate(q, w))
  {
    hide Rotate, Mul;
    var s := Plus(v, w);
    var tv := RotatedIs(q, v);
    var tw := RotatedIs(q, w);
    var ts := RotatedIs(q, s);
    DistributeAll(q, v.x, w.x, s.x);
    DistributeAll(q, v.y, w.y, s.y);
    DistributeAll(q, v.z, w.z, s.z);
    DistributeAll(q, tv.x, tw.x, ts.x);
    DistributeAll(q, tv.y, tw.y, ts.y);
    DistributeAll(q, tv.z, tw.z, ts.z);
  }

  lemma ScaleAll(q: Quat, k: real, a: real, c: real)
    requires c == Mul(k, a)
    ensures Mul(q.w, c) == Mul(k, Mul(q.w, a)) && Mul(q.x, c) == Mul(k, Mul(q.x, a))
    ensures Mul(q.y, c) == Mul(k, Mul(q.y, a)) && Mul(q.z, c) == Mul(k, Mul(q.z, a))
  {
  }

  lemma ScaleSum(k: real, a: real, b: real, c: real, d: real)
    ensures Mul(k, a + b + (c - d)) == Mul(k, a) + Mul(k, b) + (Mul(k, c) - Mul(k, d))
    ensures Mul(k, 2.0 * (c - d)) == 2.0 * (Mul(k, c) - Mul(k, d))
  {
  }

  lemma RotateScales(q: Quat, k: real, v: V3)
    ensures Rotate(q, Times(k, v)) == Times(k, Rotate(q, v))
  {
    var s, r := Times(k, v), Rotate(q, v);
    hide Rotate, Mul, Times;
    TimesIs(k, v);
    TimesIs(k, r);
    var t := RotatedIs(q, v);
    var ts := RotatedIs(q, s);
    ScaleAll(q, k, v.x, s.x);
    ScaleAll(q, k, v.y, s.y);
    ScaleAll(q, k, v.z, s.z);
    ScaleSum(k, v.x, Mul(q.w, t.x), Mul(q.y, v.z), Mul(q.z, v.y));
    ScaleSum(k, v.y, Mul(q.w, t.y), Mul(q.z, v.x), Mul(q.x, v.z));
    ScaleSum(k, v.z, Mul(q.w, t.z), Mul(q.x, v.y), Mul(q.y, v.x));
    ScaleAll(q, k, t.x, ts.x);
    ScaleAll(q, k, t.y, ts.y);
    ScaleAll(q, k, t.z, ts.z);
    ScaleSum(k, v.x, Mul(q.w, t.x), Mul(q.y, t.z), Mul(q.z, t.y));
    ScaleSum(k, v.y, Mul(q.w, t.y), Mul(q.z, t.x), Mul(q.x, t.z));
    ScaleSum(k, v.z, Mul(q.w, t.z), Mul(q.x, t.y), Mul(q.y, t.x));
  }

  lemma Polarize(v: V3, w: V3)
    ensures Dot3(Plus(v, w), Plus(v, w)) == Dot3(v, v) + 2.0 * Dot3(v, w) + Dot3(w, w)
  {
    Square(v.x, w.x, v.x + w.x);
    Square(v.y, w.y, v.y + w.y);
    Square(v.z, w.z, v.z + w.z);
  }

  lemma Square(a: real, b: real, c: real)
    requires c == a + b
    ensures c * c == a * a + 2.0 * (a * b) + b * b
  {
  }

  /** Rotation keeps dot products. */
  lemma RotateKeepsDot(q: Quat, v: V3, w: V3)
    requires Unit(q)
    ensures Dot3(Rotate(q, v), Rotate(q, w)) == Dot3(v, w)
  {
    hide *;
    RotateKeepsNorm(q, v);
    RotateKeepsNorm(q, w);
    RotateKeepsNorm(q, Plus(v, w));
    RotateAdds(q, v, w);
    Polarize(v, w);
    Polarize(Rotate(q, v), Rotate(q, w));
  }

  /** A rotation about an axis leaves the axis where it is. */
  lemma AxisIsFixed(c: real, s: real, axis: V3)
    ensures Rotate(AxisQuat(c, s, axis), axis) == axis
  {
    hide Mul, Rotate;
    var q := AxisQuat(c, s, axis);
    var t := RotatedIs(q, axis);
    Parallel(s, axis.y, axis.z);
    Parallel(s, axis.z, axis.x);
    Parallel(s, axis.x, axis.y);
    assert t == Zero3;
    ZeroOne(q);
  }

  lemma Parallel(s: real, a: real, b: real)
    ensures Mul(Mul(s, a), b) == Mul(Mul(s, b), a)
  {
  }

  /** Rotating the origin, and by the identity, changes nothing. */
  lemma RotateTrivially(q: Quat, v: V3)
    ensures Rotate(q, Zero3) == Zero3 && Rotate(Identity, v) == v && Multiply(q, Identity) == q && Unit(Identity)
  {
  }

  // ----- rotations about an axis -----

  function AxisQuat(c: real, s: real, axis: V3): Quat {
    Quat(c, Mul(s, axis.x), Mul(s, axis.y), Mul(s, axis.z))
  }

  /** Rotations about one axis add their angles. */
  lemma AxisQuatSum(c1: real, s1: real, c2: real, s2: real, axis: V3, c: real, s: real)
    requires Dot3(axis, axis) == 1.0 && c == c1 * c2 - s1 * s2 && s == c1 * s2 + s1 * c2
    ensures Multiply(AxisQuat(c1, s1, axis), AxisQuat(c2, s2, axis)) == AxisQuat(c, s, axis)
  {
    assert c == Mul(c1, c2) - Mul(s1, s2);
    AxisTerm(c1, s1, c2, s2, axis.x, s);
    AxisTerm(c1, s1, c2, s2, axis.y, s);
    AxisTerm(c1, s1, c2, s2, axis.z, s);
    hide Mul, Multiply, Dot3;
    ProductIs(AxisQuat(c1, s1, axis), AxisQuat(c2, s2, axis));
    AxisDot(s1, s2, axis);
    AxisSwap(s1, s2, axis.x, axis.y);
    AxisSwap(s1, s2, axis.y, axis.z);
    AxisSwap(s1, s2, axis.z, axis.x);
  }

  lemma AxisDot(s1: real, s2: real, axis: V3)
    requires Dot3(axis, axis) == 1.0
    ensures Mul(Mul(s1, axis.x), Mul(s2, axis.x)) + Mul(Mul(s1, axis.y), Mul(s2, axis.y)) + Mul(Mul(s1, axis.z), Mul(s2, axis.z)) ==
            Mul(s1, s2)
  {
    assert (s1 * s2) * Dot3(axis, axis) == s1 * s2;
  }

  lemma AxisTerm(c1: real, s1: real, c2: real, s2: real, x: real, s: real)
    requires s == c1 * s2 + s1 * c2
    ensures Mul(c1, Mul(s2, x)) + Mul(Mul(s1, x), c2) == Mul(s, x)
  {
  }

  lemma AxisSwap(s1: real, s2: real, x: real, y: real)
    ensures Mul(Mul(s1, x), Mul(s2, y)) == Mul(Mul(s1, y), Mul(s2, x))
  {
  }

  function QPlus(a: Quat, b: Quat): Quat {
    Quat(a.w + b.w, a.x + b.x, a.y + b.y, a.z + b.z)
  }

  function QScale(k: real, a: Quat): Quat {
    Quat(Mul(k, a.w), Mul(k, a.x), Mul(k, a.y), Mul(k, a.z))
  }

  lemma MulAdds(k: real, a: real, b: real)
    ensures Mul(a + b, k) == Mul(a, k) + Mul(b, k)
  {
  }

  lemma MultiplyPlus(a: Quat, b: Quat, c: Quat)
    ensures Multiply(QPlus(a, b), c) == QPlus(Multiply(a, c), Multiply(b, c))
  {
    var s := QPlus(a, b);
    hide Mul, Multiply;
    ProductIs(s, c);
    ProductIs(a, c);
    ProductIs(b, c);
    PlusOne(a, b, c.w);
    PlusOne(a, b, c.x);
    PlusOne(a, b, c.y);
    PlusOne(a, b, c.z);
  }

  lemma PlusOne(a: Quat, b: Quat, k: real)
    ensures var s := QPlus(a, b);
            Mul(s.w, k) == Mul(a.w, k) + Mul(b.w, k) && Mul(s.x, k) == Mul(a.x, k) + Mul(b.x, k) &&
            Mul(s.y, k) == Mul(a.y, k) + Mul(b.y, k) && Mul(s.z, k) == Mul(a.z, k) + Mul(b.z, k)
  {
    MulAdds(k, a.w, b.w);
    MulAdds(k, a.x, b.x);
    MulAdds(k, a.y, b.y);
    MulAdds(k, a.z, b.z);
  }

  lemma MultiplyScale(k: real, a: Quat, c: Quat)
    ensures Multiply(QScale(k, a), c) == QScale(k, Multiply(a, c))
  {
    var s, p := QScale(k, a), Multiply(a, c);
    hide Mul, Multiply;
    ProductIs(s, c);
    ProductIs(a, c);
    NestOne(k, a, c.w);
    NestOne(k, a, c.x);
    NestOne(k, a, c.y);
    NestOne(k, a, c.z);
    FourTerms(k, Mul(a.w, c.w), -Mul(a.x, c.x), -Mul(a.y, c.y), -Mul(a.z, c.z));
    FourTerms(k, Mul(a.w, c.x), Mul(a.x, c.w), Mul(a.y, c.z), -Mul(a.z, c.y));
    FourTerms(k, Mul(a.w, c.y), -Mul(a.x, c.z), Mul(a.y, c.w), Mul(a.z, c.x));
    FourTerms(k, Mul(a.w, c.z), Mul(a.x, c.y), -Mul(a.y, c.x), Mul(a.z, c.w));
    NegateFour(k, a, c);
  }

  lemma NestOne(k: real, a: Quat, c: real)
    ensures Mul(Mul(k, a.w), c) == Mul(k, Mul(a.w, c)) && Mul(Mul(k, a.x), c) == Mul(k, Mul(a.x, c))
    ensures Mul(Mul(k, a.y), c) == Mul(k, Mul(a.y, c)) && Mul(Mul(k, a.z), c) == Mul(k, Mul(a.z, c))
  {
  }

  lemma FourTerms(k: real, a: real, b: real, c: real, d: real)
    ensures Mul(k, a + b + c + d) == Mul(k, a) + Mul(k, b) + Mul(k, c) + Mul(k, d)
  {
  }

  lemma NegateFour(k: real, a: Quat, c: Quat)
    ensures Mul(k, -Mul(a.x, c.x)) == -Mul(k, Mul(a.x, c.x)) && Mul(k, -Mul(a.y, c.y)) == -Mul(k, Mul(a.y, c.y))
    ensures Mul(k, -Mul(a.z, c.z)) == -Mul(k, Mul(a.z, c.z)) && Mul(k, -Mul(a.z, c.y)) == -Mul(k, Mul(a.z, c.y))
    ensures Mul(k, -Mul(a.x, c.z)) == -Mul(k, Mul(a.x, c.z)) && Mul(k, -Mul(a.y, c.x)) == -Mul(k, Mul(a.y, c.x))
  {
    hide Mul;
    NegateOne(k, Mul(a.x, c.x));
    NegateOne(k, Mul(a.y, c.y));
    NegateOne(k, Mul(a.z, c.z));
    NegateOne(k, Mul(a.z, c.y));
    NegateOne(k, Mul(a.x, c.z));
    NegateOne(k, Mul(a.y, c.x));
  }

  lemma NegateOne(k: real, a: real)
    ensures Mul(k, -a) == -Mul(k, a)
  {
  }

  /** A rotation about an axis, taken to a rotated frame, is the rotation about the rotated axis. */
  lemma AxisConjugates(a: Quat, c: real, s: real, u: V3)
    requires Unit(a)
    ensures Multiply(a, AxisQuat(c, s, u)) == Multiply(AxisQuat(c, s, Rotate(a, u)), a)
  {
    var w, ac, p := Rotate(a, u), Conjugate(a), AxisQuat(c, s, u);
    var turned := AxisQuat(c, s, w);
    hide Multiply, Rotate, Mul, Conjugate, Unit, NormSq, AxisQuat, QPlus, QScale;
    SplitAxis(a, c, s, u);
    var x, y := QScale(c, a), QScale(s, Multiply(a, Pure(u)));
    MultiplyPlus(x, y, ac);
    MultiplyScale(c, a, ac);
    MultiplyScale(s, Multiply(a, Pure(u)), ac);
    SelfConjugate(a);
    RotateIsSandwich(a, u);
    UnitRing(a);
    JoinAxis(c, s, w);
    assert Multiply(Multiply(a, p), ac) == turned;
    MultiplyAssociative(Multiply(a, p), ac, a);
    RotateTrivially(Multiply(a, p), u);
  }

  lemma SplitAxis(a: Quat, c: real, s: real, u: V3)
    ensures Multiply(a, AxisQuat(c, s, u)) == QPlus(QScale(c, a), QScale(s, Multiply(a, Pure(u))))
  {
    var p, v, r := AxisQuat(c, s, u), Pure(u), Multiply(a, Pure(u));
    hide Mul, Multiply;
    ProductIs(a, p);
    ProductIs(a, v);
    MulFlips(c, a);
    InnerOne(s, a, u.x);
    InnerOne(s, a, u.y);
    InnerOne(s, a, u.z);
    ZeroOne(a);
    FourTerms(s, 0.0, -Mul(a.x, u.x), -Mul(a.y, u.y), -Mul(a.z, u.z));
    FourTerms(s, Mul(a.w, u.x), 0.0, Mul(a.y, u.z), -Mul(a.z, u.y));
    FourTerms(s, Mul(a.w, u.y), -Mul(a.x, u.z), 0.0, Mul(a.z, u.x));
    FourTerms(s, Mul(a.w, u.z), Mul(a.x, u.y), -Mul(a.y, u.x), 0.0);
    NegateFour(s, a, v);
    TimesNothing(s);
  }

  lemma MulFlips(c: real, a: Quat)
    ensures Mul(a.w, c) == Mul(c, a.w) && Mul(a.x, c) == Mul(c, a.x) && Mul(a.y, c) == Mul(c, a.y) && Mul(a.z, c) == Mul(c, a.z)
  {
  }

  lemma InnerOne(s: real, a: Quat, x: real)
    ensures Mul(a.w, Mul(s, x)) == Mul(s, Mul(a.w, x)) && Mul(a.x, Mul(s, x)) == Mul(s, Mul(a.x, x))
    ensures Mul(a.y, Mul(s, x)) == Mul(s, Mul(a.y, x)) && Mul(a.z, Mul(s, x)) == Mul(s, Mul(a.z, x))
  {
  }

  lemma ZeroOne(a: Quat)
    ensures Mul(a.w, 0.0) == 0.0 && Mul(a.x, 0.0) == 0.0 && Mul(a.y, 0.0) == 0.0 && Mul(a.z, 0.0) == 0.0
  {
  }

  lemma TimesNothing(s: real)
    ensures Mul(s, 0.0) == 0.0
  {
  }

  lemma UnitRing(a: Quat)
    requires Unit(a)
    ensures NormSq(a) == 1.0 && Multiply(Conjugate(a), a) == Identity && RealQuat(1.0) == Identity
  {
  }

  lemma JoinAxis(c: real, s: real, w: V3)
    ensures QPlus(QScale(c, RealQuat(1.0)), QScale(s, Pure(w))) == AxisQuat(c, s, w)
  {
  }
}
