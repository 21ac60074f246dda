/** The serial kinematic chain (kinematics/chain.cpp): the quaternion walk to a joint's frame, and the
    one-pass velocity and acceleration of its origin. */
module Chain {
  import opened Reals
  import opened Rotations
  import Blend
  import Vectors

  type Maths = Blend.Maths

  // ----- vector algebra -----

  lemma CrossPlusLeft(a: V3, b: V3, c: V3)
    ensures Cross(Plus(a, b), c) == Plus(Cross(a, c), Cross(b, c))
  {
    hide Cross, Mul;
    CrossIs(Plus(a, b), c);
    CrossIs(a, c);
    CrossIs(b, c);
    Spread2(a, b, Plus(a, b), c.x);
    Spread2(a, b, Plus(a, b), c.y);
    Spread2(a, b, Plus(a, b), c.z);
  }

  lemma Spread2(a: V3, b: V3, s: V3, k: real)
    requires s == Plus(a, b)
    ensures Mul(s.x, k) == Mul(a.x, k) + Mul(b.x, k)
    ensures Mul(s.y, k) == Mul(a.y, k) + Mul(b.y, k)
    ensures Mul(s.z, k) == Mul(a.z, k) + Mul(b.z, k)
  {
  }

  lemma CrossFlip(a: V3, b: V3)
    ensures Cross(a, b) == Minus(Zero3, Cross(b, a))
  {
  }

  lemma CrossPlusRight(a: V3, b: V3, c: V3)
    ensures Cross(a, Plus(b, c)) == Plus(Cross(a, b), Cross(a, c))
  {
    hide Cross;
    CrossFlip(a, Plus(b, c));
    CrossFlip(a, b);
    CrossFlip(a, c);
    CrossPlusLeft(b, c, a);
  }

  lemma CrossMinusRight(a: V3, b: V3, c: V3)
    ensures Cross(a, Minus(b, c)) == Minus(Cross(a, b), Cross(a, c))
  {
    hide Cross;
    CrossPlusRight(a, Minus(b, c), c);
    assert Plus(Minus(b, c), c) == b;
  }

  lemma CrossTimesLeft(k: real, a: V3, b: V3)
    ensures Cross(Times(k, a), b) == Times(k, Cross(a, b))
  {
    hide Cross, Times, Mul;
    var s, r := Times(k, a), Cross(a, b);
    TimesIs(k, a);
    TimesIs(k, r);
    CrossIs(s, b);
    CrossIs(a, b);
    Nested(k, a.x, b.y);
    Nested(k, a.x, b.z);
    Nested(k, a.y, b.x);
    Nested(k, a.y, b.z);
    Nested(k, a.z, b.x);
    Nested(k, a.z, b.y);
    Difference(k, Mul(a.y, b.z), Mul(a.z, b.y));
    Difference(k, Mul(a.z, b.x), Mul(a.x, b.z));
    Difference(k, Mul(a.x, b.y), Mul(a.y, b.x));
  }

  lemma Nested(k: real, a: real, b: real)
    ensures Mul(Mul(k, a), b) == Mul(k, Mul(a, b))
  {
  }

  lemma Difference(k: real, a: real, b: real)
    ensures Mul(k, a - b) == Mul(k, a) - Mul(k, b)
  {
  }

  lemma TimesPlus(k: real, a: V3, b: V3)
    ensures Times(k, Plus(a, b)) == Plus(Times(k, a), Times(k, b))
  {
  }

  lemma TimesMinus(k: real, a: V3, b: V3)
    ensures Times(k, Minus(a, b)) == Minus(Times(k, a), Times(k, b))
  {
  }

  lemma CrossTimesRight(k: real, a: V3, b: V3)
    ensures Cross(a, Times(k, b)) == Times(k, Cross(a, b))
  {
    hide Cross, Times;
    CrossFlip(a, Times(k, b));
    CrossFlip(a, b);
    CrossTimesLeft(k, b, a);
    TimesMinus(k, Zero3, Cross(b, a));
    TimesZero(k);
  }

  lemma TimesZero(k: real)
    ensures Times(k, Zero3) == Zero3
  {
  }

  lemma CrossZero(a: V3)
    ensures Cross(Zero3, a) == Zero3 && Cross(a, Zero3) == Zero3 && Cross(a, a) == Zero3
  {
  }

  // ----- joints -----

  datatype Kind = Fixed | Rotating | Translating

  /** A joint as given to the builder; the direction of a fixed joint is not used. */
  datatype JointSpec = JointSpec(kind: Kind, translation: V3, rotation: Quat, direction: V3)

  /** A joint of a finished chain, its origin rotation and axis normalized. */
  datatype Joint = Joint(kind: Kind, translation: V3, originRotation: Quat, unitAxis: V3)

  ghost predicate ValidJoint(j: Joint) {
    Unit(j.originRotation) && (j.kind.Fixed? || Dot3(j.unitAxis, j.unitAxis) == 1.0)
  }

  ghost predicate ValidChain(js: seq<Joint>) {
    js != [] && forall i :: 0 <= i < |js| ==> ValidJoint(js[i])
  }

  /** What the builder accepts: a nonzero quaternion, and a nonzero axis on a joint that moves. */
  predicate Acceptable(s: JointSpec) {
    s.rotation != Quat(0.0, 0.0, 0.0, 0.0) && (s.kind.Fixed? || s.direction != Zero3)
  }

  function QuatNorm(m: Maths, q: Quat): real {
    m.norm([q.w, q.x, q.y, q.z])
  }

  function Norm3(m: Maths, v: V3): real {
    m.norm([v.x, v.y, v.z])
  }

  lemma QuatNormIs(m: Maths, q: Quat)
    requires Blend.Faithful(m)
    ensures 0.0 <= QuatNorm(m, q) && QuatNorm(m, q) * QuatNorm(m, q) == NormSq(q)
    ensures QuatNorm(m, q) == 0.0 <==> q == Quat(0.0, 0.0, 0.0, 0.0)
  {
    var v := [q.w, q.x, q.y, q.z];
    assert Blend.NormIsRoot(m, v);
    var v3, v2, v1 := [q.x, q.y, q.z], [q.y, q.z], [q.z];
    assert v[1..] == v3 && v3[1..] == v2 && v2[1..] == v1 && v1[1..] == [];
    Vectors.DotUnfold(v, v);
    Vectors.DotUnfold(v3, v3);
    Vectors.DotUnfold(v2, v2);
    Vectors.DotUnfold(v1, v1);
    FourZeros(q.w, q.x, q.y, q.z, QuatNorm(m, q));
  }

  lemma FourZeros(a: real, b: real, c: real, d: real, n: real)
    requires n * n == a * a + b * b + c * c + d * d
    ensures n == 0.0 <==> a == 0.0 && b == 0.0 && c == 0.0 && d == 0.0
  {
    Vectors.SquareIsPositive(a);
    Vectors.SquareIsPositive(b);
    Vectors.SquareIsPositive(c);
    Vectors.SquareIsPositive(d);
    Vectors.SquareIsPositive(n);
  }

  lemma Norm3Is(m: Maths, v: V3)
    requires Blend.Faithful(m)
    ensures 0.0 <= Norm3(m, v) && Norm3(m, v) * Norm3(m, v) == Dot3(v, v)
    ensures Norm3(m, v) == 0.0 <==> v == Zero3
  {
    var s := [v.x, v.y, v.z];
    assert Blend.NormIsRoot(m, s);
    var s2, s1 := [v.y, v.z], [v.z];
    assert s[1..] == s2 && s2[1..] == s1 && s1[1..] == [];
    Vectors.DotUnfold(s, s);
    Vectors.DotUnfold(s2, s2);
    Vectors.DotUnfold(s1, s1);
    FourZeros(v.x, v.y, v.z, 0.0, Norm3(m, v));
  }

  lemma DividedSquares(n: real, w: real, x: real, y: real, z: real, a: real, b: real, c: real, d: real)
    requires 0.0 < n && Mul(n, n) == Mul(w, w) + Mul(x, x) + Mul(y, y) + Mul(z, z)
    requires Mul(a, n) == w && Mul(b, n) == x && Mul(c, n) == y && Mul(d, n) == z
    ensures Mul(a, a) + Mul(b, b) + Mul(c, c) + Mul(d, d) == 1.0
  {
    hide *;
    SquareTimes(a, n, w);
    SquareTimes(b, n, x);
    SquareTimes(c, n, y);
    SquareTimes(d, n, z);
    SumTimes(Mul(a, a), Mul(b, b), Mul(c, c), Mul(d, d), Mul(n, n));
    SquarePositive(n);
    CancelOne(Mul(a, a) + Mul(b, b) + Mul(c, c) + Mul(d, d), Mul(n, n));
  }

  lemma CancelOne(t: real, n: real)
    requires 0.0 < n && Mul(t, n) == n
    ensures t == 1.0
  {
    assert (t - 1.0) * n == 0.0;
  }

  lemma SquarePositive(n: real)
    requires 0.0 < n
    ensures 0.0 < Mul(n, n)
  {
    SquareLt(0.0, n);
  }

  lemma SquareTimes(a: real, n: real, w: real)
    requires Mul(a, n) == w
    ensures Mul(Mul(a, a), Mul(n, n)) == Mul(w, w)
  {
    assert (a * a) * (n * n) == (a * n) * (a * n);
  }

  lemma SumTimes(p: real, q: real, r: real, s: real, n: real)
    ensures Mul(p + q + r + s, n) == Mul(p, n) + Mul(q, n) + Mul(r, n) + Mul(s, n)
  {
  }

  lemma UnitQuat(q: Quat, n: real)
    requires 0.0 < n && n * n == NormSq(q)
    ensures Unit(Quat(q.w / n, q.x / n, q.y / n, q.z / n))
  {
    DividedSquares(n, q.w, q.x, q.y, q.z, q.w / n, q.x / n, q.y / n, q.z / n);
  }

  lemma UnitV3(v: V3, n: real)
    requires 0.0 < n && n * n == Dot3(v, v)
    ensures Dot3(V3(v.x / n, v.y / n, v.z / n), V3(v.x / n, v.y / n, v.z / n)) == 1.0
  {
    DividedSquares(n, v.x, v.y, v.z, 0.0, v.x / n, v.y / n, v.z / n, 0.0);
  }

  /** q is n times r. */
  ghost predicate QuatMultiple(q: Quat, n: real, r: Quat) {
    q.w == n * r.w && q.x == n * r.x && q.y == n * r.y && q.z == n * r.z
  }

  /** The joint a spec denotes: its kind and translation, its rotation as a unit quaternion in the same direction,
      and, where it moves, its axis as a unit vector in the same direction. */
  ghost predicate Denotes(s: JointSpec, j: Joint) {
    j.kind == s.kind && j.translation == s.translation && ValidJoint(j) &&
    (exists n :: 0.0 < n && QuatMultiple(s.rotation, n, j.originRotation)) &&
    (!s.kind.Fixed? ==> exists d :: 0.0 < d && s.direction == Times(d, j.unitAxis))
  }

  lemma DividedQuat(q: Quat, n: real)
    requires n != 0.0
    ensures QuatMultiple(q, n, Quat(q.w / n, q.x / n, q.y / n, q.z / n))
  {
  }

  lemma DividedV3(v: V3, n: real)
    requires n != 0.0
    ensures v == Times(n, V3(v.x / n, v.y / n, v.z / n))
  {
  }

  /** A spec denotes one joint at most, but for the axis a fixed joint does not have. */
  lemma DenotesOnce(s: JointSpec, j: Joint, k: Joint)
    requires Denotes(s, j) && Denotes(s, k)
    ensures j.originRotation == k.originRotation && (!s.kind.Fixed? ==> j == k)
  {
    hide NormSq, Dot3;
    var n, o :| 0.0 < n && QuatMultiple(s.rotation, n, j.originRotation) && 0.0 < o && QuatMultiple(s.rotation, o, k.originRotation);
    hide QuatMultiple, Times;
    SameQuat(s.rotation, n, j.originRotation, o, k.originRotation);
    if !s.kind.Fixed? {
      var d, e :| 0.0 < d && s.direction == Times(d, j.unitAxis) && 0.0 < e && s.direction == Times(e, k.unitAxis);
      SameAxis(s.direction, d, j.unitAxis, e, k.unitAxis);
    }
  }

  lemma SameQuat(q: Quat, n: real, a: Quat, o: real, b: Quat)
    requires 0.0 < n && 0.0 < o && QuatMultiple(q, n, a) && QuatMultiple(q, o, b) && Unit(a) && Unit(b)
    ensures a == b
  {
    QuatScale(q, n, a);
    QuatScale(q, o, b);
    SameSquare(n, o, NormSq(q));
    hide NormSq;
    Cancel(n, o, a.w, b.w, q.w);
    Cancel(n, o, a.x, b.x, q.x);
    Cancel(n, o, a.y, b.y, q.y);
    Cancel(n, o, a.z, b.z, q.z);
  }

  lemma SameAxis(v: V3, n: real, a: V3, o: real, b: V3)
    requires 0.0 < n && 0.0 < o && v == Times(n, a) && v == Times(o, b) && Dot3(a, a) == 1.0 && Dot3(b, b) == 1.0
    ensures a == b
  {
    AxisScale(v, n, a);
    AxisScale(v, o, b);
    SameSquare(n, o, Dot3(v, v));
    hide Dot3;
    Cancel(n, o, a.x, b.x, v.x);
    Cancel(n, o, a.y, b.y, v.y);
    Cancel(n, o, a.z, b.z, v.z);
  }

  lemma QuatScale(q: Quat, n: real, a: Quat)
    requires QuatMultiple(q, n, a) && Unit(a)
    ensures NormSq(q) == n * n
  {
    ScaledSquare(n, a.w, q.w);
    ScaledSquare(n, a.x, q.x);
    ScaledSquare(n, a.y, q.y);
    ScaledSquare(n, a.z, q.z);
    FourShares(n * n, a.w * a.w, a.x * a.x, a.y * a.y, a.z * a.z);
  }

  lemma AxisScale(v: V3, n: real, a: V3)
    requires v == Times(n, a) && Dot3(a, a) == 1.0
    ensures Dot3(v, v) == n * n
  {
    ScaledSquare(n, a.x, v.x);
    ScaledSquare(n, a.y, v.y);
    ScaledSquare(n, a.z, v.z);
    FourShares(n * n, a.x * a.x, a.y * a.y, a.z * a.z, 0.0);
  }

  lemma FourShares(k: real, a: real, b: real, c: real, d: real)
    requires a + b + c + d == 1.0
    ensures k * a + k * b + k * c + k * d == k
  {
  }

  lemma ScaledSquare(n: real, a: real, p: real)
    requires p == n * a
    ensures p * p == n * n * (a * a)
  {
  }

  lemma SameSquare(n: real, o: real, k: real)
    requires 0.0 < n && 0.0 < o && k == n * n && k == o * o
    ensures n == o
  {
    SquareMono(n, o);
    SquareMono(o, n);
  }

  lemma Cancel(n: real, o: real, a: real, b: real, p: real)
    requires 0.0 < n && n == o && p == n * a && p == o * b
    ensures a == b
  {
    assert n * (a - b) == 0.0;
  }

  /** `builder::build`: refuses an empty chain and a joint whose rotation or axis is zero, and
      otherwise builds the joint that each spec denotes. */
  method Build(m: Maths, specs: seq<JointSpec>) returns (result: Option<seq<Joint>>)
    requires Blend.Faithful(m)
    ensures result.Some? <==> specs != [] && forall i :: 0 <= i < |specs| ==> Acceptable(specs[i])
    ensures result.Some? ==> |result.value| == |specs| && forall i :: 0 <= i < |specs| ==> Denotes(specs[i], result.value[i])
    ensures result.Some? ==> ValidChain(result.value)
  {
    hide Blend.Faithful, NormSq, Dot3, QuatNorm, Norm3, QuatMultiple, Times;
    if specs == [] {
      return None;
    }
    var js: seq<Joint> := [];
    for i := 0 to |specs|
      invariant |js| == i
      invariant forall k :: 0 <= k < i ==> Denotes(specs[k], js[k]) && Acceptable(specs[k])
    {
      var s := specs[i];
      var n := QuatNorm(m, s.rotation);
      QuatNormIs(m, s.rotation);
      if n == 0.0 {
        return None;
      }
      UnitQuat(s.rotation, n);
      DividedQuat(s.rotation, n);
      var rotation := Quat(s.rotation.w / n, s.rotation.x / n, s.rotation.y / n, s.rotation.z / n);
      var axis := Zero3;
      if !s.kind.Fixed? {
        var d := Norm3(m, s.direction);
        Norm3Is(m, s.direction);
        if d == 0.0 {
          return None;
        }
        UnitV3(s.direction, d);
        DividedV3(s.direction, d);
        axis := V3(s.direction.x / d, s.direction.y / d, s.direction.z / d);
      }
      js := js + [Joint(s.kind, s.translation, rotation, axis)];
    }
    return Some(js);
  }

  // ----- rigid transforms -----

  /** The rotation applies first, then the translation. */
  datatype Rigid = Rigid(rotation: Quat, translation: V3)

  const Base := Rigid(Identity, Zero3)

  function Compose(parent: Rigid, child: Rigid): Rigid {
    Rigid(Multiply(parent.rotation, child.rotation), Plus(parent.translation, Rotate(parent.rotation, child.translation)))
  }

  function Apply(t: Rigid, p: V3): V3 {
    Plus(Rotate(t.rotation, p), t.translation)
  }

  /** Composition is application one after the other. */
  lemma ApplyCompose(parent: Rigid, child: Rigid, p: V3)
    requires Unit(parent.rotation) && Unit(child.rotation)
    ensures Apply(Compose(parent, child), p) == Apply(parent, Apply(child, p))
  {
    hide Rotate, Multiply, Unit;
    RotateMultiply(parent.rotation, child.rotation, p);
    RotateAdds(parent.rotation, Rotate(child.rotation, p), child.translation);
  }

  /** `axis_rotation`. */
  function AxisRotation(m: Maths, axis: V3, theta: real): Quat {
    var half := 0.5 * theta;
    AxisQuat(m.cos(half), m.sin(half), axis)
  }

  lemma AxisRotationIsUnit(m: Maths, axis: V3, theta: real)
    requires Blend.Faithful(m) && Dot3(axis, axis) == 1.0
    ensures Unit(AxisRotation(m, axis, theta)) && Rotate(AxisRotation(m, axis, theta), axis) == axis
  {
    var half := 0.5 * theta;
    var c, s := m.cos(half), m.sin(half);
    assert Blend.OnUnitCircle(m, half);
    AxisIsFixed(c, s, axis);
    hide Rotate, Multiply, Blend.Faithful;
    UnitArithmetic(c, s, axis.x, axis.y, axis.z, Mul(s, axis.x), Mul(s, axis.y), Mul(s, axis.z));
  }

  lemma UnitArithmetic(c: real, s: real, x: real, y: real, z: real, sx: real, sy: real, sz: real)
    requires c * c + s * s == 1.0 && x * x + y * y + z * z == 1.0 && sx == s * x && sy == s * y && sz == s * z
    ensures c * c + sx * sx + sy * sy + sz * sz == 1.0
  {
    hide *;
    var ss, xx, yy, zz := s * s, x * x, y * y, z * z;
    assert sx * sx == ss * xx && sy * sy == ss * yy && sz * sz == ss * zz;
    assert ss * xx + ss * yy + ss * zz == ss * (xx + yy + zz);
  }

  function Origin(j: Joint): Rigid {
    Rigid(j.originRotation, j.translation)
  }

  /** A joint's own motion, in its own frame. */
  function Motion(m: Maths, j: Joint, d: real): Rigid {
    match j.kind
    case Fixed => Base
    case Rotating => Rigid(AxisRotation(m, j.unitAxis, d), Zero3)
    case Translating => Rigid(Identity, Times(d, j.unitAxis))
  }

  lemma MotionIsUnit(m: Maths, j: Joint, d: real)
    requires Blend.Faithful(m) && ValidJoint(j)
    ensures Unit(Motion(m, j, d).rotation)
    ensures !j.kind.Fixed? ==> Rotate(Motion(m, j, d).rotation, j.unitAxis) == j.unitAxis
  {
    hide Blend.Faithful, Rotate, AxisRotation, Unit, Dot3, Times, Multiply, NormSq, Plus;
    if j.kind.Rotating? {
      AxisRotationIsUnit(m, j.unitAxis, d);
    } else {
      RotateTrivially(Identity, j.unitAxis);
    }
  }

  /** How many of the first n joints take an entry of q. */
  function Moving(js: seq<Joint>, n: nat): (r: nat)
    requires n <= |js|
    ensures r <= n
  {
    if n == 0 then 0 else Moving(js, n - 1) + if js[n - 1].kind.Fixed? then 0 else 1
  }

  lemma {:induction false} MovingGrows(js: seq<Joint>, n: nat, k: nat)
    requires n <= k <= |js|
    ensures Moving(js, n) <= Moving(js, k)
    decreases k
  {
    if n < k {
      MovingGrows(js, n, k - 1);
    }
  }

  /** The entry of q a joint reads; a fixed joint reads none. */
  function Entry(js: seq<Joint>, q: seq<real>, i: nat): real
    requires i < |js| && |q| == Moving(js, |js|)
  {
    MovingGrows(js, i + 1, |js|);
    if js[i].kind.Fixed? then 0.0 else q[Moving(js, i)]
  }

  // ----- the walk -----

  /** The transform from the base to the frame of joint n - 1, after its motion: every joint's origin
      and motion so far, composed in order. */
  function Frame(m: Maths, js: seq<Joint>, q: seq<real>, n: nat): Rigid
    requires n <= |js| && |q| == Moving(js, |js|)
    decreases 2 * n
  {
    if n == 0 then Base else Compose(Arrived(m, js, q, n - 1), Motion(m, js[n - 1], Entry(js, q, n - 1)))
  }

  /** The transform to a joint's own frame before its motion. */
  function Arrived(m: Maths, js: seq<Joint>, q: seq<real>, i: nat): Rigid
    requires i < |js| && |q| == Moving(js, |js|)
    decreases 2 * i + 1
  {
    Compose(Frame(m, js, q, i), Origin(js[i]))
  }

  /** Where a point of the frame of joint n - 1 is, seen from the frame before joint i: each joint's
      motion and then its origin applied to the point in turn, from the tip inward. */
  function World(m: Maths, js: seq<Joint>, q: seq<real>, i: nat, n: nat, p: V3): V3
    requires i <= n <= |js| && |q| == Moving(js, |js|)
    decreases n - i
  {
    if i == n then p else Apply(Origin(js[i]), Apply(Motion(m, js[i], Entry(js, q, i)), World(m, js, q, i + 1, n, p)))
  }

  /** The running rotation stays a unit. */
  lemma {:induction false} FrameIsUnit(m: Maths, js: seq<Joint>, q: seq<real>, n: nat)
    requires Blend.Faithful(m) && ValidChain(js) && n <= |js| && |q| == Moving(js, |js|)
    ensures Unit(Frame(m, js, q, n).rotation)
    ensures n < |js| ==> Unit(Arrived(m, js, q, n).rotation)
  {
    hide Blend.Faithful, Unit, Multiply, Rotate, Motion, Entry;
    RotateTrivially(Identity, Zero3);
    if n > 0 {
      FrameIsUnit(m, js, q, n - 1);
      MotionIsUnit(m, js[n - 1], Entry(js, q, n - 1));
      UnitProduct(Arrived(m, js, q, n - 1).rotation, Motion(m, js[n - 1], Entry(js, q, n - 1)).rotation);
    }
    if n < |js| {
      UnitProduct(Frame(m, js, q, n).rotation, js[n].originRotation);
    }
  }

  /** The composed transform takes every point where the transforms one at a time take it. */
  lemma {:induction false} FrameIsWorld(m: Maths, js: seq<Joint>, q: seq<real>, i: nat, n: nat, p: V3)
    requires Blend.Faithful(m) && ValidChain(js) && i <= n <= |js| && |q| == Moving(js, |js|)
    ensures Apply(Frame(m, js, q, n), p) == Apply(Frame(m, js, q, i), World(m, js, q, i, n, p))
    decreases n - i
  {
    hide Blend.Faithful, Unit, Multiply, Rotate, Motion, Entry, Compose, Apply, Plus, Origin, ValidJoint;
    if i < n {
      var inner := World(m, js, q, i + 1, n, p);
      var motion := Motion(m, js[i], Entry(js, q, i));
      FrameIsWorld(m, js, q, i + 1, n, p);
      FrameIsUnit(m, js, q, i);
      OriginIsUnit(js[i]);
      MotionIsUnit(m, js[i], Entry(js, q, i));
      ApplyCompose(Arrived(m, js, q, i), motion, inner);
      ApplyCompose(Frame(m, js, q, i), Origin(js[i]), Apply(motion, inner));
    }
  }

  /** What one joint does to a point of its frame, seen from the frame before it: slide it along the axis or turn it
      about the axis, then turn it by the joint's origin rotation, and then move it by the joint's
      translation. */
  lemma JointTakes(m: Maths, j: Joint, d: real, p: V3)
    ensures var moved := match j.kind
              case Fixed => p
              case Rotating => Rotate(AxisRotation(m, j.unitAxis, d), p)
              case Translating => Plus(p, Times(d, j.unitAxis));
            Apply(Origin(j), Apply(Motion(m, j, d), p)) == Plus(Rotate(j.originRotation, moved), j.translation)
  {
    hide Rotate, Multiply, AxisRotation;
    IdentityTurns(p);
  }

  lemma IdentityTurns(p: V3)
    ensures Rotate(Identity, p) == p
  {
    RotateTrivially(Identity, p);
  }

  lemma OriginIsUnit(j: Joint)
    requires ValidJoint(j)
    ensures Unit(Origin(j).rotation)
  {
  }

  lemma BaseApplies(p: V3)
    ensures Apply(Base, p) == p
  {
    hide Rotate, Multiply, Unit;
    RotateTrivially(Identity, p);
  }

  lemma OriginApplies(t: Rigid)
    ensures Apply(t, Zero3) == t.translation
  {
    hide Rotate, Multiply, Unit;
    RotateTrivially(t.rotation, Zero3);
  }

  /** The walk's position is the origin of the last frame it visits, taken through every joint's motion
      and origin in turn. */
  lemma WalkReachesTheFrame(m: Maths, js: seq<Joint>, q: seq<real>, n: nat)
    requires Blend.Faithful(m) && ValidChain(js) && n <= |js| && |q| == Moving(js, |js|)
    ensures Frame(m, js, q, n).translation == World(m, js, q, 0, n, Zero3)
  {
    hide Blend.Faithful, Apply, World, Motion, ValidChain;
    FrameIsWorld(m, js, q, 0, n, Zero3);
    BaseApplies(World(m, js, q, 0, n, Zero3));
    OriginApplies(Frame(m, js, q, n));
  }

  /** What the walk captures of a moving joint before applying its motion: its axis and origin in the
      base frame. */
  datatype Captured = Captured(axis: V3, position: V3, translates: bool)

  function Capture(m: Maths, js: seq<Joint>, q: seq<real>, i: nat): Captured
    requires i < |js| && |q| == Moving(js, |js|)
  {
    var arrived := Arrived(m, js, q, i);
    Captured(Rotate(arrived.rotation, js[i].unitAxis), arrived.translation, js[i].kind.Translating?)
  }

  function Captures(m: Maths, js: seq<Joint>, q: seq<real>, n: nat): (r: seq<Captured>)
    requires n <= |js| && |q| == Moving(js, |js|)
    ensures |r| == Moving(js, n)
  {
    if n == 0 then []
    else Captures(m, js, q, n - 1) + if js[n - 1].kind.Fixed? then [] else [Capture(m, js, q, n - 1)]
  }

  /** A captured axis is a unit vector, and the joint's own motion does not turn it. */
  lemma MotionKeepsAxis(m: Maths, js: seq<Joint>, q: seq<real>, i: nat)
    requires Blend.Faithful(m) && ValidChain(js) && i < |js| && |q| == Moving(js, |js|) && !js[i].kind.Fixed?
    ensures var axis := Capture(m, js, q, i).axis;
            Dot3(axis, axis) == 1.0 && Rotate(Frame(m, js, q, i + 1).rotation, js[i].unitAxis) == axis
  {
    hide Blend.Faithful, Unit, Multiply, Rotate, Motion, Entry, Arrived, Dot3;
    var arrived, motion := Arrived(m, js, q, i), Motion(m, js[i], Entry(js, q, i));
    FrameIsUnit(m, js, q, i);
    MotionIsUnit(m, js[i], Entry(js, q, i));
    RotateKeepsDot(arrived.rotation, js[i].unitAxis, js[i].unitAxis);
    RotateMultiply(arrived.rotation, motion.rotation, js[i].unitAxis);
  }

  // ----- what moving one joint does -----

  /** The rigid motion of the world that a moving joint's further displacement is: a slide along its
      captured axis, or a turn about the line through its captured position along that axis. */
  function Turn(m: Maths, c: Captured, e: real): Rigid {
    if c.translates then Rigid(Identity, Times(e, c.axis))
    else var r := AxisRotation(m, c.axis, e); Rigid(r, Minus(c.position, Rotate(r, c.position)))
  }

  lemma ComposeAssociative(a: Rigid, b: Rigid, c: Rigid)
    requires Unit(a.rotation) && Unit(b.rotation)
    ensures Compose(Compose(a, b), c) == Compose(a, Compose(b, c))
  {
    hide Rotate, Multiply, Unit;
    MultiplyAssociative(a.rotation, b.rotation, c.rotation);
    RotateMultiply(a.rotation, b.rotation, c.translation);
    RotateAdds(a.rotation, b.translation, Rotate(b.rotation, c.translation));
  }

  lemma AxisRotationsAdd(m: Maths, u: V3, d: real, e: real)
    requires Blend.Faithful(m) && Dot3(u, u) == 1.0
    ensures AxisRotation(m, u, d + e) == Multiply(AxisRotation(m, u, e), AxisRotation(m, u, d))
  {
    var x, y := 0.5 * e, 0.5 * d;
    assert 0.5 * (d + e) == x + y;
    assert Blend.AddsAngles(m, x, y);
    hide Blend.Faithful, Multiply, AxisQuat, Dot3;
    AxisQuatSum(m.cos(x), m.sin(x), m.cos(y), m.sin(y), u, m.cos(x + y), m.sin(x + y));
  }

  /** A joint that moves further moves its frame by the world motion. */
  lemma MotionTurns(m: Maths, arrived: Rigid, j: Joint, d: real, e: real)
    requires Blend.Faithful(m) && Unit(arrived.rotation) && ValidJoint(j) && !j.kind.Fixed?
    ensures var c := Captured(Rotate(arrived.rotation, j.unitAxis), arrived.translation, j.kind.Translating?);
            Unit(Turn(m, c, e).rotation) &&
            Compose(arrived, Motion(m, j, d + e)) == Compose(Turn(m, c, e), Compose(arrived, Motion(m, j, d)))
  {
    var a, p, u := arrived.rotation, arrived.translation, j.unitAxis;
    var w := Rotate(a, u);
    hide Blend.Faithful, Unit, Multiply, Rotate, Dot3, Times, AxisRotation;
    if j.kind.Translating? {
      RotateTrivially(a, Plus(p, Rotate(a, Times(d, u))));
      RotateTrivially(Multiply(a, Identity), u);
      IdentityMultiplies(a);
      RotateScales(a, d + e, u);
      RotateScales(a, d, u);
      TimesSum(d, e, w);
    } else {
      var r := AxisRotation(m, w, e);
      RotateKeepsDot(a, u, u);
      AxisRotationIsUnit(m, w, e);
      RotateTrivially(a, u);
      RotateTrivially(Multiply(a, AxisRotation(m, u, d)), u);
      PlusZero(p);
      AxisRotationsAdd(m, u, d, e);
      AxisRotationConjugates(m, a, u, e);
      MultiplyAssociative(r, a, AxisRotation(m, u, d));
      MultiplyAssociative(a, AxisRotation(m, u, e), AxisRotation(m, u, d));
    }
  }

  lemma AxisRotationConjugates(m: Maths, a: Quat, u: V3, e: real)
    requires Unit(a)
    ensures Multiply(a, AxisRotation(m, u, e)) == Multiply(AxisRotation(m, Rotate(a, u), e), a)
  {
    hide Multiply, Rotate, Unit, AxisQuat;
    AxisConjugates(a, m.cos(0.5 * e), m.sin(0.5 * e), u);
  }

  lemma IdentityMultiplies(a: Quat)
    ensures Multiply(Identity, a) == a
  {
  }

  lemma TimesSum(d: real, e: real, w: V3)
    ensures Times(d + e, w) == Plus(Times(e, w), Times(d, w))
  {
  }

  lemma PlusZero(a: V3)
    ensures Plus(a, Zero3) == a
  {
  }

  /** Moving joints read different entries. */
  lemma EntriesDiffer(js: seq<Joint>, i: nat, j: nat)
    requires i < |js| && j < |js| && i != j && !js[i].kind.Fixed? && !js[j].kind.Fixed?
    ensures Moving(js, i) != Moving(js, j)
  {
    if i < j {
      MovingGrows(js, i + 1, j);
    } else {
      MovingGrows(js, j + 1, i);
    }
  }

  /** The joint vector with joint j displaced further. */
  function Displaced(js: seq<Joint>, q: seq<real>, j: nat, e: real): (r: seq<real>)
    requires j < |js| && |q| == Moving(js, |js|) && !js[j].kind.Fixed?
    ensures |r| == |q|
  {
    MovingGrows(js, j + 1, |js|);
    q[Moving(js, j) := q[Moving(js, j)] + e]
  }

  lemma EntryDisplaced(js: seq<Joint>, q: seq<real>, j: nat, e: real, i: nat)
    requires i < |js| && j < |js| && |q| == Moving(js, |js|) && !js[j].kind.Fixed?
    ensures Entry(js, Displaced(js, q, j, e), i) == if i == j then Entry(js, q, j) + e else Entry(js, q, i)
  {
    MovingGrows(js, i + 1, |js|);
    if i != j && !js[i].kind.Fixed? {
      EntriesDiffer(js, i, j);
    }
  }

  /** Displacing one joint leaves every frame before it alone and moves every frame from its own on by
      one and the same motion of the world, about the axis and position the walk captured. */
  lemma {:induction false} JointMovesTheRest(m: Maths, js: seq<Joint>, q: seq<real>, j: nat, e: real, n: nat)
    requires Blend.Faithful(m) && ValidChain(js) && j < |js| && n <= |js| && |q| == Moving(js, |js|) && !js[j].kind.Fixed?
    ensures var moved, turn := Frame(m, js, Displaced(js, q, j, e), n), Turn(m, Capture(m, js, q, j), e);
            Unit(turn.rotation) && moved == if n <= j then Frame(m, js, q, n) else Compose(turn, Frame(m, js, q, n))
  {
    var qe, c := Displaced(js, q, j, e), Capture(m, js, q, j);
    var turn := Turn(m, c, e);
    hide Blend.Faithful, Unit, Compose, Turn, Rotate, Motion, Entry, Displaced, ValidJoint;
    FrameIsUnit(m, js, q, j);
    MotionTurns(m, Arrived(m, js, q, j), js[j], Entry(js, q, j), e);
    if n > 0 {
      var i := n - 1;
      JointMovesTheRest(m, js, q, j, e, i);
      EntryDisplaced(js, q, j, e, i);
      if i > j {
        FrameIsUnit(m, js, q, i);
        OriginIsUnit(js[i]);
        ComposeAssociative(turn, Frame(m, js, q, i), Origin(js[i]));
        ComposeAssociative(turn, Arrived(m, js, q, i), Motion(m, js[i], Entry(js, q, i)));
      }
    }
  }

  /** So displacing a joint carries the captured position of every later joint, and turns its axis, by
      that motion, and changes nothing captured up to itself: the finite motion whose rates are
      `PointRate` for positions and the cross product of the axes for axes. */
  lemma JointMovesLaterCaptures(m: Maths, js: seq<Joint>, q: seq<real>, j: nat, e: real, i: nat)
    requires Blend.Faithful(m) && ValidChain(js) && j < |js| && i < |js| && |q| == Moving(js, |js|)
    requires !js[j].kind.Fixed? && !js[i].kind.Fixed?
    ensures var before, after := Capture(m, js, q, i), Capture(m, js, Displaced(js, q, j, e), i);
            var turn := Turn(m, Capture(m, js, q, j), e);
            after == if i <= j then before
            else Captured(Rotate(turn.rotation, before.axis), Apply(turn, before.position), before.translates)
  {
    var turn := Turn(m, Capture(m, js, q, j), e);
    hide Blend.Faithful, Unit, Multiply, Rotate, Turn, Displaced, Frame, ValidJoint;
    JointMovesTheRest(m, js, q, j, e, i);
    FrameIsUnit(m, js, q, i);
    OriginIsUnit(js[i]);
    if i > j {
      ComposeAssociative(turn, Frame(m, js, q, i), Origin(js[i]));
      RotateMultiply(turn.rotation, Arrived(m, js, q, i).rotation, js[i].unitAxis);
      PlusCommutes(turn.translation, Rotate(turn.rotation, Arrived(m, js, q, i).translation));
    }
  }

  lemma PlusCommutes(a: V3, b: V3)
    ensures Plus(a, b) == Plus(b, a)
  {
  }

  /** The workspace the walk fills: reused storage whose earlier contents do not matter. */
  class Workspace {
    var joints: seq<Captured>
    var pe: V3

    constructor ()
    {
      joints := [];
      pe := Zero3;
    }

    /** `update_chain_state_`: false when q has the wrong number of entries. */
    method UpdateChainState(m: Maths, js: seq<Joint>, q: seq<real>, lastJoint: nat) returns (ok: bool)
      requires lastJoint < |js|
      modifies this
      ensures ok <==> |q| == Moving(js, |js|)
      ensures ok ==> joints == Captures(m, js, q, lastJoint + 1) && pe == Frame(m, js, q, lastJoint + 1).translation
      ensures !ok ==> joints == old(joints) && pe == old(pe)
    {
      hide Rotate, Multiply, AxisRotation, Plus, Times;
      if |q| != Moving(js, |js|) {
        return false;
      }
      joints := [];
      var running := Base;
      var qi := 0;
      for index := 0 to lastJoint + 1
        invariant running == Frame(m, js, q, index)
        invariant joints == Captures(m, js, q, index) && qi == Moving(js, index)
      {
        var j := js[index];
        MovingGrows(js, index + 1, |js|);
        ghost var motion := Motion(m, j, Entry(js, q, index));
        running := Compose(running, Origin(j));
        ghost var arrived := running;
        RotateTrivially(arrived.rotation, Zero3);
        if !j.kind.Fixed? {
          var axis := Rotate(running.rotation, j.unitAxis);
          joints := joints + [Captured(axis, running.translation, j.kind.Translating?)];
          if j.kind.Translating? {
            var d := q[qi];
            RotateScales(arrived.rotation, d, j.unitAxis);
            running := running.(translation := Plus(running.translation, Times(d, axis)));
          } else {
            running := running.(rotation := Multiply(running.rotation, AxisRotation(m, j.unitAxis, q[qi])));
          }
          qi := qi + 1;
        }
        PlusZero(arrived.translation);
        assert running == Compose(arrived, motion);
      }
      pe := running.translation;
      return true;
    }
  }

  // ----- velocity and acceleration -----

  /** The rate at which a joint moves a point: along its axis, or around it. */
  function PointRate(c: Captured, p: V3): V3 {
    if c.translates then c.axis else Cross(c.axis, Minus(p, c.position))
  }

  /** A column of the linear Jacobian (`linear_column`). */
  function LinearColumn(c: Captured, pe: V3): V3 {
    PointRate(c, pe)
  }

  /** J_v times a joint velocity, over the first n joints. */
  function Velocity(cs: seq<Captured>, pe: V3, qd: seq<real>, n: nat): V3
    requires n <= |cs| <= |qd|
  {
    if n == 0 then Zero3
    else Plus(Velocity(cs, pe, qd, n - 1), Times(qd[n - 1], LinearColumn(cs[n - 1], pe)))
  }

  /** The derivative of joint i's captured axis by joint j's coordinate: only a rotating joint before i
      turns it. */
  function AxisPartial(cs: seq<Captured>, i: nat, j: nat): V3
    requires i < |cs| && j < |cs|
  {
    if j < i && !cs[j].translates then Cross(cs[j].axis, cs[i].axis) else Zero3
  }

  /** The derivative of joint i's captured origin by joint j's coordinate: only joints before i move
      it. */
  function PositionPartial(cs: seq<Captured>, i: nat, j: nat): V3
    requires i < |cs| && j < |cs|
  {
    if j < i then PointRate(cs[j], cs[i].position) else Zero3
  }

  /** The derivative of column i by joint j's coordinate, by the product rule. */
  function ColumnPartial(cs: seq<Captured>, pe: V3, i: nat, j: nat): V3
    requires i < |cs| && j < |cs|
  {
    var dw := AxisPartial(cs, i, j);
    if cs[i].translates then dw
    else Plus(Cross(dw, Minus(pe, cs[i].position)),
              Cross(cs[i].axis, Minus(PointRate(cs[j], pe), PositionPartial(cs, i, j))))
  }

  /** The rate of column i: its derivatives by the first n coordinates, each times that coordinate's
      rate. */
  function ColumnRate(cs: seq<Captured>, pe: V3, qd: seq<real>, i: nat, n: nat): V3
    requires i < |cs| && n <= |cs| <= |qd|
  {
    if n == 0 then Zero3
    else Plus(ColumnRate(cs, pe, qd, i, n - 1), Times(qd[n - 1], ColumnPartial(cs, pe, i, n - 1)))
  }

  /** The double sum: the Jacobian's derivative applied to the joint velocity, plus the Jacobian
      applied to the joint acceleration. */
  function Acceleration(cs: seq<Captured>, pe: V3, qd: seq<real>, qdd: seq<real>, n: nat): V3
    requires n <= |cs| <= |qd| && |cs| <= |qdd|
  {
    if n == 0 then Zero3
    else Plus(Plus(Acceleration(cs, pe, qd, qdd, n - 1), Times(qd[n - 1], ColumnRate(cs, pe, qd, n - 1, |cs|))),
              Times(qdd[n - 1], LinearColumn(cs[n - 1], pe)))
  }

  // ----- the running accumulators -----

  /** Angular velocity from the rotating joints before i. */
  function Omega(cs: seq<Captured>, qd: seq<real>, i: nat): V3
    requires i <= |cs| <= |qd|
  {
    if i == 0 then Zero3
    else if cs[i - 1].translates then Omega(cs, qd, i - 1)
    else Plus(Omega(cs, qd, i - 1), Times(qd[i - 1], cs[i - 1].axis))
  }

  /** The sum of (w q') x p over those joints. */
  function Offset(cs: seq<Captured>, qd: seq<real>, i: nat): V3
    requires i <= |cs| <= |qd|
  {
    if i == 0 then Zero3
    else if cs[i - 1].translates then Offset(cs, qd, i - 1)
    else Plus(Offset(cs, qd, i - 1), Cross(Times(qd[i - 1], cs[i - 1].axis), cs[i - 1].position))
  }

  /** The sum of w q' over the translating joints before i. */
  function Slide(cs: seq<Captured>, qd: seq<real>, i: nat): V3
    requires i <= |cs| <= |qd|
  {
    if i == 0 then Zero3
    else if cs[i - 1].translates then Plus(Slide(cs, qd, i - 1), Times(qd[i - 1], cs[i - 1].axis))
    else Slide(cs, qd, i - 1)
  }

  /** The velocity of a point carried by the joints before i. */
  function Carried(cs: seq<Captured>, qd: seq<real>, i: nat, p: V3): V3
    requires i <= |cs| <= |qd|
  {
    Plus(Minus(Cross(Omega(cs, qd, i), p), Offset(cs, qd, i)), Slide(cs, qd, i))
  }

  /** One more joint carries a point at its own rate on top. */
  lemma CarriedStep(cs: seq<Captured>, qd: seq<real>, i: nat, p: V3)
    requires i < |cs| <= |qd|
    ensures Carried(cs, qd, i + 1, p) == Plus(Carried(cs, qd, i, p), Times(qd[i], PointRate(cs[i], p)))
  {
    hide Cross, Times;
    var c, k, o := cs[i], qd[i], Omega(cs, qd, i);
    if !c.translates {
      var w := Times(k, c.axis);
      CrossPlusLeft(o, w, p);
      CrossMinusRight(c.axis, p, c.position);
      CrossTimesLeft(k, c.axis, p);
      CrossTimesLeft(k, c.axis, c.position);
      TimesMinus(k, Cross(c.axis, p), Cross(c.axis, c.position));
    }
  }

  /** One more joint turns an axis at its own rate on top. */
  lemma TurnedStep(cs: seq<Captured>, qd: seq<real>, i: nat, j: nat)
    requires j < i < |cs| <= |qd|
    ensures Cross(Omega(cs, qd, j + 1), cs[i].axis) == Plus(Cross(Omega(cs, qd, j), cs[i].axis), Times(qd[j], AxisPartial(cs, i, j)))
  {
    hide Cross, Times;
    if cs[j].translates {
      TimesZero(qd[j]);
    } else {
      CrossPlusLeft(Omega(cs, qd, j), Times(qd[j], cs[j].axis), cs[i].axis);
      CrossTimesLeft(qd[j], cs[j].axis, cs[i].axis);
    }
  }

  /** The rate of a column from the accumulators, when the joints before k have been counted. */
  function RateSoFar(cs: seq<Captured>, pe: V3, qd: seq<real>, i: nat, n: nat): V3
    requires i < |cs| && n <= |cs| <= |qd|
  {
    var k := if n < i then n else i;
    var dw := Cross(Omega(cs, qd, k), cs[i].axis);
    if cs[i].translates then dw
    else Plus(Cross(dw, Minus(pe, cs[i].position)),
              Cross(cs[i].axis, Minus(Velocity(cs, pe, qd, n), Carried(cs, qd, k, cs[i].position))))
  }

  /** What one more coordinate adds to a rotating joint's column rate. */
  lemma ProductRule(dw: V3, dr: V3, k: real, aw: V3, ar: V3, r: V3, w: V3)
    ensures Plus(Plus(Cross(dw, r), Cross(w, dr)), Times(k, Plus(Cross(aw, r), Cross(w, ar)))) ==
            Plus(Cross(Plus(dw, Times(k, aw)), r), Cross(w, Plus(dr, Times(k, ar))))
  {
    hide Cross, Times;
    CrossPlusLeft(dw, Times(k, aw), r);
    CrossTimesLeft(k, aw, r);
    CrossPlusRight(w, dr, Times(k, ar));
    CrossTimesRight(k, w, ar);
    TimesPlus(k, Cross(aw, r), Cross(w, ar));
  }

  /** The accumulators give the inner sum: for every mix of rotating and translating joints, the rate
      of a column is what the one pass computes. */
  lemma {:induction false} ColumnRateIsOnePass(cs: seq<Captured>, pe: V3, qd: seq<real>, i: nat, n: nat)
    requires i < |cs| && n <= |cs| <= |qd|
    ensures ColumnRate(cs, pe, qd, i, n) == RateSoFar(cs, pe, qd, i, n)
  {
    hide Cross, Times, Carried, Omega, AxisPartial, PositionPartial, PointRate;
    var w, p := cs[i].axis, cs[i].position;
    if n == 0 {
      NothingYet(cs, pe, qd, i);
    } else {
      var j := n - 1;
      ColumnRateIsOnePass(cs, pe, qd, i, j);
      CountOne(cs, pe, qd, i, j);
    }
  }

  lemma NothingYet(cs: seq<Captured>, pe: V3, qd: seq<real>, i: nat)
    requires i < |cs| <= |qd|
    ensures RateSoFar(cs, pe, qd, i, 0) == Zero3
  {
    hide Cross;
    CrossZero(cs[i].axis);
    CrossZero(cs[i].position);
    CrossZero(Minus(pe, cs[i].position));
  }

  lemma CountOne(cs: seq<Captured>, pe: V3, qd: seq<real>, i: nat, j: nat)
    requires i < |cs| && j < |cs| <= |qd|
    ensures Plus(RateSoFar(cs, pe, qd, i, j), Times(qd[j], ColumnPartial(cs, pe, i, j))) == RateSoFar(cs, pe, qd, i, j + 1)
  {
    hide Cross, Times, Carried, Omega, PointRate;
    var w, p, r, q := cs[i].axis, cs[i].position, Minus(pe, cs[i].position), qd[j];
    var k := if j < i then j else i;
    var dw, aw := Cross(Omega(cs, qd, k), w), AxisPartial(cs, i, j);
    var v, carried := Velocity(cs, pe, qd, j), Carried(cs, qd, k, p);
    var col, moved := PointRate(cs[j], pe), PositionPartial(cs, i, j);
    TimesZero(q);
    if j < i {
      TurnedStep(cs, qd, i, j);
      CarriedStep(cs, qd, j, p);
    }
    if !cs[i].translates {
      ProductRule(dw, Minus(v, carried), q, aw, Minus(col, moved), r, w);
      TimesMinus(q, col, moved);
    }
  }

  // ----- the one pass -----

  datatype Outcome =
    | OutOfRange
    | SizeMismatch
    | Kinematics(position: V3, velocity: V3, acceleration: V3)

  /** The first pass: the frame's velocity. */
  method FrameVelocity(cs: seq<Captured>, pe: V3, qd: seq<real>) returns (v: V3)
    requires |cs| <= |qd|
    ensures v == Velocity(cs, pe, qd, |cs|)
  {
    hide Cross, Times;
    v := Zero3;
    for i := 0 to |cs|
      invariant v == Velocity(cs, pe, qd, i)
    {
      var col := LinearColumn(cs[i], pe);
      v := Plus(v, Times(qd[i], col));
    }
  }

  /** The second pass: differentiating the velocity from the base to the tip with three running sums.
      It computes the double sum over joint pairs, whatever the mix of joints. */
  method FrameAcceleration(cs: seq<Captured>, pe: V3, qd: seq<real>, qdd: seq<real>, v: V3) returns (dv: V3)
    requires |cs| <= |qd| && |cs| <= |qdd| && v == Velocity(cs, pe, qd, |cs|)
    ensures dv == Acceleration(cs, pe, qd, qdd, |cs|)
  {
    hide Cross, Times, ColumnRate, Velocity;
    dv := Zero3;
    var omega, c, t := Zero3, Zero3, Zero3;
    for i := 0 to |cs|
      invariant dv == Acceleration(cs, pe, qd, qdd, i)
      invariant omega == Omega(cs, qd, i) && c == Offset(cs, qd, i) && t == Slide(cs, qd, i)
    {
      var w, p := cs[i].axis, cs[i].position;
      var dw := Cross(omega, w);
      var col, dCol := w, dw;
      if !cs[i].translates {
        var r := Minus(pe, p);
        col := Cross(w, r);
        var point := Plus(Minus(Cross(omega, p), c), t);
        var dr := Minus(v, point);
        dCol := Plus(Cross(dw, r), Cross(w, dr));
      }
      ColumnRateIsOnePass(cs, pe, qd, i, |cs|);
      dv := Plus(Plus(dv, Times(qd[i], dCol)), Times(qdd[i], col));
      var wq := Times(qd[i], w);
      if cs[i].translates {
        t := Plus(t, wq);
      } else {
        omega := Plus(omega, wq);
        c := Plus(c, Cross(wq, p));
      }
    }
  }

  /** `forward_kinematics`: the position, velocity and acceleration of a joint's frame, for every joint
      and every joint state, from the joints up to that one only. */
  method ForwardKinematics(m: Maths, js: seq<Joint>, joint: nat, q: seq<real>, qd: seq<real>, qdd: seq<real>, storage: Workspace)
    returns (r: Outcome)
    modifies storage
    ensures r.OutOfRange? <==> joint >= |js|
    ensures joint < |js| ==>
              (r.SizeMismatch? <==> |q| != Moving(js, |js|) || |qd| != Moving(js, |js|) || |qdd| != Moving(js, |js|))
    ensures r.Kinematics? ==>
              var cs := Captures(m, js, q, joint + 1);
              r.position == Frame(m, js, q, joint + 1).translation && |cs| <= |qd| == |qdd| &&
              r.velocity == Velocity(cs, r.position, qd, |cs|) &&
              r.acceleration == Acceleration(cs, r.position, qd, qdd, |cs|)
  {
    hide Captures, Frame, Velocity, Acceleration;
    if joint >= |js| {
      return OutOfRange;
    }
    if |qd| != Moving(js, |js|) || |qdd| != Moving(js, |js|) {
      return SizeMismatch;
    }
    var ok := storage.UpdateChainState(m, js, q, joint);
    if !ok {
      return SizeMismatch;
    }
    MovingGrows(js, joint + 1, |js|);
    var cs, pe := storage.joints, storage.pe;
    var v := FrameVelocity(cs, pe, qd);
    var dv := FrameAcceleration(cs, pe, qd, qdd, v);
    return Kinematics(pe, v, dv);
  }

  /** `linear_jacobian` and the upper rows of `jacobian`; the lower rows are the axes of the rotating
      joints. */
  method Jacobian(m: Maths, js: seq<Joint>, q: seq<real>, storage: Workspace) returns (columns: Option<seq<(V3, V3)>>)
    requires js != []
    modifies storage
    ensures columns.Some? <==> |q| == Moving(js, |js|)
    ensures columns.Some? ==>
              var cs, pe := Captures(m, js, q, |js|), Frame(m, js, q, |js|).translation;
              |columns.value| == |cs| &&
              forall i :: 0 <= i < |cs| ==>
                            columns.value[i] == (LinearColumn(cs[i], pe), if cs[i].translates then Zero3 else cs[i].axis)
  {
    hide Captures, Frame, LinearColumn;
    var ok := storage.UpdateChainState(m, js, q, |js| - 1);
    if !ok {
      return None;
    }
    var cs := storage.joints;
    var result: seq<(V3, V3)> := [];
    for i := 0 to |cs|
      invariant |result| == i
      invariant forall k :: 0 <= k < i ==>
                              result[k] == (LinearColumn(cs[k], storage.pe), if cs[k].translates then Zero3 else cs[k].axis)
    {
      result := result + [(LinearColumn(cs[i], storage.pe), if cs[i].translates then Zero3 else cs[i].axis)];
    }
    return Some(result);
  }
}
