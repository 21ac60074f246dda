/** What a joint's displacement does to the columns of the Jacobian (kinematics/chain.cpp,
    `linear_column`): the finite differences whose rates the product rule of the acceleration pass adds
    up. */
module ColumnChange {
  import opened Reals
  import opened Rotations
  import opened Chain
  import Blend

  // ----- vector algebra -----

  lemma TimesTimes(a: real, b: real, v: V3, k: real)
    requires k == a * b
    ensures Times(a, Times(b, v)) == Times(k, v)
  {
    Associate3(a, b, v.x, k);
    Associate3(a, b, v.y, k);
    Associate3(a, b, v.z, k);
  }

  lemma Associate3(a: real, b: real, x: real, k: real)
    requires k == a * b
    ensures a * (b * x) == k * x
  {
  }

  /** A product of two factors and a two, taken one at a time. */
  lemma TimesThrice(c: real, s: real, v: V3, k: real)
    requires k == 2.0 * (c * s)
    ensures Times(c, Times(2.0, Times(s, v))) == Times(k, v)
  {
    hide Times;
    var t := 2.0 * s;
    TimesTimes(2.0, s, v, t);
    TimesTimes(c, t, v, k);
  }

  /** The Jacobi identity. */
  lemma Jacobi(a: V3, b: V3, r: V3)
    ensures Plus(Cross(Cross(a, b), r), Cross(b, Cross(a, r))) == Cross(a, Cross(b, r))
  {
    var ab, ar, br := Cross(a, b), Cross(a, r), Cross(b, r);
    CrossIs(a, b);
    CrossIs(a, r);
    CrossIs(b, r);
    CrossIs(ab, r);
    CrossIs(b, ar);
    CrossIs(a, br);
    hide Cross, Mul;
    JacobiOne(a.x, a.y, a.z, b.x, b.y, b.z, r.x, r.y, r.z, ab.y, ab.z, ar.y, ar.z, br.y, br.z);
    JacobiOne(a.y, a.z, a.x, b.y, b.z, b.x, r.y, r.z, r.x, ab.z, ab.x, ar.z, ar.x, br.z, br.x);
    JacobiOne(a.z, a.x, a.y, b.z, b.x, b.y, r.z, r.x, r.y, ab.x, ab.y, ar.x, ar.y, br.x, br.y);
  }

  /** One component of it. */
  lemma JacobiOne(ax: real, ay: real, az: real, bx: real, by_: real, bz: real, rx: real, ry: real, rz: real,
                  aby: real, abz: real, ary: real, arz: real, bry: real, brz: real)
    requires aby == Mul(az, bx) - Mul(ax, bz) && abz == Mul(ax, by_) - Mul(ay, bx)
    requires ary == Mul(az, rx) - Mul(ax, rz) && arz == Mul(ax, ry) - Mul(ay, rx)
    requires bry == Mul(bz, rx) - Mul(bx, rz) && brz == Mul(bx, ry) - Mul(by_, rx)
    ensures Mul(aby, rz) - Mul(abz, ry) + (Mul(by_, arz) - Mul(bz, ary)) == Mul(ay, brz) - Mul(az, bry)
  {
    hide Mul, Mul3;
    SpreadTwo(aby, az, bx, ax, bz, rz);
    SpreadTwo(abz, ax, by_, ay, bx, ry);
    SpreadTwo(arz, ax, ry, ay, rx, by_);
    SpreadTwo(ary, az, rx, ax, rz, bz);
    SpreadTwo(brz, bx, ry, by_, rx, ay);
    SpreadTwo(bry, bz, rx, bx, rz, az);
    Shuffle(ax, by_, ry);
    Shuffle(ax, bz, rz);
    Shuffle(ay, bx, ry);
    Shuffle(az, bx, rz);
    Shuffle(ay, by_, rx);
    Shuffle(az, bz, rx);
  }

  lemma SpreadTwo(p: real, a: real, b: real, c: real, d: real, k: real)
    requires p == Mul(a, b) - Mul(c, d)
    ensures Mul(p, k) == Mul3(a, b, k) - Mul3(c, d, k) && Mul(k, p) == Mul3(a, b, k) - Mul3(c, d, k)
  {
  }

  lemma Shuffle(a: real, b: real, c: real)
    ensures Mul3(a, b, c) == Mul3(a, c, b) == Mul3(b, a, c) == Mul3(b, c, a) == Mul3(c, a, b) == Mul3(c, b, a)
  {
  }

  lemma CrossTwice(k: real, w: V3, j: real, r: V3)
    ensures Cross(Times(k, w), Times(j, r)) == Times(k, Times(j, Cross(w, r)))
  {
    hide Cross, Times;
    CrossTimesLeft(k, w, Times(j, r));
    CrossTimesRight(j, w, r);
  }

  // ----- turning -----

  /** The displacement a turn by e gives to what moves at a rate about the axis w. */
  function Swing(m: Maths, e: real, w: V3, rate: V3): V3 {
    Plus(Times(m.sin(e), rate), Times(1.0 - m.cos(e), Cross(w, rate)))
  }

  lemma HalfAngle(m: Maths, e: real)
    requires Blend.Faithful(m)
    ensures var h := 0.5 * e; m.sin(e) == 2.0 * (m.cos(h) * m.sin(h)) && 1.0 - m.cos(e) == 2.0 * (m.sin(h) * m.sin(h))
  {
    var h := 0.5 * e;
    assert h + h == e;
    assert Blend.AddsAngles(m, h, h) && Blend.OnUnitCircle(m, h);
  }

  /** Rotation about an axis: r + sin e (w x r) + (1 - cos e) w x (w x r). */
  lemma TurnSwings(m: Maths, e: real, w: V3, r: V3)
    requires Blend.Faithful(m)
    ensures Rotate(AxisRotation(m, w, e), r) == Plus(r, Swing(m, e, w, Cross(w, r)))
  {
    var c, s := m.cos(0.5 * e), m.sin(0.5 * e);
    HalfAngle(m, e);
    QuatTurns(c, s, w, r);
    hide *;
    TurnFold(m, e, w, r, c, s);
  }

  lemma TurnFold(m: Maths, e: real, w: V3, r: V3, c: real, s: real)
    requires m.sin(e) == 2.0 * (c * s) && 1.0 - m.cos(e) == 2.0 * (s * s)
    ensures Plus(Plus(r, Times(2.0 * (c * s), Cross(w, r))), Times(2.0 * (s * s), Cross(w, Cross(w, r)))) ==
            Plus(r, Swing(m, e, w, Cross(w, r)))
  {
    hide Times, Cross;
  }

  lemma QuatTurns(c: real, s: real, w: V3, r: V3)
    ensures Rotate(AxisQuat(c, s, w), r) ==
            Plus(Plus(r, Times(2.0 * (c * s), Cross(w, r))), Times(2.0 * (s * s), Cross(w, Cross(w, r))))
  {
    var q := AxisQuat(c, s, w);
    assert V3(q.x, q.y, q.z) == Times(s, w);
    hide Times, Cross, AxisQuat;
    var k := Cross(w, r);
    CrossTimesLeft(s, w, r);
    CrossTwice(s, w, 2.0, Times(s, k));
    CrossTimesRight(s, w, k);
    TimesThrice(c, s, k, 2.0 * (c * s));
    TimesThrice(s, s, Cross(w, k), 2.0 * (s * s));
  }

  lemma SwingMinus(m: Maths, e: real, w: V3, a: V3, b: V3)
    ensures Swing(m, e, w, Minus(a, b)) == Minus(Swing(m, e, w, a), Swing(m, e, w, b))
  {
    hide Times, Cross;
    CrossMinusRight(w, a, b);
    TimesMinus(m.sin(e), a, b);
    TimesMinus(1.0 - m.cos(e), Cross(w, a), Cross(w, b));
  }

  /** How far a joint's displacement by e takes what it moves at a rate. */
  function Displacement(m: Maths, c: Captured, e: real, rate: V3): V3 {
    if c.translates then Times(e, rate) else Swing(m, e, c.axis, rate)
  }

  /** The joint's motion takes each point by the displacement of its rate: exactly e times the rate along a
      slide; about an axis sin e times the rate, and 1 - cos e times what the axis makes of the rate. */
  lemma PointMoves(m: Maths, c: Captured, e: real, p: V3)
    requires Blend.Faithful(m)
    ensures Apply(Turn(m, c, e), p) == Plus(p, Displacement(m, c, e, PointRate(c, p)))
  {
    if c.translates {
      hide Rotate, Times;
      RotateTrivially(Identity, p);
    } else {
      TurnSwings(m, e, c.axis, p);
      TurnSwings(m, e, c.axis, c.position);
      hide Rotate, Cross, Times, Swing, AxisRotation, Blend.Faithful;
      SwingMinus(m, e, c.axis, Cross(c.axis, p), Cross(c.axis, c.position));
      CrossMinusRight(c.axis, p, c.position);
    }
  }

  // ----- rotations and cross products -----

  /** A rotation takes cross products to cross products. */
  lemma RotateKeepsCross(q: Quat, a: V3, b: V3)
    requires Unit(q)
    ensures Rotate(q, Cross(a, b)) == Cross(Rotate(q, a), Rotate(q, b))
  {
    var qc, ra, rb, pa, pb, p := Conjugate(q), Rotate(q, a), Rotate(q, b), Pure(a), Pure(b), Pure(Cross(a, b));
    PureProduct(a, b);
    PureProduct(ra, rb);
    RotateKeepsDot(q, a, b);
    hide Multiply, Rotate, Conjugate, Pure, NormSq, Cross, Dot3, QPlus, RealQuat, Unit;
    RotateIsSandwich(q, a);
    RotateIsSandwich(q, b);
    RotateIsSandwich(q, Cross(a, b));
    Cancels(q, pa, pb);
    SandwichSplits(q, -Dot3(a, b), p);
    PartsOfSum(-Dot3(a, b), Rotate(q, Cross(a, b)), Cross(ra, rb));
  }

  lemma PureProduct(a: V3, b: V3)
    ensures Multiply(Pure(a), Pure(b)) == QPlus(RealQuat(-Dot3(a, b)), Pure(Cross(a, b)))
  {
  }

  /** (q x q*)(q y q*) is q (x y) q*. */
  lemma Cancels(q: Quat, x: Quat, y: Quat)
    requires Unit(q)
    ensures var qc := Conjugate(q);
            Multiply(Multiply(Multiply(q, x), qc), Multiply(Multiply(q, y), qc)) == Multiply(Multiply(q, Multiply(x, y)), qc)
  {
    var qc := Conjugate(q);
    UnitRing(q);
    hide Multiply, Conjugate, Unit, NormSq;
    var qx, qy := Multiply(q, x), Multiply(q, y);
    MultiplyAssociative(qx, qc, Multiply(qy, qc));
    MultiplyAssociative(qc, qy, qc);
    MultiplyAssociative(qc, q, y);
    IdentityMultiplies(y);
    MultiplyAssociative(qx, y, qc);
    MultiplyAssociative(q, x, y);
  }

  /** A real part goes through the sandwich unchanged. */
  lemma SandwichSplits(q: Quat, k: real, p: Quat)
    requires Unit(q)
    ensures Multiply(Multiply(q, QPlus(RealQuat(k), p)), Conjugate(q)) ==
            QPlus(RealQuat(k), Multiply(Multiply(q, p), Conjugate(q)))
  {
    var qc := Conjugate(q);
    RealCommutes(q, k);
    SelfConjugate(q);
    RealProduct(k, NormSq(q));
    MultiplyPlusRight(q, RealQuat(k), p);
    assert NormSq(q) == 1.0;
    hide Multiply, Conjugate, Unit, NormSq, QPlus, RealQuat;
    MultiplyPlus(Multiply(q, RealQuat(k)), Multiply(q, p), qc);
    MultiplyAssociative(RealQuat(k), q, qc);
  }

  lemma MultiplyPlusRight(a: Quat, b: Quat, c: Quat)
    ensures Multiply(a, QPlus(b, c)) == QPlus(Multiply(a, b), Multiply(a, c))
  {
    var s := QPlus(b, c);
    hide Mul, Multiply;
    ProductIs(a, s);
    ProductIs(a, b);
    ProductIs(a, c);
    SumIn(a.w, b, c);
    SumIn(a.x, b, c);
    SumIn(a.y, b, c);
    SumIn(a.z, b, c);
  }

  lemma SumIn(k: real, b: Quat, c: Quat)
    ensures var s := QPlus(b, c);
            Mul(k, s.w) == Mul(k, b.w) + Mul(k, c.w) && Mul(k, s.x) == Mul(k, b.x) + Mul(k, c.x) &&
            Mul(k, s.y) == Mul(k, b.y) + Mul(k, c.y) && Mul(k, s.z) == Mul(k, b.z) + Mul(k, c.z)
  {
    Expand(k, b.w, c.w);
    Expand(k, b.x, c.x);
    Expand(k, b.y, c.y);
    Expand(k, b.z, c.z);
  }

  lemma PartsOfSum(k: real, v: V3, w: V3)
    requires QPlus(RealQuat(k), Pure(v)) == QPlus(RealQuat(k), Pure(w))
    ensures v == w
  {
  }

  lemma RotateSubtracts(q: Quat, a: V3, b: V3)
    ensures Rotate(q, Minus(a, b)) == Minus(Rotate(q, a), Rotate(q, b))
  {
    hide Rotate;
    RotateAdds(q, Minus(a, b), b);
    assert Plus(Minus(a, b), b) == a;
  }

  // ----- one column -----

  /** What a joint's displacement makes of another joint's capture. */
  function Carry(m: Maths, c: Captured, e: real, of: Captured): Captured {
    var turn := Turn(m, c, e);
    Captured(Rotate(turn.rotation, of.axis), Apply(turn, of.position), of.translates)
  }

  /** A column beyond the displaced joint is turned with everything else there. */
  lemma ColumnTurns(m: Maths, c: Captured, e: real, of: Captured, pe: V3)
    requires Blend.Faithful(m) && Dot3(c.axis, c.axis) == 1.0
    ensures var turn := Turn(m, c, e); LinearColumn(Carry(m, c, e, of), Apply(turn, pe)) == Rotate(turn.rotation, LinearColumn(of, pe))
  {
    var turn := Turn(m, c, e);
    TurnIsUnit(m, c, e);
    if !of.translates {
      hide *;
      CarriedParts(m, c, e, of, pe);
      Turning(of, pe);
      Turning(Carry(m, c, e, of), Apply(turn, pe));
      RotateSubtracts(turn.rotation, pe, of.position);
      SameShift(Rotate(turn.rotation, pe), Rotate(turn.rotation, of.position), turn.translation);
      RotateKeepsCross(turn.rotation, of.axis, Minus(pe, of.position));
    }
  }

  lemma TurnIsUnit(m: Maths, c: Captured, e: real)
    requires Blend.Faithful(m) && Dot3(c.axis, c.axis) == 1.0
    ensures Unit(Turn(m, c, e).rotation)
  {
    var turn := Turn(m, c, e);
    assert turn.rotation == if c.translates then Identity else AxisRotation(m, c.axis, e);
    hide *;
    AxisRotationIsUnit(m, c.axis, e);
    RotateTrivially(Identity, c.axis);
  }

  /** The parts of what is carried. */
  lemma CarriedParts(m: Maths, c: Captured, e: real, of: Captured, pe: V3)
    ensures var turn, after := Turn(m, c, e), Carry(m, c, e, of);
            after.axis == Rotate(turn.rotation, of.axis) && after.translates == of.translates &&
            after.position == Plus(Rotate(turn.rotation, of.position), turn.translation) &&
            Apply(turn, pe) == Plus(Rotate(turn.rotation, pe), turn.translation)
  {
  }

  lemma SameShift(a: V3, b: V3, t: V3)
    ensures Minus(Plus(a, t), Plus(b, t)) == Minus(a, b)
  {
  }

  /** The derivative of a column beyond joint j turns with joint j's axis. */
  lemma PartialBeyond(cs: seq<Captured>, pe: V3, i: nat, j: nat)
    requires j < i < |cs|
    ensures ColumnPartial(cs, pe, i, j) == if cs[j].translates then Zero3 else Cross(cs[j].axis, LinearColumn(cs[i], pe))
  {
    hide Cross;
    var a, b, r := cs[j].axis, cs[i].axis, Minus(pe, cs[i].position);
    CrossZero(r);
    CrossZero(b);
    if !cs[j].translates && !cs[i].translates {
      CrossMinusRight(a, Minus(pe, cs[j].position), Minus(cs[i].position, cs[j].position));
      assert Minus(Minus(pe, cs[j].position), Minus(cs[i].position, cs[j].position)) == r;
      Jacobi(a, b, r);
    } else if !cs[i].translates {
      assert Minus(a, a) == Zero3;
    }
  }

  /** The derivative of a column up to joint j, which only moves the end. */
  lemma PartialUpTo(cs: seq<Captured>, pe: V3, i: nat, j: nat)
    requires i <= j < |cs|
    ensures ColumnPartial(cs, pe, i, j) == if cs[i].translates then Zero3 else Cross(cs[i].axis, PointRate(cs[j], pe))
  {
    hide Cross, PointRate;
    CrossZero(Minus(pe, cs[i].position));
    assert Minus(PointRate(cs[j], pe), Zero3) == PointRate(cs[j], pe);
    assert Plus(Zero3, Cross(cs[i].axis, PointRate(cs[j], pe))) == Cross(cs[i].axis, PointRate(cs[j], pe));
  }

  /** What a turn adds beyond the derivative. */
  function ColumnSecond(cs: seq<Captured>, pe: V3, i: nat, j: nat): V3
    requires i < |cs| && j < |cs|
  {
    if j < i then Cross(cs[j].axis, ColumnPartial(cs, pe, i, j))
    else if cs[i].translates then Zero3
    else Cross(cs[i].axis, Cross(cs[j].axis, PointRate(cs[j], pe)))
  }

  /** The change of column i under joint j's displacement by e: its derivative, times e for a slide and
      times sin e for a turn, with 1 - cos e of the second term. */
  function Change(m: Maths, cs: seq<Captured>, pe: V3, i: nat, j: nat, e: real): V3
    requires i < |cs| && j < |cs|
  {
    if cs[j].translates then Times(e, ColumnPartial(cs, pe, i, j))
    else Plus(Times(m.sin(e), ColumnPartial(cs, pe, i, j)), Times(1.0 - m.cos(e), ColumnSecond(cs, pe, i, j)))
  }

  lemma ChangeBeyond(m: Maths, cs: seq<Captured>, pe: V3, i: nat, j: nat, e: real)
    requires Blend.Faithful(m) && j < i < |cs| && Dot3(cs[j].axis, cs[j].axis) == 1.0
    ensures LinearColumn(Carry(m, cs[j], e, cs[i]), Apply(Turn(m, cs[j], e), pe)) ==
            Plus(LinearColumn(cs[i], pe), Change(m, cs, pe, i, j, e))
  {
    var c, col := cs[j], LinearColumn(cs[i], pe);
    ColumnTurns(m, c, e, cs[i], pe);
    PartialBeyond(cs, pe, i, j);
    if c.translates {
      hide Rotate, ColumnPartial, Times, LinearColumn;
      RotateTrivially(Identity, col);
      TimesZero(e);
      PlusZero(col);
    } else {
      TurnSwings(m, e, c.axis, col);
    }
  }

  lemma ChangeUpTo(m: Maths, cs: seq<Captured>, pe: V3, i: nat, j: nat, e: real)
    requires Blend.Faithful(m) && i <= j < |cs|
    ensures LinearColumn(cs[i], Apply(Turn(m, cs[j], e), pe)) == Plus(LinearColumn(cs[i], pe), Change(m, cs, pe, i, j, e))
  {
    var c, w, p := cs[j], cs[i].axis, cs[i].position;
    var rate := PointRate(c, pe);
    PointMoves(m, c, e, pe);
    PartialUpTo(cs, pe, i, j);
    hide Cross, Times, ColumnPartial, PointRate, Apply, Turn, Blend.Faithful;
    TimesZero(e);
    TimesZero(m.sin(e));
    TimesZero(1.0 - m.cos(e));
    PlusZero(Zero3);
    if cs[i].translates {
      Sliding(cs[i], pe);
      Sliding(cs[i], Apply(Turn(m, c, e), pe));
      PlusZero(w);
    } else {
      var d := Displacement(m, c, e, rate);
      Turning(cs[i], pe);
      Turning(cs[i], Plus(pe, d));
      ShiftedBy(pe, d, p);
      CrossPlusRight(w, Minus(pe, p), d);
      CrossTimesRight(e, w, rate);
      CrossPlusRight(w, Times(m.sin(e), rate), Times(1.0 - m.cos(e), Cross(c.axis, rate)));
      CrossTimesRight(m.sin(e), w, rate);
      CrossTimesRight(1.0 - m.cos(e), w, Cross(c.axis, rate));
    }
  }

  lemma Sliding(c: Captured, p: V3)
    requires c.translates
    ensures LinearColumn(c, p) == c.axis
  {
  }

  lemma Turning(c: Captured, p: V3)
    requires !c.translates
    ensures LinearColumn(c, p) == Cross(c.axis, Minus(p, c.position))
  {
  }

  lemma ShiftedBy(p: V3, d: V3, o: V3)
    ensures Minus(Plus(p, d), o) == Plus(Minus(p, o), d)
  {
  }

  // ----- the chain -----

  /** The captures list the moving joints in order. */
  lemma {:induction false} CapturesAt(m: Maths, js: seq<Joint>, q: seq<real>, n: nat, i: nat)
    requires i < n <= |js| && |q| == Moving(js, |js|) && !js[i].kind.Fixed?
    ensures Moving(js, i) < |Captures(m, js, q, n)| && Captures(m, js, q, n)[Moving(js, i)] == Capture(m, js, q, i)
  {
    hide Capture;
    if i < n - 1 {
      CapturesAt(m, js, q, n - 1, i);
    }
  }

  lemma InOrder(js: seq<Joint>, i: nat, j: nat)
    requires i < |js| && j < |js| && !js[i].kind.Fixed? && !js[j].kind.Fixed?
    ensures j < i <==> Moving(js, j) < Moving(js, i)
  {
    if j < i {
      MovingGrows(js, j + 1, i);
    } else {
      MovingGrows(js, i, j);
    }
  }

  /** The finite difference behind the acceleration pass: displacing moving joint j by e changes the column
      of every moving joint i exactly by `Change`, whose rate at e = 0 is `ColumnPartial`. */
  lemma ColumnDifference(m: Maths, js: seq<Joint>, q: seq<real>, n: nat, i: nat, j: nat, e: real)
    requires Blend.Faithful(m) && ValidChain(js) && i < n <= |js| && j < n && |q| == Moving(js, |js|)
    requires !js[i].kind.Fixed? && !js[j].kind.Fixed?
    ensures var qe, a, b := Displaced(js, q, j, e), Moving(js, i), Moving(js, j);
            var cs, after := Captures(m, js, q, n), Captures(m, js, qe, n);
            a < |cs| && b < |cs| && |after| == |cs| &&
            LinearColumn(after[a], Frame(m, js, qe, n).translation) ==
            Plus(LinearColumn(cs[a], Frame(m, js, q, n).translation), Change(m, cs, Frame(m, js, q, n).translation, a, b, e))
  {
    var qe, pe, cs := Displaced(js, q, j, e), Frame(m, js, q, n).translation, Captures(m, js, q, n);
    var c := Capture(m, js, q, j);
    hide Captures, Capture, Frame, Displaced, Moving, Turn, Rotate, ValidJoint, Blend.Faithful, LinearColumn, Change, Dot3;
    CapturesAt(m, js, q, n, i);
    CapturesAt(m, js, q, n, j);
    CapturesAt(m, js, qe, n, i);
    JointMovesTheRest(m, js, q, j, e, n);
    JointMovesLaterCaptures(m, js, q, j, e, i);
    MotionKeepsAxis(m, js, q, j);
    InOrder(js, i, j);
    PlusCommutes(Turn(m, c, e).translation, Rotate(Turn(m, c, e).rotation, pe));
    if j < i {
      ChangeBeyond(m, cs, pe, Moving(js, i), Moving(js, j), e);
    } else {
      ChangeUpTo(m, cs, pe, Moving(js, i), Moving(js, j), e);
    }
  }
}
