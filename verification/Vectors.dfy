/** Joint-space vectors of any dimension. */
module Vectors {
  import opened Reals

  type Vec = seq<real>

  function Add(a: Vec, b: Vec): (r: Vec)
    requires |a| == |b|
    ensures |r| == |a| && forall i :: 0 <= i < |r| ==> r[i] == a[i] + b[i]
  {
    seq(|a|, i requires 0 <= i < |a| => a[i] + b[i])
  }

  function Sub(a: Vec, b: Vec): (r: Vec)
    requires |a| == |b|
    ensures |r| == |a| && forall i :: 0 <= i < |r| ==> r[i] == a[i] - b[i]
  {
    seq(|a|, i requires 0 <= i < |a| => a[i] - b[i])
  }

  function Scale(k: real, a: Vec): (r: Vec)
    ensures |r| == |a| && forall i :: 0 <= i < |r| ==> r[i] == k * a[i]
  {
    seq(|a|, i requires 0 <= i < |a| => k * a[i])
  }

  function Dot(a: Vec, b: Vec): real
    requires |a| == |b|
  {
    if a == [] then 0.0 else a[0] * b[0] + Dot(a[1..], b[1..])
  }

  lemma {:induction false} DotSymmetric(a: Vec, b: Vec)
    requires |a| == |b|
    ensures Dot(a, b) == Dot(b, a)
  {
    if a != [] {
      DotSymmetric(a[1..], b[1..]);
    }
  }

  lemma DotUnfold(a: Vec, b: Vec)
    requires |a| == |b| && a != []
    ensures Dot(a, b) == a[0] * b[0] + Dot(a[1..], b[1..])
  {
  }

  lemma {:induction false} DotAdd(a: Vec, b: Vec, c: Vec)
    requires |a| == |b| == |c|
    ensures Dot(Add(a, b), c) == Dot(a, c) + Dot(b, c)
  {
    if a != [] {
      assert Add(a, b)[1..] == Add(a[1..], b[1..]);
      DotAdd(a[1..], b[1..], c[1..]);
    }
  }

  lemma DotScale(x: real, a: Vec, c: Vec)
    requires |a| == |c|
    ensures Dot(Scale(x, a), c) == x * Dot(a, c)
  {
    hide Dot, Scale;
    DotScaled(x, a, c);
  }

  lemma {:induction false} DotScaled(x: real, a: Vec, c: Vec)
    requires |a| == |c|
    ensures Dot(Scale(x, a), c) == Mul(x, Dot(a, c))
  {
    if a != [] {
      forall i | 0 <= i < |a| - 1
        ensures Scale(x, a)[1..][i] == Scale(x, a[1..])[i]
      {
        assert a[1..][i] == a[i + 1];
        assert Scale(x, a)[1..][i] == Scale(x, a)[i + 1];
      }
      assert Scale(x, a)[1..] == Scale(x, a[1..]);
      DotScaled(x, a[1..], c[1..]);
      FrontProduct(Scale(x, a), c, Mul(x, a[0]), c[0]);
      FrontProduct(a, c, a[0], c[0]);
      Bracket(x, a[0], c[0]);
      Bracket(a[0], c[0], x);
      Turned(x, a[0], c[0]);
      hide *;
      Expand(x, Mul(a[0], c[0]), Dot(a[1..], c[1..]));
    } else {
      assert x * 0.0 == 0.0;
    }
  }

  lemma Turned(x: real, a: real, c: real)
    ensures Mul3(x, a, c) == Mul(x, Mul(a, c))
  {
  }

  lemma FrontProduct(a: Vec, b: Vec, x: real, y: real)
    requires |a| == |b| && a != [] && x == a[0] && y == b[0]
    ensures Dot(a, b) == Mul(x, y) + Dot(a[1..], b[1..])
  {
  }

  /** The dot product is linear in its first argument. */
  lemma DotLinear(x: real, a: Vec, y: real, b: Vec, c: Vec)
    requires |a| == |b| == |c|
    ensures Dot(Add(Scale(x, a), Scale(y, b)), c) == x * Dot(a, c) + y * Dot(b, c)
  {
    hide Dot, Scale, Add;
    DotCombined(x, a, y, b, c);
  }

  lemma DotCombined(x: real, a: Vec, y: real, b: Vec, c: Vec)
    requires |a| == |b| == |c|
    ensures Dot(Add(Scale(x, a), Scale(y, b)), c) == Mul(x, Dot(a, c)) + Mul(y, Dot(b, c))
  {
    hide *;
    DotAdd(Scale(x, a), Scale(y, b), c);
    DotScaled(x, a, c);
    DotScaled(y, b, c);
  }

  lemma SquareIsPositive(x: real)
    ensures 0.0 <= x * x && (x * x == 0.0 ==> x == 0.0)
  {
    SquareMono(0.0, Abs(x));
    if x < 0.0 {
      SquareLt(0.0, -x);
      NegatedSquare(x);
    } else if 0.0 < x {
      SquareLt(0.0, x);
    }
  }

  lemma NegatedSquare(x: real)
    ensures (-x) * (-x) == x * x
  {
  }

  /** Squared lengths are non-negative, and zero for the zero vector only. */
  lemma {:induction false} DotNonNegative(a: Vec)
    ensures 0.0 <= Dot(a, a)
    ensures Dot(a, a) == 0.0 ==> forall i :: 0 <= i < |a| ==> a[i] == 0.0
  {
    if a != [] {
      DotNonNegative(a[1..]);
      SquareIsPositive(a[0]);
      assert forall i :: 1 <= i < |a| ==> a[i] == a[1..][i - 1];
    }
  }

  /** Different points are a positive squared distance apart. */
  lemma ChordIsPositive(start: Vec, end: Vec)
    requires |start| == |end| && start != end
    ensures 0.0 < Dot(Sub(end, start), Sub(end, start))
  {
    var chord := Sub(end, start);
    DotNonNegative(chord);
    var i :| 0 <= i < |start| && start[i] != end[i];
    assert chord[i] != 0.0;
  }

  /** v is p a + q b. */
  ghost predicate Combines(v: Vec, p: real, a: Vec, q: real, b: Vec) {
    |v| == |a| == |b| && forall i :: 0 <= i < |v| ==> v[i] == p * a[i] + q * b[i]
  }

  lemma DotOfCombination(v: Vec, p: real, a: Vec, q: real, b: Vec, c: Vec)
    requires Combines(v, p, a, q, b) && |c| == |v|
    ensures Dot(v, c) == p * Dot(a, c) + q * Dot(b, c)
  {
    hide Dot;
    assert v == Add(Scale(p, a), Scale(q, b));
    DotLinear(p, a, q, b, c);
  }

  lemma SquareOfCombination(v: Vec, p: real, a: Vec, q: real, b: Vec)
    requires Combines(v, p, a, q, b)
    ensures Dot(v, v) == p * Dot(a, v) + q * Dot(b, v)
    ensures Dot(a, v) == p * Dot(a, a) + q * Dot(b, a)
    ensures Dot(b, v) == p * Dot(a, b) + q * Dot(b, b)
  {
    assert |v| == |a| == |b|;
    hide *;
    DotSymmetric(a, v);
    DotSymmetric(b, v);
    DotOfCombination(v, p, a, q, b, a);
    DotOfCombination(v, p, a, q, b, b);
    DotOfCombination(v, p, a, q, b, v);
  }

  /** The same as named products. */
  lemma CombinedProducts(v: Vec, p: real, a: Vec, q: real, b: Vec, c: Vec)
    requires Combines(v, p, a, q, b) && |c| == |v|
    ensures Dot(v, c) == Mul(p, Dot(a, c)) + Mul(q, Dot(b, c)) && Dot(c, v) == Dot(v, c)
  {
    hide Dot, Mul;
    assert v == Add(Scale(p, a), Scale(q, b));
    DotCombined(p, a, q, b, c);
    DotSymmetric(v, c);
  }
}
