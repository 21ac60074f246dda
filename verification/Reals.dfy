/** Exact-real arithmetic shared by every component: the source's doubles are modelled as reals,
    its infinities as the `Unbounded` value of `Limit`, and its epsilon wrapper as explicit
    tolerances.  */
module Reals {

  function Abs(x: real): real {
    if x < 0.0 then -x else x
  }

  function Min(a: real, b: real): real {
    if b < a then b else a
  }

  function Max(a: real, b: real): real {
    if a < b then b else a
  }

  function Midpoint(a: real, b: real): real {
    (a + b) / 2.0
  }

  function Lerp(a: real, b: real, t: real): real {
    a + t * (b - a)
  }

  /** Comparisons of epsilon-wrapped values: equivalent means no further apart than the tolerance.
      They are not transitive, so every use names its tolerance. */
  predicate EpsEq(a: real, b: real, eps: real) {
    Abs(a - b) <= eps
  }

  datatype Option<+T> = None | Some(value: T)

  /** A bound that may be absent, for a double that may be infinite in one known direction. */
  datatype Limit = Bounded(v: real) | Unbounded

  /** x respects an upper limit. */
  predicate Under(x: real, limit: Limit) {
    limit.Bounded? ==> x <= limit.v
  }

  predicate UnderBy(x: real, limit: Limit, slack: real) {
    limit.Bounded? ==> x <= limit.v + slack
  }

  function MinLimit(a: Limit, b: Limit): (r: Limit)
    ensures forall x :: Under(x, r) <==> Under(x, a) && Under(x, b)
  {
    if a.Unbounded? then b
    else if b.Unbounded? then a
    else Bounded(Min(a.v, b.v))
  }

  /** Named products. With their meaning hidden, an identity between polynomials is a linear fact. */
  function Mul(x: real, y: real): real {
    x * y
  }

  function Mul3(x: real, y: real, z: real): real {
    x * y * z
  }

  function Square(x: real): real {
    x * x
  }

  // Nonlinear facts the solver is slow to find, each in a context of its own.

  lemma Expand(k: real, a: real, b: real)
    ensures Mul(k, a + b) == Mul(k, a) + Mul(k, b) && Mul(k, a - b) == Mul(k, a) - Mul(k, b)
  {
  }

  /** A product of three, bracketed either way. */
  lemma Bracket(a: real, b: real, k: real)
    ensures Mul(Mul(a, b), k) == Mul3(a, b, k) && Mul(k, Mul(a, b)) == Mul3(k, a, b)
  {
  }

  lemma Commute(a: real, b: real)
    ensures Mul(a, b) == Mul(b, a)
  {
  }

  lemma MulMono(a: real, b: real, k: real)
    requires a <= b && 0.0 <= k
    ensures a * k <= b * k
  {
  }

  lemma MulPos(a: real, b: real)
    requires 0.0 < a && 0.0 < b
    ensures 0.0 < a * b
  {
  }

  lemma DivIs(a: real, k: real, q: real)
    requires k != 0.0 && q * k == a
    ensures a / k == q
  {
    var r := a / k;
    assert r * k == a;
    assert (r - q) * k == 0.0;
  }

  lemma DivLe(a: real, b: real, k: real)
    requires 0.0 < k
    ensures a / k <= b <==> a <= b * k
  {
    var q := a / k;
    assert a == q * k;
    if q <= b {
      MulMono(q, b, k);
    } else {
      MulPos(q - b, k);
      assert (q - b) * k == q * k - b * k;
    }
  }

  lemma DivGe(a: real, b: real, k: real)
    requires 0.0 < k
    ensures b <= a / k <==> b * k <= a
  {
    var q := a / k;
    assert a == q * k;
    if b <= q {
      MulMono(b, q, k);
    } else {
      MulPos(b - q, k);
      assert (b - q) * k == b * k - q * k;
    }
  }

  lemma SquareLt(a: real, b: real)
    requires 0.0 <= a < b
    ensures a * a < b * b
  {
    var x := b - a;
    assert b == a + x;
    assert b * b == a * a + 2.0 * a * x + x * x;
  }

  lemma SquareMono(a: real, b: real)
    requires 0.0 <= a && 0.0 <= b
    ensures a <= b <==> a * a <= b * b
  {
    if a < b {
      SquareLt(a, b);
    } else if b < a {
      SquareLt(b, a);
    }
  }
}
