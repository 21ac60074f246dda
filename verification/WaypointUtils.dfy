/** Waypoint preparation (waypoint_utils.cpp): dropping consecutive duplicates, and splitting a list at
    its direction reversals. */
module WaypointUtils {
  import opened Reals
  import opened Vectors
  import Blend
  import Coalescing

  // ----- the maximum norm -----

  function NormInf(v: Vec): (r: real)
    ensures 0.0 <= r
  {
    if v == [] then 0.0 else Max(Abs(v[0]), NormInf(v[1..]))
  }

  lemma {:induction false} NormInfMeaning(v: Vec, t: real)
    ensures NormInf(v) <= t <==> 0.0 <= t && forall i :: 0 <= i < |v| ==> Abs(v[i]) <= t
  {
    if v != [] {
      NormInfMeaning(v[1..], t);
      assert forall i :: 1 <= i < |v| ==> v[i] == v[1..][i - 1];
      if NormInf(v) <= t {
        forall i | 0 <= i < |v|
          ensures Abs(v[i]) <= t
        {
          if i > 0 {
            assert v[i] == v[1..][i - 1];
          }
        }
      }
    }
  }

  function Distance(a: Vec, b: Vec): (r: real)
    requires |a| == |b|
    ensures 0.0 <= r
  {
    NormInf(Sub(a, b))
  }

  /** Two waypoints are within a tolerance exactly when they are in every joint. */
  lemma DistanceMeaning(a: Vec, b: Vec, t: real)
    requires |a| == |b|
    ensures Distance(a, b) <= t <==> 0.0 <= t && forall i :: 0 <= i < |a| ==> Abs(a[i] - b[i]) <= t
  {
    NormInfMeaning(Sub(a, b), t);
  }

  lemma DistanceToItself(a: Vec)
    ensures Distance(a, a) == 0.0
  {
    NormInfMeaning(Sub(a, a), 0.0);
  }

  lemma Triangle(a: Vec, b: Vec, c: Vec)
    requires |a| == |b| == |c|
    ensures Distance(a, c) <= Distance(a, b) + Distance(b, c)
    ensures Distance(a, b) == Distance(b, a)
  {
    NormInfMeaning(Sub(a, b), Distance(a, b));
    NormInfMeaning(Sub(b, c), Distance(b, c));
    NormInfMeaning(Sub(b, a), Distance(b, a));
    NormInfMeaning(Sub(a, b), Distance(b, a));
    NormInfMeaning(Sub(b, a), Distance(a, b));
    NormInfMeaning(Sub(a, c), Distance(a, b) + Distance(b, c));
    assert forall i :: 0 <= i < |a| ==> Sub(a, c)[i] == Sub(a, b)[i] + Sub(b, c)[i] && Sub(b, a)[i] == -Sub(a, b)[i];
  }

  // ----- deduplication -----

  /** The indices kept run forward from the first waypoint. */
  ghost predicate Forward(kept: seq<nat>, n: nat) {
    kept != [] && kept[0] == 0 && (forall k :: 0 <= k < |kept| ==> kept[k] < n) &&
    forall k :: 0 <= k < |kept| - 1 ==> kept[k] < kept[k + 1]
  }

  /** Neighbours among the kept waypoints are further apart than the tolerance. */
  ghost predicate Apart(r: seq<Vec>, tolerance: real) {
    forall k :: 0 <= k < |r| - 1 ==> |r[k]| == |r[k + 1]| && Distance(r[k + 1], r[k]) > tolerance
  }

  ghost predicate Reaches(r: seq<Vec>, w: Vec, distance: real) {
    exists k :: 0 <= k < |r| && |r[k]| == |w| && Distance(w, r[k]) <= distance
  }

  /** Of the first i waypoints, the first and every one further than the tolerance from the last one kept before
      it. */
  function Survivors(ws: seq<Vec>, i: nat, tolerance: real): (r: seq<nat>)
    requires Coalescing.SameDof(ws) && 0 < i <= |ws|
    ensures Forward(r, i)
  {
    if i == 1 then [0]
    else
      var before := Survivors(ws, i - 1, tolerance);
      if Distance(ws[i - 1], ws[before[|before| - 1]]) > tolerance then before + [i - 1] else before
  }

  lemma SurvivorsBefore(ws: seq<Vec>, i: nat, tolerance: real)
    requires Coalescing.SameDof(ws) && 0 < i <= |ws|
    ensures Survivors(ws, i, tolerance) != [] && forall k :: 0 <= k < |Survivors(ws, i, tolerance)| ==> Survivors(ws, i, tolerance)[k] < i
  {
    hide Survivors;
  }

  /** A waypoint survives exactly when it is further than the tolerance from the last survivor among those before
      it. */
  lemma {:induction false} SurvivorsExactly(ws: seq<Vec>, i: nat, j: nat, tolerance: real)
    requires Coalescing.SameDof(ws) && 0 < j < i <= |ws|
    ensures var before := Survivors(ws, j, tolerance);
            before <= Survivors(ws, i, tolerance) &&
            (j in Survivors(ws, i, tolerance) <==> Distance(ws[j], ws[before[|before| - 1]]) > tolerance)
    decreases i
  {
    hide Distance, Forward;
    if j < i - 1 {
      SurvivorsExactly(ws, i - 1, j, tolerance);
    } else {
      SurvivorsBefore(ws, j, tolerance);
    }
  }

  /** The last of them makes way for the destination, unless it is there already or is the only one. */
  function WithDestination(ws: seq<Vec>, kept: seq<nat>): (r: seq<nat>)
    requires kept != [] && forall k :: 0 <= k < |kept| ==> kept[k] < |ws|
  {
    var last := |kept| - 1;
    if 0 < last && ws[kept[last]] != ws[|ws| - 1] then kept[..last] + [|ws| - 1] else kept
  }

  /** The first i waypoints deduplicated: the survivors run forward from the first waypoint, are apart,
      and reach everything seen; the last one reaches the waypoint just seen. */
  ghost predicate Deduped(ws: seq<Vec>, i: nat, r: seq<Vec>, kept: seq<nat>, tolerance: real)
    requires Coalescing.SameDof(ws) && 0 < i <= |ws|
  {
    Forward(kept, |ws|) && kept[|kept| - 1] < i && r == Coalescing.Pick(ws, kept) && Apart(r, tolerance) &&
    (0.0 <= tolerance ==> forall j :: 0 <= j < i ==> Reaches(r, ws[j], tolerance)) &&
    (0.0 <= tolerance ==> Distance(ws[i - 1], r[|r| - 1]) <= tolerance)
  }

  lemma DedupedFirst(ws: seq<Vec>, tolerance: real)
    requires Coalescing.SameDof(ws) && ws != []
    ensures Deduped(ws, 1, [ws[0]], [0], tolerance)
  {
    hide Distance;
    DistanceToItself(ws[0]);
    var r := [ws[0]];
    assert r[0] == ws[0];
    assert 0.0 <= tolerance ==> Reaches(r, ws[0], tolerance);
  }

  lemma DedupedLast(ws: seq<Vec>, i: nat, r: seq<Vec>, kept: seq<nat>, tolerance: real)
    requires Coalescing.SameDof(ws) && 0 < i <= |ws| && Deduped(ws, i, r, kept, tolerance)
    ensures |kept| == |r| && r != [] && r[0] == ws[0] && forall k :: 0 <= k < |r| ==> |r[k]| == |ws[0]|
  {
    hide Distance, Reaches, Apart;
  }

  lemma DedupedSkip(ws: seq<Vec>, i: nat, r: seq<Vec>, kept: seq<nat>, tolerance: real)
    requires Coalescing.SameDof(ws) && 0 < i < |ws| && Deduped(ws, i, r, kept, tolerance)
    requires r != [] && |r[|r| - 1]| == |ws[i]| && Distance(ws[i], r[|r| - 1]) <= tolerance
    ensures Deduped(ws, i + 1, r, kept, tolerance)
  {
    hide Distance;
  }

  lemma DedupedKeep(ws: seq<Vec>, i: nat, r: seq<Vec>, kept: seq<nat>, tolerance: real)
    requires Coalescing.SameDof(ws) && 0 < i < |ws| && Deduped(ws, i, r, kept, tolerance)
    requires r != [] && |r[|r| - 1]| == |ws[i]| && Distance(ws[i], r[|r| - 1]) > tolerance
    ensures Deduped(ws, i + 1, r + [ws[i]], kept + [i], tolerance)
  {
    hide Distance, Reaches, Apart, Forward;
    var more := r + [ws[i]];
    KeepsForward(ws, kept, i);
    KeepsApart(r, ws[i], tolerance);
    ReachesItself(r, ws[i], tolerance);
    DistanceToItself(ws[i]);
    forall j | 0 <= j < i + 1 && 0.0 <= tolerance
      ensures Reaches(more, ws[j], tolerance)
    {
      if j < i {
        ReachesMore(r, ws[i], ws[j], tolerance);
      }
    }
  }

  lemma KeepsForward(ws: seq<Vec>, kept: seq<nat>, i: nat)
    requires Forward(kept, |ws|) && kept[|kept| - 1] < i < |ws|
    ensures Forward(kept + [i], |ws|)
    ensures Coalescing.Pick(ws, kept + [i]) == Coalescing.Pick(ws, kept) + [ws[i]]
  {
  }

  lemma KeepsApart(r: seq<Vec>, v: Vec, tolerance: real)
    requires Apart(r, tolerance) && r != [] && |r[|r| - 1]| == |v| && Distance(v, r[|r| - 1]) > tolerance
    ensures Apart(r + [v], tolerance)
  {
    hide Distance;
  }

  lemma ReachesItself(r: seq<Vec>, v: Vec, tolerance: real)
    ensures 0.0 <= tolerance ==> Reaches(r + [v], v, tolerance)
  {
    DistanceToItself(v);
    assert (r + [v])[|r|] == v;
  }

  lemma ReachesMore(r: seq<Vec>, v: Vec, w: Vec, tolerance: real)
    requires Reaches(r, w, tolerance)
    ensures Reaches(r + [v], w, tolerance)
  {
    hide Distance;
    var k :| 0 <= k < |r| && |r[k]| == |w| && Distance(w, r[k]) <= tolerance;
    assert (r + [v])[k] == r[k];
  }

  /** What deduplication promises of its result. */
  ghost predicate Distinct(ws: seq<Vec>, r: seq<Vec>, kept: seq<nat>, tolerance: real)
    requires Coalescing.SameDof(ws)
  {
    Forward(kept, |ws|) && ws != [] && kept == WithDestination(ws, Survivors(ws, |ws|, tolerance)) && r == Coalescing.Pick(ws, kept) && r[0] == ws[0] &&
    (|r| > 1 ==> r[|r| - 1] == ws[|ws| - 1]) &&
    (0.0 <= tolerance ==> forall k :: 0 <= k < |r| - 1 ==> r[k] != r[k + 1]) &&
    (0.0 <= tolerance ==> forall i :: 0 <= i < |ws| ==> Reaches(r, ws[i], 2.0 * tolerance))
  }

  /** `deduplicate_waypoints`. The first waypoint is kept and, when more than one survives, the last is
      the destination exactly; for a tolerance that is not negative no two neighbours are equal and
      every waypoint is within twice the tolerance of one that is kept. */
  method Deduplicate(ws: seq<Vec>, tolerance: real) returns (r: seq<Vec>, ghost kept: seq<nat>)
    requires Coalescing.SameDof(ws)
    ensures ws == [] ==> r == []
    ensures ws != [] ==> Distinct(ws, r, kept, tolerance)
  {
    kept := [];
    if ws == [] {
      return [], kept;
    }
    hide Distance, Deduped, Distinct, Survivors, WithDestination, Forward;
    r := [ws[0]];
    kept := [0];
    DedupedFirst(ws, tolerance);
    FirstSurvives(ws, tolerance);
    for i := 1 to |ws|
      invariant Deduped(ws, i, r, kept, tolerance) && kept == Survivors(ws, i, tolerance)
    {
      DedupedLast(ws, i, r, kept, tolerance);
      NextSurvives(ws, i, r, tolerance);
      assert |r[|r| - 1]| == |ws[0]| == |ws[i]|;
      if Distance(ws[i], r[|r| - 1]) > tolerance {
        DedupedKeep(ws, i, r, kept, tolerance);
        r := r + [ws[i]];
        kept := kept + [i];
      } else {
        DedupedSkip(ws, i, r, kept, tolerance);
      }
    }
    r, kept := EndAtDestination(ws, r, kept, tolerance);
  }

  /** The last of several survivors gives way to the destination. */
  method EndAtDestination(ws: seq<Vec>, survivors: seq<Vec>, ghost indices: seq<nat>, ghost tolerance: real)
    returns (r: seq<Vec>, ghost kept: seq<nat>)
    requires Coalescing.SameDof(ws) && ws != [] && Deduped(ws, |ws|, survivors, indices, tolerance)
    requires indices == Survivors(ws, |ws|, tolerance)
    ensures Distinct(ws, r, kept, tolerance)
  {
    hide *;
    DedupedLast(ws, |ws|, survivors, indices, tolerance);
    r, kept := survivors, indices;
    var last := |ws| - 1;
    if |r| > 1 && r[|r| - 1] != ws[last] {
      r := r[..|r| - 1];
      r := r + [ws[last]];
      kept := indices[..|indices| - 1] + [last];
      DestinationReplaces(ws, survivors, indices, tolerance, r, kept);
    } else {
      DestinationKept(ws, survivors, indices, tolerance);
    }
  }

  lemma FirstSurvives(ws: seq<Vec>, tolerance: real)
    requires Coalescing.SameDof(ws) && ws != []
    ensures Survivors(ws, 1, tolerance) == [0]
  {
  }

  lemma NextSurvives(ws: seq<Vec>, i: nat, r: seq<Vec>, tolerance: real)
    requires Coalescing.SameDof(ws) && 0 < i < |ws| && Deduped(ws, i, r, Survivors(ws, i, tolerance), tolerance) && r != []
    requires |r[|r| - 1]| == |ws[i]|
    ensures var kept := Survivors(ws, i, tolerance);
            Survivors(ws, i + 1, tolerance) == if Distance(ws[i], r[|r| - 1]) > tolerance then kept + [i] else kept
  {
    hide Distance, Reaches, Apart;
  }

  lemma DestinationKept(ws: seq<Vec>, r: seq<Vec>, kept: seq<nat>, tolerance: real)
    requires Coalescing.SameDof(ws) && ws != [] && Deduped(ws, |ws|, r, kept, tolerance)
    requires (|r| > 1 ==> r[|r| - 1] == ws[|ws| - 1]) && kept == Survivors(ws, |ws|, tolerance)
    ensures Distinct(ws, r, kept, tolerance)
  {
    hide Distance, Reaches, Apart, Survivors;
    DedupedLast(ws, |ws|, r, kept, tolerance);
    ApartDiffer(r, tolerance);
    ReachesFurther(ws, r, tolerance);
  }

  lemma DestinationReplaces(ws: seq<Vec>, r: seq<Vec>, kept: seq<nat>, tolerance: real, ended: seq<Vec>, indices: seq<nat>)
    requires Coalescing.SameDof(ws) && ws != [] && |kept| == |r| > 1 && r[|r| - 1] != ws[|ws| - 1]
    requires ended == r[..|r| - 1] + [ws[|ws| - 1]] && indices == kept[..|kept| - 1] + [|ws| - 1]
    requires Deduped(ws, |ws|, r, kept, tolerance) && kept == Survivors(ws, |ws|, tolerance)
    ensures Distinct(ws, ended, indices, tolerance)
  {
    hide Distance, Reaches, Apart, Survivors;
    DedupedLast(ws, |ws|, r, kept, tolerance);
    ReplaceLast(ws, r, tolerance);
  }

  lemma ApartDiffer(r: seq<Vec>, tolerance: real)
    requires Apart(r, tolerance)
    ensures 0.0 <= tolerance ==> forall k :: 0 <= k < |r| - 1 ==> r[k] != r[k + 1]
  {
    hide Distance;
    forall k | 0 <= k < |r| - 1 && 0.0 <= tolerance
      ensures r[k] != r[k + 1]
    {
      DistanceToItself(r[k]);
    }
  }

  lemma ReachesFurther(ws: seq<Vec>, r: seq<Vec>, tolerance: real)
    requires 0.0 <= tolerance ==> forall j :: 0 <= j < |ws| ==> Reaches(r, ws[j], tolerance)
    ensures 0.0 <= tolerance ==> forall j :: 0 <= j < |ws| ==> Reaches(r, ws[j], 2.0 * tolerance)
  {
    hide Distance;
  }

  /** Putting the destination in place of a last waypoint within the tolerance of it leaves neighbours
      different, and adds at most another tolerance to what is reached. */
  lemma ReplaceLast(ws: seq<Vec>, r: seq<Vec>, tolerance: real)
    requires Coalescing.SameDof(ws) && ws != [] && |r| > 1 && (forall k :: 0 <= k < |r| ==> |r[k]| == |ws[0]|)
    requires Apart(r, tolerance)
    requires 0.0 <= tolerance ==> forall j :: 0 <= j < |ws| ==> Reaches(r, ws[j], tolerance)
    requires 0.0 <= tolerance ==> Distance(ws[|ws| - 1], r[|r| - 1]) <= tolerance
    ensures var replaced := r[..|r| - 1] + [ws[|ws| - 1]];
            0.0 <= tolerance ==>
              (forall k :: 0 <= k < |replaced| - 1 ==> replaced[k] != replaced[k + 1]) &&
              forall j :: 0 <= j < |ws| ==> Reaches(replaced, ws[j], 2.0 * tolerance)
  {
    hide Distance;
    var z, q, n := ws[|ws| - 1], r[|r| - 1], |r| - 1;
    var replaced := r[..n] + [z];
    if 0.0 <= tolerance {
      ApartDiffer(r, tolerance);
      assert replaced[n - 1] != z by {
        Triangle(q, z, r[n - 1]);
        Triangle(z, q, r[n - 1]);
        DistanceToItself(z);
      }
      forall j | 0 <= j < |ws|
        ensures Reaches(replaced, ws[j], 2.0 * tolerance)
      {
        var k :| 0 <= k < |r| && |r[k]| == |ws[j]| && Distance(ws[j], r[k]) <= tolerance;
        if k < n {
          assert replaced[k] == r[k];
        } else {
          Triangle(ws[j], q, z);
          Triangle(q, z, q);
          assert replaced[n] == z;
        }
      }
    }
  }

  // ----- reversals -----

  /** The waypoint b turns the path back on itself. A leg of no length has no direction: its dot product
      is not a number, and compares as no reversal. */
  predicate Cusp(m: Blend.Maths, a: Vec, b: Vec, c: Vec, threshold: real)
    requires |a| == |b| == |c|
  {
    m.norm(Sub(b, a)) != 0.0 && m.norm(Sub(c, b)) != 0.0 &&
    Abs(Dot(Blend.Normalized(m, Sub(b, a)), Blend.Normalized(m, Sub(c, b))) + 1.0) < threshold
  }

  ghost predicate CuspAt(m: Blend.Maths, ws: seq<Vec>, i: nat, threshold: real)
    requires Coalescing.SameDof(ws) && 0 < i < |ws| - 1
  {
    Cusp(m, ws[i - 1], ws[i], ws[i + 1], threshold)
  }

  /** In terms of the legs alone: a waypoint is a cusp exactly when neither leg is empty and the cosine of the angle
      between them, times the product of their lengths, is that close to minus that product. */
  lemma CuspExactly(m: Blend.Maths, a: Vec, b: Vec, c: Vec, threshold: real, d: real, n: real)
    requires Blend.Faithful(m) && |a| == |b| == |c| && d == Dot(Sub(b, a), Sub(c, b)) && n == m.norm(Sub(b, a)) * m.norm(Sub(c, b))
    ensures Cusp(m, a, b, c, threshold) <==> a != b && b != c && Abs(d + n) < threshold * n
  {
    hide Dot, Blend.Faithful, Blend.Normalized;
    LegLength(m, a, b);
    LegLength(m, b, c);
    var u, v := Sub(b, a), Sub(c, b);
    if m.norm(u) != 0.0 && m.norm(v) != 0.0 {
      var f := Dot(Blend.Normalized(m, u), Blend.Normalized(m, v));
      LegCosine(m, u, v, m.norm(u), m.norm(v), n, d, f);
      CosineTest(n, d, f, threshold);
      MulPos(m.norm(u), m.norm(v));
    }
  }

  /** The normalized legs' dot product, times the product of their lengths. */
  lemma LegCosine(m: Blend.Maths, u: Vec, v: Vec, p: real, q: real, n: real, d: real, f: real)
    requires |u| == |v| && p == m.norm(u) && q == m.norm(v) && p != 0.0 && q != 0.0 && n == p * q && d == Dot(u, v)
    requires f == Dot(Blend.Normalized(m, u), Blend.Normalized(m, v))
    ensures n * f == d
  {
    hide Dot, Mul;
    var w := Blend.Normalized(m, v);
    var e := Dot(u, w);
    DotScaled(1.0 / p, u, w);
    DotScaled(1.0 / q, v, u);
    DotSymmetric(u, w);
    DotSymmetric(u, v);
    Unscaled(1.0 / p, p, e, f);
    Unscaled(1.0 / q, q, d, e);
    Regrouped(p, q, n, d, e, f);
  }

  lemma Unscaled(x: real, p: real, e: real, f: real)
    requires p != 0.0 && x == 1.0 / p && f == Mul(x, e)
    ensures p * f == e
  {
    assert x * p == 1.0;
  }

  lemma Regrouped(p: real, q: real, n: real, d: real, e: real, f: real)
    requires n == p * q && p * f == e && q * e == d
    ensures n * f == d
  {
    assert (p * q) * f == q * (p * f);
  }

  lemma LegLength(m: Blend.Maths, a: Vec, b: Vec)
    requires Blend.Faithful(m) && |a| == |b|
    ensures 0.0 <= m.norm(Sub(b, a)) && (m.norm(Sub(b, a)) == 0.0 <==> a == b)
  {
    assert Blend.NormIsRoot(m, Sub(b, a));
    if a != b {
      ChordIsPositive(a, b);
      hide Dot;
      NonZeroRoot(m.norm(Sub(b, a)), Dot(Sub(b, a), Sub(b, a)));
    } else {
      assert Sub(b, a) == Scale(0.0, Sub(b, a));
      DotScale(0.0, Sub(b, a), Sub(b, a));
      SquareIsPositive(m.norm(Sub(b, a)));
    }
  }

  lemma CosineTest(n: real, d: real, f: real, threshold: real)
    requires n * f == d
    ensures 0.0 < n ==> (Abs(f + 1.0) < threshold <==> Abs(d + n) < threshold * n)
  {
    if 0.0 < n {
      assert n * (f + 1.0) == d + n;
      AbsTimes(n, f + 1.0, d + n);
      ScaledOrder(n, Abs(f + 1.0), threshold);
    }
  }

  lemma AbsTimes(n: real, x: real, y: real)
    requires 0.0 < n && n * x == y
    ensures Abs(y) == n * Abs(x)
  {
    if x < 0.0 {
      assert n * (-x) == -y;
      MulPos(n, -x);
    } else {
      MulMono(0.0, x, n);
    }
  }

  lemma ScaledOrder(n: real, x: real, y: real)
    requires 0.0 < n
    ensures n * x < y * n <==> x < y
  {
    if x < y {
      MulPos(n, y - x);
      assert n * (y - x) == y * n - n * x;
    } else {
      MulMono(y, x, n);
    }
  }

  /** A leg straight back is a cusp for every positive threshold. */
  lemma ReversalIsCusp(m: Blend.Maths, a: Vec, b: Vec, c: Vec, threshold: real, k: real)
    requires Blend.Faithful(m) && |a| == |b| == |c| && 0.0 < threshold
    requires a != b && 0.0 < k && Sub(c, b) == Scale(-k, Sub(b, a))
    ensures Cusp(m, a, b, c, threshold)
  {
    var u, v := Sub(b, a), Sub(c, b);
    var n := m.norm(u);
    ChordIsPositive(a, b);
    assert Blend.NormIsRoot(m, u);
    hide Dot, Blend.Faithful;
    NonZeroRoot(n, Dot(u, u));
    BackwardsNorm(m, u, v, k, n);
    BackwardsUnit(m, u, v, k, n);
    var e, f := Blend.Normalized(m, u), Blend.Normalized(m, v);
    Blend.NormalizedIsUnit(m, u);
    DotScale(-1.0, e, e);
    DotSymmetric(e, f);
    assert Dot(f, e) == -1.0 * Dot(e, e);
  }

  lemma NonZeroRoot(n: real, s: real)
    requires 0.0 <= n && n * n == s && 0.0 < s
    ensures 0.0 < n
  {
    if n == 0.0 {
      NullSquare(n);
    }
  }

  lemma NullSquare(n: real)
    requires n == 0.0
    ensures n * n == 0.0
  {
  }

  lemma BackwardsNorm(m: Blend.Maths, u: Vec, v: Vec, k: real, n: real)
    requires Blend.Faithful(m) && 0.0 < k && v == Scale(-k, u) && n == m.norm(u) && 0.0 < n
    ensures m.norm(v) == k * n && 0.0 < k * n
  {
    assert Blend.NormIsRoot(m, u);
    hide Dot;
    DotScale(-k, u, v);
    DotScale(-k, u, u);
    DotSymmetric(u, v);
    BackwardsSquare(k, n, Dot(u, u), Dot(v, u), Dot(v, v));
    MulPos(k, n);
    Blend.NormIs(m, v, k * n);
  }

  lemma BackwardsSquare(k: real, n: real, uu: real, vu: real, vv: real)
    requires n * n == uu && vu == -k * uu && vv == -k * vu
    ensures (k * n) * (k * n) == vv
  {
  }

  lemma BackwardsUnit(m: Blend.Maths, u: Vec, v: Vec, k: real, n: real)
    requires 0.0 < k && v == Scale(-k, u) && n == m.norm(u) && 0.0 < n && m.norm(v) == k * n && 0.0 < k * n
    ensures Blend.Normalized(m, v) == Scale(-1.0, Blend.Normalized(m, u))
  {
    var f, g := Blend.Normalized(m, v), Scale(-1.0, Blend.Normalized(m, u));
    forall i | 0 <= i < |u|
      ensures f[i] == g[i]
    {
      Opposite(k, n, k * n, u[i], v[i], Blend.Normalized(m, u)[i], f[i]);
    }
  }

  lemma Opposite(k: real, n: real, kn: real, u: real, v: real, e: real, f: real)
    requires 0.0 < k && 0.0 < n && 0.0 < kn && kn == k * n && v == -k * u && e == (1.0 / n) * u && f == (1.0 / kn) * v
    ensures f == -1.0 * e
  {
    assert n * e == u by {
      assert n * (1.0 / n) == 1.0;
    }
    assert kn * f == v by {
      assert kn * (1.0 / kn) == 1.0;
    }
    assert k * n * e == k * u;
    assert kn * (f + e) == 0.0;
  }

  /** A piece of a list between two consecutive cuts, with both ends. */
  ghost predicate PieceAt(ws: seq<Vec>, cuts: seq<nat>, pieces: seq<seq<Vec>>, k: nat) {
    k < |pieces| && k + 1 < |cuts| && cuts[k] < cuts[k + 1] < |ws| && pieces[k] == ws[cuts[k]..cuts[k + 1] + 1]
  }

  /** The pieces of a list up to its last cut, each cut ending one piece and starting the next. */
  ghost predicate CutUp(ws: seq<Vec>, cuts: seq<nat>, pieces: seq<seq<Vec>>) {
    |cuts| == |pieces| + 1 && cuts[0] == 0 && ws != [] && cuts[|pieces|] < |ws| &&
    forall k :: 0 <= k < |pieces| ==> PieceAt(ws, cuts, pieces, k)
  }

  lemma CutMore(ws: seq<Vec>, cuts: seq<nat>, pieces: seq<seq<Vec>>, i: nat)
    requires CutUp(ws, cuts, pieces) && cuts[|pieces|] < i < |ws|
    ensures ws[cuts[|pieces|]..i] + [ws[i]] == ws[cuts[|pieces|]..i + 1]
    ensures CutUp(ws, cuts + [i], pieces + [ws[cuts[|pieces|]..i + 1]])
    ensures [ws[i]] == ws[i..i + 1]
  {
    var c, q := cuts + [i], pieces + [ws[cuts[|pieces|]..i + 1]];
    forall k | 0 <= k < |q|
      ensures PieceAt(ws, c, q, k)
    {
      assert k < |pieces| ==> PieceAt(ws, cuts, pieces, k);
    }
  }

  /** Gluing pieces at their shared ends. */
  function Glue(pieces: seq<seq<Vec>>): seq<Vec>
    requires forall k :: 0 <= k < |pieces| ==> pieces[k] != []
  {
    var n := |pieces| - 1;
    if pieces == [] then [] else if n == 0 then pieces[0] else Glue(pieces[..n]) + pieces[n][1..]
  }

  lemma PiecesAreNotEmpty(ws: seq<Vec>, cuts: seq<nat>, pieces: seq<seq<Vec>>)
    requires CutUp(ws, cuts, pieces)
    ensures forall k :: 0 <= k < |pieces| ==> pieces[k] != []
  {
    forall k | 0 <= k < |pieces|
      ensures pieces[k] != []
    {
      assert PieceAt(ws, cuts, pieces, k);
    }
  }

  lemma CutLess(ws: seq<Vec>, cuts: seq<nat>, pieces: seq<seq<Vec>>)
    requires CutUp(ws, cuts, pieces) && pieces != []
    ensures CutUp(ws, cuts[..|pieces|], pieces[..|pieces| - 1])
  {
    var n := |pieces| - 1;
    var c, q := cuts[..n + 1], pieces[..n];
    assert PieceAt(ws, cuts, pieces, n);
    forall k | 0 <= k < n
      ensures PieceAt(ws, c, q, k)
    {
      assert PieceAt(ws, cuts, pieces, k);
    }
  }

  /** Gluing the pieces of a list gives back the list, up to the last cut. */
  lemma {:induction false} GlueRestores(ws: seq<Vec>, cuts: seq<nat>, pieces: seq<seq<Vec>>)
    requires CutUp(ws, cuts, pieces) && pieces != []
    ensures (forall k :: 0 <= k < |pieces| ==> pieces[k] != []) && Glue(pieces) == ws[..cuts[|pieces|] + 1]
  {
    PiecesAreNotEmpty(ws, cuts, pieces);
    var n := |pieces| - 1;
    assert PieceAt(ws, cuts, pieces, n);
    if n > 0 {
      var c, q := cuts[..n + 1], pieces[..n];
      CutLess(ws, cuts, pieces);
      hide PieceAt, CutUp;
      GlueRestores(ws, c, q);
      GlueOne(ws, cuts[n], cuts[n + 1]);
    }
  }

  lemma GlueOne(ws: seq<Vec>, a: nat, b: nat)
    requires a < b < |ws|
    ensures ws[..a + 1] + ws[a..b + 1][1..] == ws[..b + 1]
  {
  }

  /** The inner cuts are exactly the cusps. */
  ghost predicate AtCusps(m: Blend.Maths, ws: seq<Vec>, cuts: seq<nat>, end: nat, threshold: real)
    requires Coalescing.SameDof(ws) && end < |ws|
  {
    (forall i :: 0 < i < end ==> (CuspAt(m, ws, i, threshold) <==> i in cuts)) && forall i :: i in cuts ==> i < end
  }

  lemma AtCuspsMore(m: Blend.Maths, ws: seq<Vec>, cuts: seq<nat>, end: nat, threshold: real)
    requires Coalescing.SameDof(ws) && 0 < end < |ws| - 1 && AtCusps(m, ws, cuts, end, threshold)
    ensures |ws[end - 1]| == |ws[end]| == |ws[end + 1]|
    ensures CuspAt(m, ws, end, threshold) == Cusp(m, ws[end - 1], ws[end], ws[end + 1], threshold)
    ensures CuspAt(m, ws, end, threshold) ==> AtCusps(m, ws, cuts + [end], end + 1, threshold)
    ensures !CuspAt(m, ws, end, threshold) ==> AtCusps(m, ws, cuts, end + 1, threshold)
  {
    assert CuspAt(m, ws, end, threshold) == Cusp(m, ws[end - 1], ws[end], ws[end + 1], threshold);
    hide CuspAt;
  }

  lemma NoCuspsYet(m: Blend.Maths, ws: seq<Vec>, threshold: real)
    requires Coalescing.SameDof(ws) && |ws| >= 3
    ensures AtCusps(m, ws, [0], 1, threshold)
  {
  }

  /** `segment_at_reversals`: the list cut at its cusps and nowhere else. Gluing the segments at the
      cusps they share gives back the list. */
  method SegmentAtReversals(m: Blend.Maths, ws: seq<Vec>, threshold: real) returns (segments: seq<seq<Vec>>, ghost cuts: seq<nat>)
    requires Coalescing.SameDof(ws)
    ensures |ws| < 3 ==> segments == [ws]
    ensures |ws| >= 3 ==>
              CutUp(ws, cuts + [|ws| - 1], segments) && AtCusps(m, ws, cuts, |ws| - 1, threshold)
    ensures |ws| >= 3 ==> (forall k :: 0 <= k < |segments| ==> segments[k] != []) && Glue(segments) == ws
  {
    if |ws| < 3 {
      return [ws], [];
    }
    assert CutUp(ws, [0], []);
    hide *;
    segments := [];
    cuts := [0];
    var current := [ws[0]];
    NoCuspsYet(m, ws, threshold);
    for i := 1 to |ws| - 1
      invariant CutUp(ws, cuts, segments) && |cuts| == |segments| + 1 && cuts[|segments|] < i && current == ws[cuts[|segments|]..i]
      invariant AtCusps(m, ws, cuts, i, threshold)
    {
      CutMore(ws, cuts, segments, i);
      AtCuspsMore(m, ws, cuts, i, threshold);
      if Cusp(m, ws[i - 1], ws[i], ws[i + 1], threshold) {
        current := current + [ws[i]];
        segments := segments + [current];
        cuts := cuts + [i];
        current := [ws[i]];
      } else {
        current := current + [ws[i]];
      }
    }
    CutMore(ws, cuts, segments, |ws| - 1);
    current := current + [ws[|ws| - 1]];
    segments := segments + [current];
    GlueRestores(ws, cuts + [|ws| - 1], segments);
  }
}
