/** Tube coalescing: the scan path construction makes over its waypoints (path.cpp), and the second
    implementation that edits a list in place (tools/legacy.cpp). Both keep the same waypoints. */
module Coalescing {
  import opened Reals
  import opened Vectors

  /** All waypoints have the path's number of joints. */
  ghost predicate SameDof(ws: seq<Vec>) {
    forall i, j :: 0 <= i < |ws| && 0 <= j < |ws| ==> |ws[i]| == |ws[j]|
  }

  /** The point lies in the tube of the given radius around the chord, beside it and not past either
      end; a chord between equal points has no tube. */
  predicate InTube(point: Vec, start: Vec, end: Vec, radius: real)
    requires |point| == |start| == |end|
  {
    start != end &&
    var chord := Sub(end, start);
    var lengthSq := Dot(chord, chord);
    var projection := Dot(Sub(point, start), chord);
    ChordIsPositive(start, end);
    0.0 <= projection <= lengthSq &&
    var t := projection / lengthSq;
    var deviation := Sub(point, Add(start, Scale(t, chord)));
    Dot(deviation, deviation) <= radius * radius
  }

  /** The point of the chord at t is where the perpendicular from the given point meets it, no further than the
      radius away. */
  ghost predicate FootAt(point: Vec, start: Vec, end: Vec, radius: real, t: real)
    requires |point| == |start| == |end|
  {
    var chord := Sub(end, start);
    var away := Sub(point, Add(start, Scale(t, chord)));
    Dot(away, chord) == 0.0 && Dot(away, away) <= radius * radius
  }

  /** A point is in the tube exactly when the perpendicular from it meets the chord between its ends, within the
      radius. */
  lemma InTubeExactly(point: Vec, start: Vec, end: Vec, radius: real)
    requires |point| == |start| == |end|
    ensures InTube(point, start, end, radius) <==> start != end && exists t :: 0.0 <= t <= 1.0 && FootAt(point, start, end, radius, t)
  {
    if start != end {
      hide Dot;
      ChordIsPositive(start, end);
      var chord := Sub(end, start);
      var lengthSq, projection := Dot(chord, chord), Dot(Sub(point, start), chord);
      var t := projection / lengthSq;
      assert t * lengthSq == projection;
      DivGe(projection, 0.0, lengthSq);
      DivLe(projection, 1.0, lengthSq);
      FootIs(point, start, end, lengthSq, projection, t);
      assert InTube(point, start, end, radius) <==> 0.0 <= t <= 1.0 && FootAt(point, start, end, radius, t);
      forall s | FootAt(point, start, end, radius, s)
        ensures s == t
      {
        FootIs(point, start, end, lengthSq, projection, s);
        DivIs(projection, lengthSq, s);
      }
    }
  }

  lemma FootIs(point: Vec, start: Vec, end: Vec, lengthSq: real, projection: real, t: real)
    requires |point| == |start| == |end|
    requires lengthSq == Dot(Sub(end, start), Sub(end, start)) && projection == Dot(Sub(point, start), Sub(end, start))
    ensures Dot(Sub(point, Add(start, Scale(t, Sub(end, start)))), Sub(end, start)) == 0.0 <==> t * lengthSq == projection
  {
    hide Dot;
    var chord := Sub(end, start);
    var away := Sub(point, Add(start, Scale(t, chord)));
    assert Combines(away, 1.0, Sub(point, start), -t, chord);
    DotOfCombination(away, 1.0, Sub(point, start), -t, chord, chord);
  }

  // ----- which waypoints are kept -----

  /** Everything strictly between base and target, up to and including candidate, is in the tube of
      the chord from base to target. */
  predicate Extends(ws: seq<Vec>, base: nat, candidate: nat, radius: real)
    requires SameDof(ws)
  {
    base < candidate && candidate + 1 < |ws| && ws[base] != ws[candidate + 1] &&
    forall i :: base < i <= candidate ==> InTube(ws[i], ws[base], ws[candidate + 1], radius)
  }

  /** How far the tube from base reaches, starting at a candidate: the next waypoint kept. */
  function Reach(ws: seq<Vec>, base: nat, candidate: nat, radius: real): (r: nat)
    requires SameDof(ws) && base < candidate < |ws|
    ensures candidate <= r < |ws|
    decreases |ws| - candidate
  {
    if Extends(ws, base, candidate, radius) then Reach(ws, base, candidate + 1, radius) else candidate
  }

  /** The kept indices from base on. */
  function Kept(ws: seq<Vec>, base: nat, radius: real): (r: seq<nat>)
    requires SameDof(ws) && base < |ws|
    ensures r != [] && r[0] == base
    ensures forall k :: 0 <= k < |r| ==> r[k] < |ws|
    decreases |ws| - base
  {
    if base + 1 < |ws| then [base] + Kept(ws, Reach(ws, base, base + 1, radius), radius) else [base]
  }

  /** The waypoints at some indices. */
  function Pick(ws: seq<Vec>, indices: seq<nat>): (r: seq<Vec>)
    requires forall k :: 0 <= k < |indices| ==> indices[k] < |ws|
    ensures |r| == |indices| && forall k :: 0 <= k < |r| ==> r[k] == ws[indices[k]]
  {
    seq(|indices|, k requires 0 <= k < |indices| => ws[indices[k]])
  }

  /** Where the reach stops, everything skipped is in the tube of the chord it stops on. */
  lemma {:induction false} ReachCovers(ws: seq<Vec>, base: nat, candidate: nat, radius: real)
    requires SameDof(ws) && base < candidate < |ws|
    requires forall i :: base < i < candidate ==> InTube(ws[i], ws[base], ws[candidate], radius)
    ensures var r := Reach(ws, base, candidate, radius);
            forall i :: base < i < r ==> InTube(ws[i], ws[base], ws[r], radius)
    decreases |ws| - candidate
  {
    hide InTube;
    if Extends(ws, base, candidate, radius) {
      ReachCovers(ws, base, candidate + 1, radius);
    }
  }

  /** The kept indices increase from the first waypoint to the last, and every waypoint dropped
      between two neighbours lies in the tube around the chord between them. */
  lemma {:induction false} KeptCovers(ws: seq<Vec>, base: nat, radius: real)
    requires SameDof(ws) && base < |ws|
    ensures var kept := Kept(ws, base, radius);
            kept[|kept| - 1] == |ws| - 1 &&
            forall k :: 0 <= k < |kept| - 1 ==> kept[k] < kept[k + 1] && Covered(ws, kept[k], kept[k + 1], radius)
    decreases |ws| - base
  {
    hide InTube, Extends;
    if base + 1 < |ws| {
      var next := Reach(ws, base, base + 1, radius);
      ReachCovers(ws, base, base + 1, radius);
      KeptCovers(ws, next, radius);
      var rest, kept := Kept(ws, next, radius), Kept(ws, base, radius);
      forall k | 0 <= k < |kept| - 1
        ensures kept[k] < kept[k + 1] && Covered(ws, kept[k], kept[k + 1], radius)
      {
        if k > 0 {
          assert kept[k] == rest[k - 1] && kept[k + 1] == rest[k];
        }
      }
    }
  }

  ghost predicate Covered(ws: seq<Vec>, a: nat, b: nat, radius: real)
    requires SameDof(ws) && a < |ws| && b < |ws|
  {
    forall i :: a < i < b ==> InTube(ws[i], ws[a], ws[b], radius)
  }

  /** A chord between different waypoints whose tube holds everything between them. */
  ghost predicate TubeHolds(ws: seq<Vec>, a: nat, b: nat, radius: real)
    requires SameDof(ws) && a < |ws| && b < |ws|
  {
    ws[a] != ws[b] && Covered(ws, a, b, radius)
  }

  /** From a kept waypoint the chord was let out one waypoint at a time while its tube held, and not once more. */
  ghost predicate Furthest(ws: seq<Vec>, a: nat, b: nat, radius: real)
    requires SameDof(ws)
  {
    a < b < |ws| && (forall c :: a + 1 < c <= b ==> TubeHolds(ws, a, c, radius)) &&
    (b + 1 < |ws| ==> !TubeHolds(ws, a, b + 1, radius))
  }

  /** The kept indices run from base to the last waypoint, each as far from the one before as it can be. */
  ghost predicate Greedy(ws: seq<Vec>, kept: seq<nat>, base: nat, radius: real)
    requires SameDof(ws)
  {
    kept != [] && kept[0] == base && kept[|kept| - 1] == |ws| - 1 &&
    forall k :: 0 <= k < |kept| - 1 ==> Furthest(ws, kept[k], kept[k + 1], radius)
  }

  lemma ExtendsExactly(ws: seq<Vec>, base: nat, candidate: nat, radius: real)
    requires SameDof(ws) && base < candidate < |ws|
    ensures Extends(ws, base, candidate, radius) <==> candidate + 1 < |ws| && TubeHolds(ws, base, candidate + 1, radius)
  {
    hide InTube;
  }

  lemma {:induction false} ReachIsFurthest(ws: seq<Vec>, base: nat, candidate: nat, radius: real)
    requires SameDof(ws) && base < candidate < |ws| && forall c :: base + 1 < c <= candidate ==> TubeHolds(ws, base, c, radius)
    ensures Furthest(ws, base, Reach(ws, base, candidate, radius), radius)
    decreases |ws| - candidate
  {
    hide Extends, TubeHolds;
    ExtendsExactly(ws, base, candidate, radius);
    if Extends(ws, base, candidate, radius) {
      ReachIsFurthest(ws, base, candidate + 1, radius);
    }
  }

  lemma FurthestOnce(ws: seq<Vec>, a: nat, b: nat, c: nat, radius: real)
    requires SameDof(ws) && Furthest(ws, a, b, radius) && Furthest(ws, a, c, radius)
    ensures b == c
  {
    hide TubeHolds;
  }

  /** The kept indices are the greedy ones, and there are no others. */
  lemma {:induction false} KeptIsGreedy(ws: seq<Vec>, base: nat, radius: real, any: seq<nat>)
    requires SameDof(ws) && base < |ws|
    ensures Greedy(ws, any, base, radius) <==> any == Kept(ws, base, radius)
    decreases |ws| - base
  {
    hide Extends, Furthest, Reach;
    if base + 1 == |ws| {
      OnlyLast(ws, base, radius, any);
    } else {
      var next := Reach(ws, base, base + 1, radius);
      ReachIsFurthest(ws, base, base + 1, radius);
      if |any| > 1 && any[0] == base {
        KeptIsGreedy(ws, next, radius, any[1..]);
        GreedyRest(ws, any, base, next, radius);
        assert any == [base] + any[1..];
      }
    }
  }

  lemma OnlyLast(ws: seq<Vec>, base: nat, radius: real, any: seq<nat>)
    requires SameDof(ws) && base + 1 == |ws|
    ensures Greedy(ws, any, base, radius) <==> any == [base]
  {
    hide TubeHolds;
    if |any| > 1 && any[0] == base {
      assert !Furthest(ws, any[0], any[0 + 1], radius);
    }
  }

  lemma GreedyRest(ws: seq<Vec>, any: seq<nat>, base: nat, next: nat, radius: real)
    requires SameDof(ws) && |any| > 1 && any[0] == base && Furthest(ws, base, next, radius)
    ensures Greedy(ws, any, base, radius) <==> Greedy(ws, any[1..], next, radius)
  {
    hide Furthest;
    var rest := any[1..];
    if Greedy(ws, any, base, radius) {
      assert Furthest(ws, any[0], any[0 + 1], radius);
      FurthestOnce(ws, base, next, any[1], radius);
      forall k | 0 <= k < |rest| - 1
        ensures Furthest(ws, rest[k], rest[k + 1], radius)
      {
        var j := k + 1;
        assert Furthest(ws, any[j], any[j + 1], radius);
      }
    }
    if Greedy(ws, rest, next, radius) {
      forall k | 0 <= k < |any| - 1
        ensures Furthest(ws, any[k], any[k + 1], radius)
      {
        if k > 0 {
          var j := k - 1;
          assert Furthest(ws, rest[j], rest[j + 1], radius);
        }
      }
    }
  }

  /** What is kept at a waypoint whose reach is known. */
  lemma KeptStep(ws: seq<Vec>, base: nat, candidate: nat, radius: real)
    requires SameDof(ws) && base < candidate < |ws| && !Extends(ws, base, candidate, radius)
    requires Reach(ws, base, base + 1, radius) == Reach(ws, base, candidate, radius)
    ensures Kept(ws, base, radius) == [base] + Kept(ws, candidate, radius)
  {
    hide InTube, Extends;
  }

  lemma KeptLast(ws: seq<Vec>, radius: real)
    requires SameDof(ws) && ws != []
    ensures Kept(ws, |ws| - 1, radius) == [|ws| - 1]
  {
  }

  lemma ReachStep(ws: seq<Vec>, base: nat, candidate: nat, radius: real)
    requires SameDof(ws) && base < candidate < |ws|
    ensures Extends(ws, base, candidate, radius) ==>
              candidate + 1 < |ws| && Reach(ws, base, candidate, radius) == Reach(ws, base, candidate + 1, radius)
  {
    hide InTube;
  }

  // ----- the scan in path construction -----

  /** Whether the scan skips a candidate too: the last waypoint and a return to the base cannot be skipped to. */
  method ScanSkips(ws: seq<Vec>, base: nat, candidate: nat, skipped: seq<nat>, radius: real) returns (skip: bool)
    requires SameDof(ws) && base < candidate < |ws| && skipped == Between(base, candidate)
    ensures skip == Extends(ws, base, candidate, radius)
  {
    hide InTube, Between;
    ScanTest(ws, base, candidate, radius);
    hide Extends;
    var target := candidate + 1;
    if target == |ws| {
      return false;
    }
    if ws[base] == ws[target] {
      return false;
    }
    if !InTube(ws[candidate], ws[base], ws[target], radius) {
      return false;
    }
    skip := forall k :: 0 <= k < |skipped| ==> InTube(ws[skipped[k]], ws[base], ws[target], radius);
  }

  /** `path::create`'s coalescing loop, for a waypoint list of at least two and a non-negative
      deviation. */
  method CoalesceScan(ws: seq<Vec>, maxLinearDeviation: real) returns (kept: seq<Vec>)
    requires SameDof(ws) && |ws| >= 2 && 0.0 <= maxLinearDeviation
    ensures kept == if maxLinearDeviation == 0.0 then ws else Pick(ws, Kept(ws, 0, maxLinearDeviation / 2.0))
  {
    hide InTube, Kept, Reach, Extends, KeptSoFar, SameDof, Pick, Between;
    if maxLinearDeviation == 0.0 {
      return ws;
    }
    var radius := maxLinearDeviation / 2.0;
    kept := [];
    ghost var done: seq<nat> := [];
    NoneYet(ws, radius);
    assert kept == Pick(ws, done);
    var base := 0;
    while base < |ws|
      invariant 0 <= base <= |ws|
      invariant forall k :: 0 <= k < |done| ==> done[k] < |ws|
      invariant kept == Pick(ws, done)
      invariant KeptSoFar(ws, done, base, radius)
    {
      PickOn(ws, done, base);
      kept := kept + [ws[base]];
      var skipped: seq<nat> := [];
      BetweenNone(base);
      var candidate := base + 1;
      while candidate < |ws|
        invariant base < candidate <= |ws| && (base + 1 < |ws| ==> candidate < |ws|)
        invariant skipped == Between(base, candidate)
        invariant candidate < |ws| ==> Reach(ws, base, base + 1, radius) == Reach(ws, base, candidate, radius)
      {
        ReachStep(ws, base, candidate, radius);
        var skip := ScanSkips(ws, base, candidate, skipped, radius);
        if !skip {
          break;
        }
        BetweenOn(base, candidate);
        skipped := skipped + [candidate];
        candidate := candidate + 1;
      }
      if candidate < |ws| {
        KeptStep(ws, base, candidate, radius);
      } else {
        KeptLast(ws, radius);
      }
      KeepsOn(ws, done, base, candidate, radius);
      done := done + [base];
      base := candidate;
    }
    AllKept(ws, done, radius);
  }

  /** The scan has kept `done`, and what it will keep from base on completes the list. */
  ghost predicate KeptSoFar(ws: seq<Vec>, done: seq<nat>, base: nat, radius: real)
    requires SameDof(ws)
  {
    ws != [] && base <= |ws| && Kept(ws, 0, radius) == done + if base < |ws| then Kept(ws, base, radius) else []
  }

  lemma NoneYet(ws: seq<Vec>, radius: real)
    requires SameDof(ws) && ws != []
    ensures KeptSoFar(ws, [], 0, radius)
  {
    assert [] + Kept(ws, 0, radius) == Kept(ws, 0, radius);
  }

  lemma KeepsOn(ws: seq<Vec>, done: seq<nat>, base: nat, candidate: nat, radius: real)
    requires SameDof(ws) && base < candidate <= |ws| && KeptSoFar(ws, done, base, radius)
    requires Kept(ws, base, radius) == [base] + if candidate < |ws| then Kept(ws, candidate, radius) else []
    ensures KeptSoFar(ws, done + [base], candidate, radius)
  {
    hide Kept;
    var rest := if candidate < |ws| then Kept(ws, candidate, radius) else [];
    assert done + ([base] + rest) == done + [base] + rest;
  }

  lemma AllKept(ws: seq<Vec>, done: seq<nat>, radius: real)
    requires SameDof(ws) && KeptSoFar(ws, done, |ws|, radius)
    ensures Kept(ws, 0, radius) == done
  {
    assert done + [] == done;
  }

  /** The indices strictly between two. */
  function Between(a: nat, b: nat): (r: seq<nat>)
    requires a < b
    ensures |r| == b - a - 1 && forall k :: 0 <= k < |r| ==> r[k] == a + 1 + k
  {
    seq(b - a - 1, k requires 0 <= k => a + 1 + k)
  }

  lemma BetweenNone(a: nat)
    ensures Between(a, a + 1) == []
  {
  }

  lemma BetweenOn(a: nat, b: nat)
    requires a < b
    ensures Between(a, b + 1) == Between(a, b) + [b]
  {
  }

  lemma PickOn(ws: seq<Vec>, done: seq<nat>, base: nat)
    requires base < |ws| && forall k :: 0 <= k < |done| ==> done[k] < |ws|
    ensures Pick(ws, done + [base]) == Pick(ws, done) + [ws[base]]
  {
  }

  /** The order in which the scan tests its conditions does not matter. */
  lemma ScanTest(ws: seq<Vec>, base: nat, candidate: nat, radius: real)
    requires SameDof(ws) && base < candidate < |ws|
    ensures Extends(ws, base, candidate, radius) <==>
            candidate + 1 < |ws| && ws[base] != ws[candidate + 1] &&
            InTube(ws[candidate], ws[base], ws[candidate + 1], radius) &&
            forall k :: 0 <= k < candidate - base - 1 ==> InTube(ws[Between(base, candidate)[k]], ws[base], ws[candidate + 1], radius)
  {
    hide InTube;
    if candidate + 1 < |ws| &&
       (forall k :: 0 <= k < candidate - base - 1 ==> InTube(ws[Between(base, candidate)[k]], ws[base], ws[candidate + 1], radius)) {
      forall i | base < i < candidate
        ensures InTube(ws[i], ws[base], ws[candidate + 1], radius)
      {
        assert Between(base, candidate)[i - base - 1] == i;
      }
    }
  }

  // ----- the list edited in place -----

  /** The planner's waypoint list. Its iterators are indices here: erasing a stretch before an
      iterator moves it back by the stretch's length. */
  class WaypointList {
    var items: seq<Vec>

    constructor (ws: seq<Vec>)
      ensures items == ws
    {
      items := ws;
    }

    /** `erase(first, last)` on a list. */
    method Erase(first: nat, last: nat)
      requires first <= last <= |items|
      modifies this
      ensures items == old(items)[..first] + old(items)[last..]
    {
      items := items[..first] + items[last..];
    }

    /** Whether the cylinder from the anchor can be extended to skip the locus: the last waypoint and
        a return to the anchor's own position cannot be skipped to. */
    method CanSkip(anchor: nat, locus: nat, tolerance: real) returns (skip: bool)
      requires SameDof(items) && anchor < locus < |items|
      ensures skip == SkipTest(items, anchor, locus, tolerance / 2.0)
    {
      hide InTube;
      var next := locus + 1;
      if next == |items| || items[anchor] == items[next] {
        return false;
      }
      if !InTube(items[locus], items[anchor], items[next], tolerance / 2.0) {
        return false;
      }
      var it := anchor + 1;
      while it != locus
        invariant anchor < it <= locus
        invariant forall i :: anchor < i < it ==> InTube(items[i], items[anchor], items[next], tolerance / 2.0)
      {
        if !InTube(items[it], items[anchor], items[next], tolerance / 2.0) {
          return false;
        }
        it := it + 1;
      }
      return true;
    }

    /** `apply_colinearization`. */
    method ApplyColinearization(tolerance: real)
      requires SameDof(items)
      modifies this
      ensures items == if |old(items)| <= 2 || tolerance <= 0.0 then old(items)
                       else Pick(old(items), Kept(old(items), 0, tolerance / 2.0))
    {
      hide *;
      if |items| <= 2 || tolerance <= 0.0 {
        return;
      }
      ghost var ws, radius := items, tolerance / 2.0;
      ghost var done: seq<nat> := [];
      ghost var base: nat, candidate: nat := 0, 1;
      ViewStart(ws);
      var anchor, locus := 0, 1;
      while locus != |items|
        invariant SameDof(ws) && base < candidate <= |ws|
        invariant View(items, ws, done, base) && |items| == |done| + |ws| - base
        invariant anchor == |done| && locus == anchor + (candidate - base)
        invariant Kept(ws, 0, radius) == done + Kept(ws, base, radius)
        invariant candidate < |ws| ==> Reach(ws, base, base + 1, radius) == Reach(ws, base, candidate, radius)
        invariant candidate == |ws| ==> base + 1 == |ws|
        decreases |ws| - candidate
      {
        ViewKeepsDof(items, ws, done, base);
        ViewTest(items, ws, done, base, candidate, radius);
        ReachStep(ws, base, candidate, radius);
        var skip := CanSkip(anchor, locus, tolerance);
        if skip {
          candidate := candidate + 1;
          locus := locus + 1;
          continue;
        }
        KeptStep(ws, base, candidate, radius);
        ViewErase(items, ws, done, base, candidate);
        Erase(anchor + 1, locus);
        done := done + [base];
        base, candidate := candidate, candidate + 1;
        anchor := anchor + 1;
        locus := anchor + 1;
      }
      KeptLast(ws, radius);
      ViewEnd(items, ws, done);
    }
  }

  /** The list so far: the waypoints kept, then everything from the anchor on. */
  ghost predicate View(items: seq<Vec>, ws: seq<Vec>, done: seq<nat>, base: nat) {
    base < |ws| && |items| == |done| + |ws| - base &&
    (forall k :: 0 <= k < |done| ==> done[k] < |ws| && items[k] == ws[done[k]]) &&
    forall k :: |done| <= k < |items| ==> items[k] == ws[base + k - |done|]
  }

  lemma ViewStart(ws: seq<Vec>)
    ensures |ws| > 2 ==> View(ws, ws, [], 0)
  {
  }

  lemma ViewKeepsDof(items: seq<Vec>, ws: seq<Vec>, done: seq<nat>, base: nat)
    requires SameDof(ws) && View(items, ws, done, base)
    ensures SameDof(items)
  {
  }

  predicate SkipTest(items: seq<Vec>, anchor: nat, locus: nat, radius: real)
    requires SameDof(items) && anchor < locus < |items|
  {
    locus + 1 < |items| && items[anchor] != items[locus + 1] &&
    InTube(items[locus], items[anchor], items[locus + 1], radius) &&
    forall i :: anchor < i < locus ==> InTube(items[i], items[anchor], items[locus + 1], radius)
  }

  /** The test made on the list is the test on the waypoints. */
  lemma ViewTest(items: seq<Vec>, ws: seq<Vec>, done: seq<nat>, base: nat, candidate: nat, radius: real)
    requires SameDof(ws) && SameDof(items) && View(items, ws, done, base) && base < candidate < |ws|
    ensures |items| == |done| + |ws| - base &&
            SkipTest(items, |done|, |done| + (candidate - base), radius) == Extends(ws, base, candidate, radius)
  {
    hide InTube;
    var anchor := |done|;
    var locus := anchor + (candidate - base);
    if SkipTest(items, anchor, locus, radius) {
      forall i | base < i <= candidate
        ensures InTube(ws[i], ws[base], ws[candidate + 1], radius)
      {
        assert items[anchor + (i - base)] == ws[i];
      }
    }
  }

  lemma ViewErase(items: seq<Vec>, ws: seq<Vec>, done: seq<nat>, base: nat, candidate: nat)
    requires View(items, ws, done, base) && base < candidate < |ws|
    ensures var anchor := |done|;
            var locus := anchor + (candidate - base);
            locus < |items| && View(items[..anchor + 1] + items[locus..], ws, done + [base], candidate) &&
            |items[..anchor + 1] + items[locus..]| == anchor + 1 + |ws| - candidate
  {
  }

  lemma ViewEnd(items: seq<Vec>, ws: seq<Vec>, done: seq<nat>)
    requires ws != [] && View(items, ws, done, |ws| - 1)
    ensures items == Pick(ws, done + [|ws| - 1])
  {
  }

  // ----- the two agree -----

  /** Two waypoints are always both kept. */
  lemma PairIsKept(ws: seq<Vec>, radius: real)
    requires SameDof(ws) && |ws| == 2
    ensures Pick(ws, Kept(ws, 0, radius)) == ws
  {
    KeptStep(ws, 0, 1, radius);
    KeptLast(ws, radius);
  }

  /** For every list of at least two waypoints and every tolerance, the scan and the list edited in
      place leave the same waypoints, from the first to the last. */
  method BothKeepTheSame(ws: seq<Vec>, tolerance: real) returns (scanned: seq<Vec>, edited: seq<Vec>)
    requires SameDof(ws) && |ws| >= 2 && 0.0 <= tolerance
    ensures scanned == edited
    ensures |scanned| >= 2 && scanned[0] == ws[0] && scanned[|scanned| - 1] == ws[|ws| - 1]
  {
    hide *;
    scanned := CoalesceScan(ws, tolerance);
    var list := new WaypointList(ws);
    list.ApplyColinearization(tolerance);
    edited := list.items;
    if |ws| == 2 {
      PairIsKept(ws, tolerance / 2.0);
    }
    KeptEnds(ws, tolerance / 2.0);
  }

  lemma KeptEnds(ws: seq<Vec>, radius: real)
    requires SameDof(ws) && |ws| >= 2
    ensures var kept := Pick(ws, Kept(ws, 0, radius));
            |kept| >= 2 && kept[0] == ws[0] && kept[|kept| - 1] == ws[|ws| - 1]
  {
    hide InTube, Extends, Reach;
    KeptCovers(ws, 0, radius);
  }
}
