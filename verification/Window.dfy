/** Where a backward step crosses the forward trajectory (trajectory.cpp, the sliding window of
    backward integration). Both trajectories are piecewise linear in the phase plane; the window
    only ever moves left, and still misses nothing that a scan of every forward point would see. */
module Window {
  import opened Reals
  import opened Trajectory

  /** Positions increase along the forward trajectory. */
  ghost predicate Rising(fwd: seq<Point>) {
    |fwd| >= 2 && forall i, j :: 0 <= i < j < |fwd| ==> fwd[i].s < fwd[j].s
  }

  /** The velocity at s on the line through p and q. */
  function Interp(p: Point, q: Point, s: real): real
    requires p.s < q.s
  {
    Lerp(p.sDot, q.sDot, (s - p.s) / (q.s - p.s))
  }

  // ----- what a full scan would look for -----

  /** The backward step from cur down to next passes strictly over forward point k and is above it. */
  ghost predicate AboveVertex(fwd: seq<Point>, cur: Point, next: Point, k: nat)
    requires next.s < cur.s
  {
    k < |fwd| - 1 && next.s < fwd[k].s < cur.s && fwd[k].sDot < Interp(next, cur, fwd[k].s)
  }

  /** The backward step ends on forward segment k, above it. */
  ghost predicate AboveSegment(fwd: seq<Point>, next: Point, k: nat)
    requires Rising(fwd)
  {
    k < |fwd| - 1 && fwd[k].s <= next.s < fwd[k + 1].s && Interp(fwd[k], fwd[k + 1], next.s) < next.sDot
  }

  /** Somewhere left of the last forward point, a breakpoint of either trajectory on this step has
      backward above forward. */
  ghost predicate StepAbove(fwd: seq<Point>, cur: Point, next: Point)
    requires Rising(fwd) && next.s < cur.s
  {
    exists k: nat :: AboveVertex(fwd, cur, next, k) || AboveSegment(fwd, next, k)
  }

  /** Forward point k is the rightmost at which the step is found above. */
  ghost predicate CrossesAt(fwd: seq<Point>, cur: Point, next: Point, k: nat)
    requires Rising(fwd) && next.s < cur.s
  {
    (AboveVertex(fwd, cur, next, k) || AboveSegment(fwd, next, k)) &&
    forall j: nat :: k < j ==> !AboveVertex(fwd, cur, next, j) && !AboveSegment(fwd, next, j)
  }

  // ----- the window -----

  /** Where the window stands before a step from cur: on the segment holding cur, or on the last one
      while cur has not come down to the last forward point. */
  ghost predicate WindowAt(fwd: seq<Point>, w: nat, s: real)
    requires Rising(fwd)
  {
    w < |fwd| - 1 && fwd[w].s <= s && (w < |fwd| - 2 ==> s < fwd[w + 1].s)
  }

  datatype Scan = Crosses(at: nat) | Clear

  /** The scan reports a crossing exactly when a full scan of the forward points would, and then at the
      rightmost one found, strictly left of cur and never the last point. Otherwise the window
      stands ready for the next step. */
  method SlideWindow(fwd: seq<Point>, w0: nat, cur: Point, next: Point) returns (r: Scan, w: nat)
    requires Rising(fwd) && fwd[0].s < next.s < cur.s && WindowAt(fwd, w0, cur.s)
    ensures r.Crosses? <==> StepAbove(fwd, cur, next)
    ensures r.Crosses? ==> r.at < |fwd| - 1 && fwd[r.at].s < cur.s && CrossesAt(fwd, cur, next, r.at)
    ensures r.Clear? ==> WindowAt(fwd, w, next.s)
    ensures w <= w0
  {
    w := w0;
    while next.s < fwd[w + 1].s
      invariant w <= w0 && fwd[w].s <= cur.s
      invariant w < |fwd| - 2 ==> w < w0 || cur.s < fwd[w + 1].s
      invariant forall k :: w < k < |fwd| - 1 ==> !AboveVertex(fwd, cur, next, k)
      invariant forall k :: w < k < |fwd| - 1 ==> next.s < fwd[k].s
      decreases w
    {
      var left, right := fwd[w], fwd[w + 1];
      if next.s >= left.s {
        // The step ends on this segment; hold position.
        if next.sDot > Interp(left, right, next.s) {
          assert AboveSegment(fwd, next, w);
          return Crosses(w), w;
        }
        break;
      }
      // The step passes this segment's left end.
      if cur.s > left.s {
        if Interp(next, cur, left.s) > left.sDot {
          assert AboveVertex(fwd, cur, next, w);
          return Crosses(w), w;
        }
      }
      if w == 0 {
        break;
      }
      w := w - 1;
    }
    r := Clear;
    if k: nat :| AboveVertex(fwd, cur, next, k) || AboveSegment(fwd, next, k) {
      assert k <= w;
    }
  }

  // ----- over a whole backward pass -----

  ghost predicate Falling(bwd: seq<Point>) {
    bwd != [] && forall i, j :: 0 <= i < j < |bwd| ==> bwd[j].s < bwd[i].s
  }

  /** No step of the pass so far found backward above forward. */
  ghost predicate NothingAbove(fwd: seq<Point>, bwd: seq<Point>)
    requires Rising(fwd) && Falling(bwd)
  {
    forall j :: 0 <= j < |bwd| - 1 ==> !StepAbove(fwd, bwd[j], bwd[j + 1])
  }

  /** s lies where backward step j and forward segment k overlap. */
  ghost predicate OnCell(fwd: seq<Point>, bwd: seq<Point>, k: nat, j: nat, s: real) {
    k < |fwd| - 1 && j < |bwd| - 1 && fwd[k].s <= s <= fwd[k + 1].s && bwd[j + 1].s <= s <= bwd[j].s
  }

  lemma InterpAtEnds(p: Point, q: Point)
    requires p.s < q.s
    ensures Interp(p, q, p.s) == p.sDot && Interp(p, q, q.s) == q.sDot
  {
    DivIs(0.0, q.s - p.s, 0.0);
    DivIs(q.s - p.s, q.s - p.s, 1.0);
  }

  /** A point of the line through p and q, as slope and intercept. */
  lemma InterpIsAffine(p: Point, q: Point, s: real) returns (m: real, b: real)
    requires p.s < q.s
    ensures forall x :: Interp(p, q, x) == m * x + b
  {
    var d := q.s - p.s;
    m := (q.sDot - p.sDot) / d;
    b := p.sDot - m * p.s;
    assert m * d == q.sDot - p.sDot;
    forall x ensures Interp(p, q, x) == m * x + b {
      var t := (x - p.s) / d;
      assert t * d == x - p.s;
      assert t * (q.sDot - p.sDot) == (t * d) * m by { assert t * (m * d) == (t * d) * m; }
    }
  }

  lemma AffineOrder(m: real, b: real, n: real, c: real, l: real, r: real, s: real)
    requires l <= s <= r && m * l + b <= n * l + c && m * r + b <= n * r + c
    ensures m * s + b <= n * s + c
  {
    var d, e := n - m, c - b;
    assert 0.0 <= d * l + e && 0.0 <= d * r + e;
    if 0.0 <= d {
      assert 0.0 <= d * (s - l);
      assert d * s == d * l + d * (s - l);
    } else {
      assert 0.0 <= (-d) * (r - s);
      assert d * s == d * r + (-d) * (r - s);
    }
  }

  /** At a forward point other than the last, within the pass, backward is on or below forward. */
  lemma BelowAtVertex(fwd: seq<Point>, bwd: seq<Point>, k: nat, j: nat)
    requires Rising(fwd) && Falling(bwd) && NothingAbove(fwd, bwd) && fwd[|fwd| - 1].s <= bwd[0].s
    requires k < |fwd| - 1 && j < |bwd| - 1 && bwd[j + 1].s <= fwd[k].s <= bwd[j].s
    ensures Interp(bwd[j + 1], bwd[j], fwd[k].s) <= fwd[k].sDot
  {
    InterpAtEnds(bwd[j + 1], bwd[j]);
    InterpAtEnds(fwd[k], fwd[k + 1]);
    hide Interp;
    if fwd[k].s == bwd[j].s {
      assert !StepAbove(fwd, bwd[j - 1], bwd[j - 1 + 1]);
      assert !AboveSegment(fwd, bwd[j], k);
    } else if fwd[k].s == bwd[j + 1].s {
      assert !AboveSegment(fwd, bwd[j + 1], k);
    } else {
      assert !AboveVertex(fwd, bwd[j], bwd[j + 1], k);
    }
  }

  /** At a backward point left of the last forward point, backward is on or below forward. */
  lemma BelowAtStep(fwd: seq<Point>, bwd: seq<Point>, k: nat, j: nat)
    requires Rising(fwd) && Falling(bwd) && NothingAbove(fwd, bwd) && fwd[|fwd| - 1].s <= bwd[0].s
    requires k < |fwd| - 1 && j < |bwd| && fwd[k].s <= bwd[j].s <= fwd[k + 1].s && bwd[j].s < fwd[|fwd| - 1].s
    ensures bwd[j].sDot <= Interp(fwd[k], fwd[k + 1], bwd[j].s)
  {
    assert 0 < j;
    InterpAtEnds(fwd[k], fwd[k + 1]);
    if bwd[j].s == fwd[k + 1].s {
      InterpAtEnds(fwd[k + 1], fwd[k + 2]);
      assert !StepAbove(fwd, bwd[j - 1], bwd[j - 1 + 1]);
      assert !AboveSegment(fwd, bwd[j], k + 1);
    } else {
      assert !StepAbove(fwd, bwd[j - 1], bwd[j - 1 + 1]);
      assert !AboveSegment(fwd, bwd[j], k);
    }
  }

  /** While nothing has been found above, backward is on or below forward at every position of every
      cell whose right end is left of the last forward point, not only at the breakpoints. The cell that
      ends at the last forward point is another matter: see BelowExactly. */
  lemma BelowEverywhere(fwd: seq<Point>, bwd: seq<Point>, k: nat, j: nat, s: real)
    requires Rising(fwd) && Falling(bwd) && NothingAbove(fwd, bwd) && fwd[|fwd| - 1].s <= bwd[0].s
    requires OnCell(fwd, bwd, k, j, s) && Min(fwd[k + 1].s, bwd[j].s) < fwd[|fwd| - 1].s
    ensures Interp(bwd[j + 1], bwd[j], s) <= Interp(fwd[k], fwd[k + 1], s)
  {
    hide NothingAbove, Interp;
    var l, r := Max(fwd[k].s, bwd[j + 1].s), Min(fwd[k + 1].s, bwd[j].s);
    BelowAtCellEnds(fwd, bwd, k, j);
    var m, b := InterpIsAffine(bwd[j + 1], bwd[j], s);
    var n, c := InterpIsAffine(fwd[k], fwd[k + 1], s);
    assert m * l + b == Interp(bwd[j + 1], bwd[j], l) && n * l + c == Interp(fwd[k], fwd[k + 1], l);
    assert m * r + b == Interp(bwd[j + 1], bwd[j], r) && n * r + c == Interp(fwd[k], fwd[k + 1], r);
    AffineOrder(m, b, n, c, l, r, s);
  }

  lemma BelowAtCellEnds(fwd: seq<Point>, bwd: seq<Point>, k: nat, j: nat)
    requires Rising(fwd) && Falling(bwd) && NothingAbove(fwd, bwd) && fwd[|fwd| - 1].s <= bwd[0].s
    requires k < |fwd| - 1 && j < |bwd| - 1 && Max(fwd[k].s, bwd[j + 1].s) <= Min(fwd[k + 1].s, bwd[j].s) < fwd[|fwd| - 1].s
    ensures var l := Max(fwd[k].s, bwd[j + 1].s); Interp(bwd[j + 1], bwd[j], l) <= Interp(fwd[k], fwd[k + 1], l)
    ensures var r := Min(fwd[k + 1].s, bwd[j].s); Interp(bwd[j + 1], bwd[j], r) <= Interp(fwd[k], fwd[k + 1], r)
  {
    hide NothingAbove, Interp;
    InterpAtEnds(fwd[k], fwd[k + 1]);
    InterpAtEnds(bwd[j + 1], bwd[j]);
    if bwd[j + 1].s <= fwd[k].s {
      BelowAtVertex(fwd, bwd, k, j);
    } else {
      BelowAtStep(fwd, bwd, k, j + 1);
    }
    if fwd[k + 1].s <= bwd[j].s {
      BelowAtVertex(fwd, bwd, k + 1, j);
    } else {
      BelowAtStep(fwd, bwd, k, j);
    }
  }

  // ----- the last cell -----

  /** Backward is on or below forward wherever the two overlap. */
  ghost predicate Below(fwd: seq<Point>, bwd: seq<Point>)
    requires Rising(fwd) && Falling(bwd)
  {
    forall k: nat, j: nat, s :: OnCell(fwd, bwd, k, j, s) ==> Interp(bwd[j + 1], bwd[j], s) <= Interp(fwd[k], fwd[k + 1], s)
  }

  /** Backward step j comes down past the last forward point. */
  ghost predicate PassesLast(fwd: seq<Point>, bwd: seq<Point>, j: nat)
    requires Rising(fwd)
  {
    j < |bwd| - 1 && bwd[j + 1].s < fwd[|fwd| - 1].s <= bwd[j].s
  }

  lemma BelowInLastCell(fwd: seq<Point>, bwd: seq<Point>, j: nat, s: real)
    requires Rising(fwd) && Falling(bwd) && NothingAbove(fwd, bwd) && fwd[|fwd| - 1].s <= bwd[0].s && PassesLast(fwd, bwd, j)
    requires Interp(bwd[j + 1], bwd[j], fwd[|fwd| - 1].s) <= fwd[|fwd| - 1].sDot && OnCell(fwd, bwd, |fwd| - 2, j, s)
    ensures Interp(bwd[j + 1], bwd[j], s) <= Interp(fwd[|fwd| - 2], fwd[|fwd| - 1], s)
  {
    hide NothingAbove, Interp;
    var k := |fwd| - 2;
    var l, r := Max(fwd[k].s, bwd[j + 1].s), fwd[k + 1].s;
    InterpAtEnds(fwd[k], fwd[k + 1]);
    InterpAtEnds(bwd[j + 1], bwd[j]);
    if bwd[j + 1].s <= fwd[k].s {
      BelowAtVertex(fwd, bwd, k, j);
    } else {
      BelowAtStep(fwd, bwd, k, j + 1);
    }
    var m, b := InterpIsAffine(bwd[j + 1], bwd[j], s);
    var n, c := InterpIsAffine(fwd[k], fwd[k + 1], s);
    assert m * l + b == Interp(bwd[j + 1], bwd[j], l) && n * l + c == Interp(fwd[k], fwd[k + 1], l);
    assert m * r + b == Interp(bwd[j + 1], bwd[j], r) && n * r + c == Interp(fwd[k], fwd[k + 1], r);
    AffineOrder(m, b, n, c, l, r, s);
  }

  lemma OnlyStep(fwd: seq<Point>, bwd: seq<Point>, j: nat, i: nat)
    requires Rising(fwd) && Falling(bwd) && PassesLast(fwd, bwd, j)
    requires i < |bwd| - 1 && bwd[i + 1].s <= fwd[|fwd| - 1].s <= bwd[i].s
    ensures i == j || i + 1 == j
  {
    var afterJ: nat, afterI: nat := j + 1, i + 1;
    if j < i {
      Descends(bwd, afterJ, i);
    }
    if afterI < j {
      Descends(bwd, afterI, j);
    }
  }

  lemma Descends(bwd: seq<Point>, i: nat, j: nat)
    requires Falling(bwd) && i <= j < |bwd|
    ensures bwd[j].s <= bwd[i].s && (i < j ==> bwd[j].s < bwd[i].s)
  {
  }

  /** Every overlap is a cell short of the last forward point, or part of the cell in which the pass
      comes down past it. */
  lemma BelowOnCell(fwd: seq<Point>, bwd: seq<Point>, j: nat, k: nat, i: nat, s: real)
    requires Rising(fwd) && Falling(bwd) && NothingAbove(fwd, bwd) && fwd[|fwd| - 1].s <= bwd[0].s && PassesLast(fwd, bwd, j)
    requires Interp(bwd[j + 1], bwd[j], fwd[|fwd| - 1].s) <= fwd[|fwd| - 1].sDot && OnCell(fwd, bwd, k, i, s)
    ensures Interp(bwd[i + 1], bwd[i], s) <= Interp(fwd[k], fwd[k + 1], s)
  {
    hide NothingAbove, Interp;
    if Min(fwd[k + 1].s, bwd[i].s) < fwd[|fwd| - 1].s {
      BelowEverywhere(fwd, bwd, k, i, s);
      return;
    }
    assert k == |fwd| - 2;
    OnlyStep(fwd, bwd, j, i);
    if i == j {
      BelowInLastCell(fwd, bwd, j, s);
    } else {
      assert s == bwd[j].s == fwd[k + 1].s;
      InterpAtEnds(bwd[j + 1], bwd[j]);
      InterpAtEnds(bwd[i + 1], bwd[i]);
      InterpAtEnds(fwd[k], fwd[k + 1]);
    }
  }

  /** With nothing reported, backward is on or below forward everywhere exactly when it is at the last
      forward point, where the scan does not look. */
  lemma BelowExactly(fwd: seq<Point>, bwd: seq<Point>, j: nat)
    requires Rising(fwd) && Falling(bwd) && NothingAbove(fwd, bwd) && fwd[|fwd| - 1].s <= bwd[0].s && PassesLast(fwd, bwd, j)
    ensures Below(fwd, bwd) <==> Interp(bwd[j + 1], bwd[j], fwd[|fwd| - 1].s) <= fwd[|fwd| - 1].sDot
  {
    hide NothingAbove, Interp;
    var last := |fwd| - 1;
    if Interp(bwd[j + 1], bwd[j], fwd[last].s) <= fwd[last].sDot {
      forall k: nat, i: nat, s | OnCell(fwd, bwd, k, i, s)
        ensures Interp(bwd[i + 1], bwd[i], s) <= Interp(fwd[k], fwd[k + 1], s)
      {
        BelowOnCell(fwd, bwd, j, k, i, s);
      }
    } else {
      InterpAtEnds(fwd[last - 1], fwd[last]);
      assert OnCell(fwd, bwd, last - 1, j, fwd[last].s);
    }
  }

  /** A forward step from rest, and a backward step that stores the time it takes. */
  function MissedForward(): seq<Point> {
    [Point(0.0, 0.0, 0.0, Known(1.0)), Point(2.0, 2.0, 2.0, Unset)]
  }

  function MissedBackward(): seq<Point> {
    [Point(0.0, 3.0, 5.0, Unset), Point(8.0 / 11.0, 1.0, 0.5, Known(6.1875))]
  }

  /** The crossing inside the last forward segment, below at its left and above at its right, is one the
      scan does not report. */
  lemma LastCrossingIsMissed()
    ensures var fwd, bwd := MissedForward(), MissedBackward();
            Chained(fwd) && Linked(bwd[1].(time := 0.0), bwd[0].(time := bwd[1].time)) &&
            Rising(fwd) && Falling(bwd) && NothingAbove(fwd, bwd) && !Below(fwd, bwd) &&
            Interp(bwd[1], bwd[0], 1.9) == 2.525 && Interp(fwd[0], fwd[1], 1.9) == 1.9
  {
    var fwd, bwd := MissedForward(), MissedBackward();
    assert !StepAbove(fwd, bwd[0], bwd[1]) by {
      assert Interp(fwd[0], fwd[1], 1.0) == 1.0;
    }
    assert OnCell(fwd, bwd, 0, 0, 1.9);
  }
}
