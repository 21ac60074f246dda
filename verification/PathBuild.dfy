/** Segment emission in path construction (path.cpp, `path::create`): linear segments and blend arcs
    that tile the path, join end to end, and keep their direction wherever an arc is involved. */
module PathBuild {
  import opened Reals
  import opened Vectors
  import opened Blend
  import opened Coalescing
  import PathCursor

  /** `path::segment`: a linear segment by its start, unit direction and length, or a circular one. */
  datatype Segment = Linear(start: Vec, unit: Vec, length: real) | Circular(arc: Arc)

  datatype Positioned = Positioned(seg: Segment, start: real)

  datatype Result = Err | Built(segments: seq<Positioned>, length: real)

  // ----- segments -----

  ghost predicate SegmentOk(opts: Options, dof: nat, s: Segment) {
    match s
    case Linear(start, unit, length) => |start| == |unit| == dof && 0.0 < length && Dot(unit, unit) == 1.0
    case Circular(arc) => |arc.center| == |arc.x| == |arc.y| == dof && 0.0 < arc.radius && Bends(opts, arc)
  }

  function Length(s: Segment): real {
    if s.Linear? then s.length else ArcLength(s.arc)
  }

  ghost predicate Sized(s: Segment) {
    if s.Linear? then |s.start| == |s.unit| else |s.arc.center| == |s.arc.x| == |s.arc.y| && s.arc.radius != 0.0
  }

  ghost function From(m: Maths, s: Segment): Vec
    requires Sized(s)
  {
    if s.Linear? then s.start else ArcAt(m, s.arc, 0.0)
  }

  ghost function To(m: Maths, s: Segment): Vec
    requires Sized(s)
  {
    if s.Linear? then Add(s.start, Scale(s.length, s.unit)) else ArcAt(m, s.arc, ArcLength(s.arc))
  }

  ghost function Enters(m: Maths, s: Segment): Vec
    requires Sized(s)
  {
    if s.Linear? then s.unit else ArcTangent(m, s.arc, 0.0)
  }

  ghost function Leaves(m: Maths, s: Segment): Vec
    requires Sized(s)
  {
    if s.Linear? then s.unit else ArcTangent(m, s.arc, ArcLength(s.arc))
  }

  lemma LengthOfArc(arc: Arc)
    ensures Length(Circular(arc)) == ArcLength(arc)
  {
  }

  lemma LengthIsPositive(opts: Options, dof: nat, s: Segment)
    requires SegmentOk(opts, dof, s)
    ensures 0.0 < Length(s) && Sized(s)
  {
    if s.Circular? {
      MulPos(s.arc.radius, s.arc.angle);
    }
  }

  /** One segment continues another: always in position, and in direction too when either is an arc. */
  ghost predicate Joins(m: Maths, a: Segment, b: Segment) {
    Sized(a) && Sized(b) && To(m, a) == From(m, b) &&
    (a.Circular? || b.Circular? ==> Leaves(m, a) == Enters(m, b))
  }

  // ----- a chain of segments -----

  /** The segments tile [0, length] and each continues the one before. */
  ghost predicate Chained(m: Maths, opts: Options, dof: nat, segments: seq<Positioned>, length: real) {
    (forall k :: 0 <= k < |segments| ==> SegmentOk(opts, dof, segments[k].seg)) &&
    (forall k :: 0 <= k < |segments| - 1 ==>
                   segments[k + 1].start == segments[k].start + Length(segments[k].seg) && Joins(m, segments[k].seg, segments[k + 1].seg)) &&
    (if segments == [] then length == 0.0
     else segments[0].start == 0.0 && length == segments[|segments| - 1].start + Length(segments[|segments| - 1].seg))
  }

  lemma ChainAppend(m: Maths, opts: Options, dof: nat, segments: seq<Positioned>, length: real, s: Segment)
    requires Chained(m, opts, dof, segments, length) && SegmentOk(opts, dof, s)
    requires segments != [] ==> Joins(m, segments[|segments| - 1].seg, s)
    ensures Chained(m, opts, dof, segments + [Positioned(s, length)], length + Length(s))
  {
    hide SegmentOk, Joins, Length;
  }

  /** Where construction stands: at a position on the leg that starts at waypoint `from`, a given
      distance in; an arc just emitted leaves along the leg. */
  ghost predicate Standing(m: Maths, dof: nat, segments: seq<Positioned>, current: Vec, from: Vec, unit: Vec, into: real) {
    |current| == |from| == |unit| == dof && current == Add(from, Scale(into, unit)) &&
    (segments == [] ==> into == 0.0) &&
    (segments != [] ==>
       var last := segments[|segments| - 1].seg;
       Sized(last) && To(m, last) == current && (if 0.0 < into then Leaves(m, last) == unit else last.Linear?))
  }

  /** A waypoint is the end of a segment, or within the blend deviation of an arc. */
  ghost predicate Near(m: Maths, opts: Options, segments: seq<Positioned>, w: Vec) {
    exists k :: 0 <= k < |segments| && Touches(m, opts, segments[k].seg, w)
  }

  ghost predicate Touches(m: Maths, opts: Options, s: Segment, w: Vec) {
    (s.Linear? && Sized(s) && (From(m, s) == w || To(m, s) == w)) || (s.Circular? && Deviates(m, opts, w, s.arc))
  }

  lemma NearGrows(m: Maths, opts: Options, segments: seq<Positioned>, more: Positioned, w: Vec)
    ensures Near(m, opts, segments, w) ==> Near(m, opts, segments + [more], w)
    ensures Touches(m, opts, more.seg, w) ==> Near(m, opts, segments + [more], w)
  {
    hide Touches;
    var all := segments + [more];
    if Near(m, opts, segments, w) {
      var k :| 0 <= k < |segments| && Touches(m, opts, segments[k].seg, w);
      assert all[k] == segments[k];
    }
    assert all[|segments|] == more;
  }

  // ----- what is left of a leg -----

  /** On a leg of length l, a stretch in from its start: the rest of the leg. */
  lemma RestOfLeg(m: Maths, from: Vec, to: Vec, current: Vec, into: real)
    requires Faithful(m) && |from| == |to| && 0.0 <= into < m.norm(Sub(to, from))
    requires current == Add(from, Scale(into, Normalized(m, Sub(to, from))))
    ensures |current| == |from|
    ensures m.norm(Sub(to, current)) == m.norm(Sub(to, from)) - into
    ensures Normalized(m, Sub(to, current)) == Normalized(m, Sub(to, from))
  {
    var leg := Sub(to, from);
    var unit, l := Normalized(m, leg), m.norm(Sub(to, from));
    var rest := l - into;
    var diff := Sub(to, current);
    NormalizedIsUnit(m, leg);
    RestIsScaled(m, from, to, current, unit, into, l, rest);
    hide *;
    ScaledUnit(m, unit, rest);
  }

  lemma RestIsScaled(m: Maths, from: Vec, to: Vec, current: Vec, unit: Vec, into: real, l: real, rest: real)
    requires |from| == |to| && l == m.norm(Sub(to, from)) && 0.0 < l && rest == l - into
    requires unit == Normalized(m, Sub(to, from)) && current == Add(from, Scale(into, unit))
    ensures |current| == |to| && Sub(to, current) == Scale(rest, unit)
  {
    forall i | 0 <= i < |to|
      ensures Sub(to, current)[i] == Scale(rest, unit)[i]
    {
      LegArithmetic(l, into, rest, to[i], from[i], Sub(to, from)[i], unit[i], Scale(into, unit)[i], current[i]);
    }
  }

  lemma LegArithmetic(l: real, into: real, rest: real, to: real, from: real, leg: real, unit: real, step: real, current: real)
    requires 0.0 < l && unit == (1.0 / l) * leg && leg == to - from && step == into * unit && current == from + step
    requires rest == l - into
    ensures to - current == rest * unit
  {
    assert l * (1.0 / l) == 1.0;
    assert l * unit == leg;
  }

  /** A positive multiple of a unit vector has that length and that direction. */
  lemma ScaledUnit(m: Maths, unit: Vec, x: real)
    requires Faithful(m) && 0.0 < x && Dot(unit, unit) == 1.0
    ensures m.norm(Scale(x, unit)) == x && Normalized(m, Scale(x, unit)) == unit
  {
    var v := Scale(x, unit);
    assert Dot(v, v) == x * x by {
      hide Dot;
      DotScale(x, unit, v);
      DotScale(x, unit, unit);
      DotSymmetric(unit, v);
    }
    NormIs(m, v, x);
    hide Faithful, Dot;
    forall i | 0 <= i < |v|
      ensures Normalized(m, v)[i] == unit[i]
    {
      assert (1.0 / x) * x == 1.0;
      assert (1.0 / x) * (x * unit[i]) == ((1.0 / x) * x) * unit[i];
    }
  }

  // ----- building the segments -----

  /** The path built runs from the first waypoint to the last in segments that tile its length and
      join, and it passes every waypoint within the blend deviation. */
  ghost predicate RunsThrough(m: Maths, opts: Options, ws: seq<Vec>, segments: seq<Positioned>, length: real) {
    SameDof(ws) && ws != [] && segments != [] &&
    Chained(m, opts, |ws[0]|, segments, length) &&
    Sized(segments[0].seg) && From(m, segments[0].seg) == ws[0] &&
    Sized(segments[|segments| - 1].seg) && To(m, segments[|segments| - 1].seg) == ws[|ws| - 1] &&
    forall i :: 0 <= i < |ws| ==> Near(m, opts, segments, ws[i])
  }

  /** Some trim blends the corner at waypoint i. */
  ghost predicate Blends(m: Maths, opts: Options, ws: seq<Vec>, i: nat)
    requires SameDof(ws)
  {
    0 < i && i + 1 < |ws| && exists trim :: CanTrimAt(m, opts, ws, i, trim)
  }

  ghost predicate CanTrimAt(m: Maths, opts: Options, ws: seq<Vec>, i: nat, trim: real)
    requires SameDof(ws) && 0 < i && i + 1 < |ws|
  {
    CanTrim(m, opts, ws[i - 1], ws[i], ws[i + 1], trim)
  }

  ghost predicate LargestTrimAt(m: Maths, opts: Options, ws: seq<Vec>, i: nat, trim: real)
    requires SameDof(ws) && 0 < i && i + 1 < |ws|
  {
    LargestTrim(m, opts, ws[i - 1], ws[i], ws[i + 1], trim)
  }

  /** The arc rounds the corner at waypoint i: with the largest trim there is, it meets both legs. */
  ghost predicate Rounds(m: Maths, opts: Options, ws: seq<Vec>, i: nat, arc: Arc)
    requires SameDof(ws) && 0 < i && i + 1 < |ws|
  {
    exists trim :: LargestTrimAt(m, opts, ws, i, trim) &&
                   MeetsLegs(m, ws[i], Normalized(m, Sub(ws[i], ws[i - 1])), Normalized(m, Sub(ws[i + 1], ws[i])), arc, trim)
  }

  /** The segments laid for waypoint i: where the corner can be blended, its arc, after at most one straight piece;
      and elsewhere one straight piece that stops at the waypoint. */
  ghost predicate StretchOk(m: Maths, opts: Options, ws: seq<Vec>, i: nat, stretch: seq<Positioned>)
    requires SameDof(ws)
  {
    0 < i < |ws| && 1 <= |stretch| &&
    var last := stretch[|stretch| - 1].seg;
    if Blends(m, opts, ws, i) then
      last.Circular? && Rounds(m, opts, ws, i, last.arc) && |stretch| <= 2 && (|stretch| == 2 ==> stretch[0].seg.Linear?)
    else |stretch| == 1 && last.Linear? && Sized(last) && To(m, last) == ws[i]
  }

  /** The segments are those laid for one waypoint after another. */
  ghost predicate Laid(m: Maths, opts: Options, ws: seq<Vec>, segments: seq<Positioned>, ends: seq<nat>)
    requires SameDof(ws)
  {
    1 <= |ends| <= |ws| && ends[0] == 0 && ends[|ends| - 1] == |segments| &&
    forall i :: 0 < i < |ends| ==> LaidAt(m, opts, ws, segments, ends, i)
  }

  ghost predicate LaidAt(m: Maths, opts: Options, ws: seq<Vec>, segments: seq<Positioned>, ends: seq<nat>, i: nat)
    requires SameDof(ws) && 0 < i < |ends|
  {
    ends[i - 1] <= ends[i] <= |segments| && StretchOk(m, opts, ws, i, segments[ends[i - 1]..ends[i]])
  }

  /** The path is laid for every waypoint. */
  ghost predicate LaidOut(m: Maths, opts: Options, ws: seq<Vec>, segments: seq<Positioned>)
    requires SameDof(ws)
  {
    exists ends: seq<nat> :: |ends| == |ws| && Laid(m, opts, ws, segments, ends)
  }

  lemma LayOn(m: Maths, opts: Options, ws: seq<Vec>, segments: seq<Positioned>, ends: seq<nat>, stretch: seq<Positioned>)
    requires SameDof(ws) && Laid(m, opts, ws, segments, ends) && |ends| < |ws| && StretchOk(m, opts, ws, |ends|, stretch)
    ensures Laid(m, opts, ws, segments + stretch, ends + [|segments + stretch|])
  {
    hide StretchOk;
    var all, marks := segments + stretch, ends + [|segments + stretch|];
    forall i | 0 < i < |marks|
      ensures LaidAt(m, opts, ws, all, marks, i)
    {
      if i < |ends| {
        assert LaidAt(m, opts, ws, segments, ends, i);
        assert all[ends[i - 1]..ends[i]] == segments[ends[i - 1]..ends[i]];
      } else {
        assert all[|segments|..|all|] == stretch;
      }
    }
  }

  /** What the blend function answers at a waypoint, as a stretch. */
  lemma StretchBlended(m: Maths, opts: Options, ws: seq<Vec>, i: nat, g: Geometry, stretch: seq<Positioned>)
    requires Faithful(m) && CurvatureRange(opts) && SameDof(ws) && 0 < i && i + 1 < |ws| && |ws[i - 1]| == |ws[i]| == |ws[i + 1]|
    requires TryCreateBlend(m, opts, ws[i - 1], ws[i], ws[i + 1]) == Some(g)
    requires MeetsLegs(m, ws[i], Normalized(m, Sub(ws[i], ws[i - 1])), Normalized(m, Sub(ws[i + 1], ws[i])), g.arc, g.trim)
    requires 1 <= |stretch| <= 2 && stretch[|stretch| - 1].seg == Circular(g.arc) && (|stretch| == 2 ==> stretch[0].seg.Linear?)
    ensures StretchOk(m, opts, ws, i, stretch)
  {
    hide Faithful, CurvatureRange, TryCreateBlend, CanTrim, MeetsLegs;
    BlendsExactly(m, opts, ws[i - 1], ws[i], ws[i + 1]);
    assert CanTrimAt(m, opts, ws, i, g.trim);
    assert LargestTrimAt(m, opts, ws, i, g.trim);
    assert Rounds(m, opts, ws, i, g.arc);
  }

  lemma StretchStops(m: Maths, opts: Options, ws: seq<Vec>, i: nat, s: Positioned)
    requires Faithful(m) && CurvatureRange(opts) && SameDof(ws) && 0 < i < |ws|
    requires i + 1 < |ws| ==> TryCreateBlend(m, opts, ws[i - 1], ws[i], ws[i + 1]).None?
    requires s.seg.Linear? && Sized(s.seg) && To(m, s.seg) == ws[i]
    ensures StretchOk(m, opts, ws, i, [s])
  {
    hide Faithful, CurvatureRange, TryCreateBlend, CanTrim;
    if i + 1 < |ws| {
      BlendsExactly(m, opts, ws[i - 1], ws[i], ws[i + 1]);
    }
  }

  predicate Repeats(ws: seq<Vec>) {
    exists i :: 0 <= i < |ws| - 1 && ws[i] == ws[i + 1]
  }

  /** What the loop carries from one locus to the next. */
  datatype Progress = Progress(segments: seq<Positioned>, length: real, current: Vec, takesHalf: bool)

  /** Before the loop looks at a locus: everything before the locus is on the path so far, which stops
      on the leg that leads to the locus. */
  ghost predicate Underway(m: Maths, opts: Options, ws: seq<Vec>, locus: nat, p: Progress, into: real)
    requires SameDof(ws) && 0 < locus < |ws|
  {
    var leg := Sub(ws[locus], ws[locus - 1]);
    Covers(m, opts, ws, locus, p) && OnLeg(m, leg, into, p.takesHalf) &&
    Standing(m, |ws[0]|, p.segments, p.current, ws[locus - 1], Normalized(m, leg), into)
  }

  /** The path so far starts at the first waypoint and passes everything before the locus. */
  ghost predicate Covers(m: Maths, opts: Options, ws: seq<Vec>, locus: nat, p: Progress)
    requires SameDof(ws) && 0 < locus <= |ws|
  {
    Chained(m, opts, |ws[0]|, p.segments, p.length) &&
    (p.segments == [] ==> locus == 1) &&
    (p.segments != [] ==> Sized(p.segments[0].seg) && From(m, p.segments[0].seg) == ws[0]) &&
    (p.segments != [] ==> forall i :: 0 <= i < locus ==> Near(m, opts, p.segments, ws[i]))
  }

  /** A blend at the start of the leg has taken at most half of it. */
  ghost predicate OnLeg(m: Maths, leg: Vec, into: real, takesHalf: bool) {
    0.0 <= into <= m.norm(leg) / 2.0 && (takesHalf ==> into == m.norm(leg) / 2.0)
  }

  /** A piece of a straight line: stopping short of its end. */
  lemma StraightPiece(m: Maths, current: Vec, to: Vec, unit: Vec, dist: real, short: real)
    requires Faithful(m) && |current| == |to| && dist == m.norm(Sub(to, current)) && 0.0 < dist
    requires unit == Normalized(m, Sub(to, current))
    ensures |unit| == |to| && Dot(unit, unit) == 1.0
    ensures Add(current, Scale(dist - short, unit)) == Sub(to, Scale(short, unit))
  {
    hide *;
    NormalizedIsUnit(m, Sub(to, current));
    PieceStops(m, current, to, unit, dist, short, dist - short);
  }

  lemma PieceStops(m: Maths, current: Vec, to: Vec, unit: Vec, dist: real, short: real, long: real)
    requires |current| == |to| && dist == m.norm(Sub(to, current)) && 0.0 < dist && long == dist - short
    requires unit == Normalized(m, Sub(to, current))
    ensures Add(current, Scale(long, unit)) == Sub(to, Scale(short, unit))
  {
    forall i | 0 <= i < |to|
      ensures Add(current, Scale(long, unit))[i] == Sub(to, Scale(short, unit))[i]
    {
      PieceArithmetic(dist, short, long, to[i], current[i], Sub(to, current)[i], unit[i], Scale(long, unit)[i],
                      Scale(short, unit)[i]);
    }
  }

  lemma PieceArithmetic(dist: real, short: real, long: real, to: real, current: real, leg: real, unit: real, a: real, b: real)
    requires 0.0 < dist && unit == (1.0 / dist) * leg && leg == to - current && long == dist - short
    requires a == long * unit && b == short * unit
    ensures current + a == to - b
  {
    assert dist * (1.0 / dist) == 1.0;
    assert dist * unit == leg;
  }

  lemma NoShortfall(to: Vec, unit: Vec)
    requires |to| == |unit|
    ensures Sub(to, Scale(0.0, unit)) == to && Add(to, Scale(0.0, unit)) == to
  {
  }

  lemma ZeroNorm(m: Maths, a: Vec, b: Vec)
    requires Faithful(m) && |a| == |b|
    ensures 0.0 <= m.norm(Sub(b, a)) && (m.norm(Sub(b, a)) == 0.0 <==> a == b)
  {
    var d := Sub(b, a);
    assert NormIsRoot(m, d);
    hide Faithful;
    if a == b {
      assert d == Scale(0.0, d);
      DotScale(0.0, d, d);
      SquareIsPositive(m.norm(d));
    } else {
      ChordIsPositive(a, b);
    }
  }

  /** The distance and direction left to the locus. */
  lemma LocusAhead(m: Maths, opts: Options, ws: seq<Vec>, locus: nat, p: Progress, into: real)
    requires Faithful(m) && SameDof(ws) && 0 < locus < |ws| && Underway(m, opts, ws, locus, p, into)
    ensures |p.current| == |ws[locus]| == |ws[locus - 1]|
    ensures var leg, rest := Sub(ws[locus], ws[locus - 1]), Sub(ws[locus], p.current);
            OnLeg(m, leg, into, p.takesHalf) &&
            m.norm(rest) == m.norm(leg) - into && Normalized(m, rest) == Normalized(m, leg) &&
            (m.norm(rest) <= 0.0 <==> ws[locus - 1] == ws[locus]) && 0.0 <= m.norm(rest) &&
            (m.norm(leg) <= 0.0 <==> ws[locus - 1] == ws[locus])
  {
    var leg := Sub(ws[locus], ws[locus - 1]);
    hide Dot, Covers, Faithful;
    ZeroNorm(m, ws[locus - 1], ws[locus]);
    if 0.0 < m.norm(leg) {
      RestOfLeg(m, ws[locus - 1], ws[locus], p.current, into);
    } else {
      NoShortfall(ws[locus - 1], Normalized(m, leg));
    }
  }

  lemma StartTouches(m: Maths, opts: Options, s: Segment, w: Vec)
    ensures s.Linear? && Sized(s) && From(m, s) == w ==> Touches(m, opts, s, w)
  {
  }

  /** A new segment that joins the path so far keeps covering the same waypoints. */
  lemma CoversMore(m: Maths, opts: Options, ws: seq<Vec>, locus: nat, p: Progress, s: Segment, next: Progress)
    requires SameDof(ws) && 0 < locus < |ws| && Covers(m, opts, ws, locus, p) && SegmentOk(opts, |ws[0]|, s) && Sized(s)
    requires if p.segments == [] then From(m, s) == ws[0] && s.Linear? else Joins(m, p.segments[|p.segments| - 1].seg, s)
    requires next.segments == p.segments + [Positioned(s, p.length)] && next.length == p.length + Length(s)
    ensures Covers(m, opts, ws, locus, next)
    ensures Touches(m, opts, s, ws[locus]) ==> Covers(m, opts, ws, locus + 1, next)
  {
    var more := Positioned(s, p.length);
    hide Dot, Chained, Near, Touches, Joins, SegmentOk, Sized, From, To, Enters, Leaves, Length;
    ChainAppend(m, opts, |ws[0]|, p.segments, p.length, s);
    StartTouches(m, opts, s, ws[0]);
    NearGrows(m, opts, p.segments, more, ws[locus]);
    forall i | 0 <= i < locus
      ensures Near(m, opts, next.segments, ws[i])
    {
      NearGrows(m, opts, p.segments, more, ws[i]);
    }
  }

  /** A straight segment emitted from the current position, stopping short of the locus, joins the
      path so far. */
  lemma StraightJoins(m: Maths, opts: Options, ws: seq<Vec>, locus: nat, p: Progress, into: real, s: Segment, short: real, next: Progress)
    requires Faithful(m) && SameDof(ws) && 0 < locus < |ws| && Underway(m, opts, ws, locus, p, into)
    requires |p.current| == |ws[locus]| && 0.0 <= short < m.norm(Sub(ws[locus], p.current))
    requires s == Linear(p.current, Normalized(m, Sub(ws[locus], p.current)), m.norm(Sub(ws[locus], p.current)) - short)
    requires next.segments == p.segments + [Positioned(s, p.length)] && next.length == p.length + s.length
    ensures Sized(s) && |s.unit| == |ws[locus]| && To(m, s) == Sub(ws[locus], Scale(short, s.unit))
    ensures s.unit == Normalized(m, Sub(ws[locus], ws[locus - 1]))
    ensures Covers(m, opts, ws, locus, next)
    ensures short == 0.0 ==> To(m, s) == ws[locus] && Covers(m, opts, ws, locus + 1, next)
  {
    hide *;
    StraightIsOk(m, opts, ws, locus, p, into, s, short);
    CoversMore(m, opts, ws, locus, p, s, next);
  }

  lemma StraightIsOk(m: Maths, opts: Options, ws: seq<Vec>, locus: nat, p: Progress, into: real, s: Segment, short: real)
    requires Faithful(m) && SameDof(ws) && 0 < locus < |ws| && Underway(m, opts, ws, locus, p, into)
    requires |p.current| == |ws[locus]| && 0.0 <= short < m.norm(Sub(ws[locus], p.current))
    requires s == Linear(p.current, Normalized(m, Sub(ws[locus], p.current)), m.norm(Sub(ws[locus], p.current)) - short)
    ensures Sized(s) && |s.unit| == |ws[locus]| && To(m, s) == Sub(ws[locus], Scale(short, s.unit))
    ensures s.unit == Normalized(m, Sub(ws[locus], ws[locus - 1])) && Length(s) == s.length
    ensures Covers(m, opts, ws, locus, p) && SegmentOk(opts, |ws[0]|, s)
    ensures if p.segments == [] then From(m, s) == ws[0] && s.Linear? else Joins(m, p.segments[|p.segments| - 1].seg, s)
    ensures short == 0.0 ==> To(m, s) == ws[locus] && Touches(m, opts, s, ws[locus])
  {
    hide *;
    LocusAhead(m, opts, ws, locus, p, into);
    StraightPiece(m, p.current, ws[locus], s.unit, m.norm(Sub(ws[locus], p.current)), short);
    NoShortfall(ws[locus], s.unit);
    UnderwayParts(m, opts, ws, locus, p, into);
    StraightFold(m, opts, |ws[0]|, s, ws[locus], short);
    StraightContinues(m, |ws[0]|, p, ws[locus - 1], into, s);
  }

  lemma UnderwayParts(m: Maths, opts: Options, ws: seq<Vec>, locus: nat, p: Progress, into: real)
    requires SameDof(ws) && 0 < locus < |ws| && Underway(m, opts, ws, locus, p, into)
    ensures |ws[locus]| == |ws[locus - 1]| == |ws[0]| && Covers(m, opts, ws, locus, p) && (p.segments == [] ==> locus == 1)
    ensures Standing(m, |ws[0]|, p.segments, p.current, ws[locus - 1], Normalized(m, Sub(ws[locus], ws[locus - 1])), into)
  {
    hide Chained, Near;
  }

  lemma StraightFold(m: Maths, opts: Options, dof: nat, s: Segment, to: Vec, short: real)
    requires s.Linear? && |s.start| == |s.unit| == |to| == dof && 0.0 < s.length && Dot(s.unit, s.unit) == 1.0
    requires Add(s.start, Scale(s.length, s.unit)) == Sub(to, Scale(short, s.unit))
    requires short == 0.0 ==> Sub(to, Scale(short, s.unit)) == to
    ensures Sized(s) && SegmentOk(opts, dof, s) && Length(s) == s.length && To(m, s) == Sub(to, Scale(short, s.unit))
    ensures short == 0.0 ==> To(m, s) == to && Touches(m, opts, s, to)
  {
    hide Dot;
  }

  lemma StraightContinues(m: Maths, dof: nat, p: Progress, from: Vec, into: real, s: Segment)
    requires s.Linear? && Sized(s) && s.start == p.current && Standing(m, dof, p.segments, p.current, from, s.unit, into)
    ensures if p.segments == [] then From(m, s) == from else Joins(m, p.segments[|p.segments| - 1].seg, s)
  {
    hide Dot;
    NoShortfall(from, s.unit);
  }

  /** A straight segment to the locus itself. */
  lemma StopsAtLocus(m: Maths, opts: Options, ws: seq<Vec>, locus: nat, p: Progress, into: real, s: Segment, next: Progress)
    requires Faithful(m) && SameDof(ws) && 0 < locus < |ws| && Underway(m, opts, ws, locus, p, into)
    requires |p.current| == |ws[locus]| && 0.0 < m.norm(Sub(ws[locus], p.current))
    requires s == Linear(p.current, Normalized(m, Sub(ws[locus], p.current)), m.norm(Sub(ws[locus], p.current)))
    requires next == Progress(p.segments + [Positioned(s, p.length)], p.length + s.length, ws[locus], false)
    ensures Sized(s) && To(m, s) == ws[locus]
    ensures locus + 1 < |ws| ==> Underway(m, opts, ws, locus + 1, next, 0.0)
    ensures locus + 1 == |ws| ==> RunsThrough(m, opts, ws, next.segments, next.length)
  {
    hide *;
    StraightJoins(m, opts, ws, locus, p, into, s, 0.0, next);
    if locus + 1 < |ws| {
      Rested(m, opts, ws, locus, s, next);
    } else {
      Finished(m, opts, ws, s, next);
    }
  }

  lemma Rested(m: Maths, opts: Options, ws: seq<Vec>, locus: nat, s: Segment, next: Progress)
    requires Faithful(m) && SameDof(ws) && 0 < locus && locus + 1 < |ws| && Covers(m, opts, ws, locus + 1, next)
    requires next.segments != [] && next.segments[|next.segments| - 1].seg == s && s.Linear? && Sized(s) && To(m, s) == ws[locus]
    requires next.current == ws[locus] && !next.takesHalf
    ensures Underway(m, opts, ws, locus + 1, next, 0.0)
  {
    hide Faithful, Covers, Dot;
    ZeroNorm(m, ws[locus], ws[locus + 1]);
    NoShortfall(ws[locus], Normalized(m, Sub(ws[locus + 1], ws[locus])));
  }

  lemma Finished(m: Maths, opts: Options, ws: seq<Vec>, s: Segment, next: Progress)
    requires SameDof(ws) && |ws| >= 2 && Covers(m, opts, ws, |ws|, next)
    requires next.segments != [] && next.segments[|next.segments| - 1].seg == s && Sized(s) && To(m, s) == ws[|ws| - 1]
    ensures RunsThrough(m, opts, ws, next.segments, next.length)
  {
    hide Chained, Near, Dot;
  }

  /** Ready for an arc: the path so far stops a trim short of the corner, along the incoming leg. */
  ghost predicate Ready(m: Maths, opts: Options, ws: seq<Vec>, locus: nat, p: Progress, trim: real)
    requires SameDof(ws) && 0 < locus < |ws|
  {
    var u := Normalized(m, Sub(ws[locus], ws[locus - 1]));
    Covers(m, opts, ws, locus, p) && p.segments != [] &&
    var last := p.segments[|p.segments| - 1].seg;
    Sized(last) && To(m, last) == Sub(ws[locus], Scale(trim, u)) && Leaves(m, last) == u
  }

  lemma ReadyAfterStraight(m: Maths, opts: Options, ws: seq<Vec>, locus: nat, p: Progress, into: real, s: Segment, trim: real, next: Progress)
    requires Faithful(m) && SameDof(ws) && 0 < locus < |ws| && Underway(m, opts, ws, locus, p, into)
    requires |p.current| == |ws[locus]| && 0.0 <= trim < m.norm(Sub(ws[locus], p.current))
    requires s == Linear(p.current, Normalized(m, Sub(ws[locus], p.current)), m.norm(Sub(ws[locus], p.current)) - trim)
    requires next.segments == p.segments + [Positioned(s, p.length)] && next.length == p.length + s.length
    ensures Ready(m, opts, ws, locus, next, trim)
  {
    hide Underway, Covers, Faithful, Dot, Normalized;
    StraightJoins(m, opts, ws, locus, p, into, s, trim, next);
  }

  /** When the blends at both ends of a leg use it up, the previous arc already stops where the next
      one starts. */
  lemma ReadyAtOnce(m: Maths, opts: Options, ws: seq<Vec>, locus: nat, p: Progress, into: real, trim: real)
    requires Faithful(m) && SameDof(ws) && 0 < locus < |ws| && |ws[locus]| == |ws[locus - 1]| && Underway(m, opts, ws, locus, p, into)
    requires var l := m.norm(Sub(ws[locus], ws[locus - 1])); 0.0 < trim <= l / 2.0 && l - into - trim <= 0.0
    ensures Ready(m, opts, ws, locus, p, trim)
  {
    hide Faithful, Covers, Dot, Normalized;
    LocusAhead(m, opts, ws, locus, p, into);
    var unit := Normalized(m, Sub(ws[locus], ws[locus - 1]));
    assert m.norm(Sub(ws[locus], p.current)) == trim;
    StraightPiece(m, p.current, ws[locus], unit, trim, trim);
    assert trim - trim == 0.0;
    NoShortfall(p.current, unit);
  }

  /** The arc of a blend continues the path. */
  lemma ArcJoins(m: Maths, opts: Options, ws: seq<Vec>, locus: nat, p: Progress, g: Geometry, next: Progress)
    requires Faithful(m) && SameDof(ws) && 0 < locus && locus + 1 < |ws| && |ws[locus - 1]| == |ws[locus]| == |ws[locus + 1]|
    requires Ready(m, opts, ws, locus, p, g.trim)
    requires var u, w := Normalized(m, Sub(ws[locus], ws[locus - 1])), Normalized(m, Sub(ws[locus + 1], ws[locus]));
             MeetsLegs(m, ws[locus], u, w, g.arc, g.trim) && Bends(opts, g.arc) && Deviates(m, opts, ws[locus], g.arc)
    requires OnLeg(m, Sub(ws[locus + 1], ws[locus]), g.trim, g.takesHalfOutgoing) && 0.0 < g.trim
    requires next.segments == p.segments + [Positioned(Circular(g.arc), p.length)]
    requires next.length == p.length + Length(Circular(g.arc)) && next.takesHalf == g.takesHalfOutgoing
    requires next.current == Add(ws[locus], Scale(g.trim, Normalized(m, Sub(ws[locus + 1], ws[locus]))))
    ensures Underway(m, opts, ws, locus + 1, next, g.trim)
  {
    var s := Circular(g.arc);
    var u, w := Normalized(m, Sub(ws[locus], ws[locus - 1])), Normalized(m, Sub(ws[locus + 1], ws[locus]));
    hide *;
    ReadyJoins(m, opts, ws, locus, p, u, w, g);
    ArcIsOk(m, opts, ws, locus, u, w, g);
    CoversMore(m, opts, ws, locus, p, s, next);
    ArcStands(m, |ws[0]|, next.segments, next.current, ws[locus], u, w, g);
    UnderwayFold(m, opts, ws, locus + 1, next, g.trim);
  }

  lemma ReadyJoins(m: Maths, opts: Options, ws: seq<Vec>, locus: nat, p: Progress, u: Vec, w: Vec, g: Geometry)
    requires SameDof(ws) && 0 < locus < |ws| && Ready(m, opts, ws, locus, p, g.trim)
    requires u == Normalized(m, Sub(ws[locus], ws[locus - 1])) && MeetsLegs(m, ws[locus], u, w, g.arc, g.trim)
    ensures Covers(m, opts, ws, locus, p) && p.segments != [] && Sized(Circular(g.arc)) && |w| == |ws[0]|
    ensures Joins(m, p.segments[|p.segments| - 1].seg, Circular(g.arc))
  {
    hide Dot, Covers, Normalized, ArcAt, ArcTangent;
  }

  lemma ArcStands(m: Maths, dof: nat, segments: seq<Positioned>, current: Vec, corner: Vec, u: Vec, w: Vec, g: Geometry)
    requires MeetsLegs(m, corner, u, w, g.arc, g.trim) && 0.0 < g.trim && |w| == dof
    requires segments != [] && segments[|segments| - 1].seg == Circular(g.arc)
    requires |w| == |corner| && current == Add(corner, Scale(g.trim, w))
    ensures Standing(m, dof, segments, current, corner, w, g.trim)
  {
    hide Dot, Around, Heading, ArcLength;
  }

  lemma UnderwayFold(m: Maths, opts: Options, ws: seq<Vec>, locus: nat, p: Progress, into: real)
    requires SameDof(ws) && 0 < locus < |ws| && |ws[locus]| == |ws[locus - 1]| && Covers(m, opts, ws, locus, p)
    requires OnLeg(m, Sub(ws[locus], ws[locus - 1]), into, p.takesHalf)
    requires Standing(m, |ws[0]|, p.segments, p.current, ws[locus - 1], Normalized(m, Sub(ws[locus], ws[locus - 1])), into)
    ensures Underway(m, opts, ws, locus, p, into)
  {
  }

  lemma ArcIsOk(m: Maths, opts: Options, ws: seq<Vec>, locus: nat, u: Vec, w: Vec, g: Geometry)
    requires SameDof(ws) && 0 < locus && locus + 1 < |ws|
    requires MeetsLegs(m, ws[locus], u, w, g.arc, g.trim) && Bends(opts, g.arc) && Deviates(m, opts, ws[locus], g.arc)
    ensures SegmentOk(opts, |ws[0]|, Circular(g.arc)) && Touches(m, opts, Circular(g.arc), ws[locus])
  {
    hide Dot, Bends, Deviates, ArcAt, ArcTangent;
  }

  lemma Departs(m: Maths, opts: Options, ws: seq<Vec>)
    requires Faithful(m) && SameDof(ws) && |ws| >= 2
    ensures Underway(m, opts, ws, 1, Progress([], 0.0, ws[0], false), 0.0)
  {
    ZeroNorm(m, ws[0], ws[1]);
    NoShortfall(ws[0], Normalized(m, Sub(ws[1], ws[0])));
  }

  /** One corner: the straight piece before the blend, if anything of the leg is left, and its arc. */
  method EmitBlend(m: Maths, opts: Options, ws: seq<Vec>, locus: nat, p: Progress, ghost into: real, g: Geometry) returns (next: Progress)
    requires Faithful(m) && CurvatureRange(opts) && SameDof(ws) && 0 < locus && locus + 1 < |ws|
    requires |ws[locus - 1]| == |ws[locus]| == |ws[locus + 1]| && Underway(m, opts, ws, locus, p, into)
    requires TryCreateBlend(m, opts, ws[locus - 1], ws[locus], ws[locus + 1]) == Some(g)
    ensures 0.0 < g.trim && Underway(m, opts, ws, locus + 1, next, g.trim)
    ensures |p.segments| <= |next.segments| && next.segments == p.segments + next.segments[|p.segments|..]
    ensures StretchOk(m, opts, ws, locus, next.segments[|p.segments|..])
  {
    hide *;
    BlendFits(m, opts, ws, locus);
    LocusAhead(m, opts, ws, locus, p, into);
    Halves(m, opts, ws, locus, into, p.takesHalf, g);
    var incoming := Sub(ws[locus], p.current);
    var dist, unit := m.norm(incoming), Normalized(m, incoming);
    var fullyConsumed := p.takesHalf && g.takesHalfIncoming;
    var incomingLength := dist - g.trim;
    next := p;
    if !fullyConsumed && 0.0 < incomingLength {
      var s := Linear(p.current, unit, incomingLength);
      next := next.(segments := p.segments + [Positioned(s, p.length)], length := p.length + incomingLength);
      ReadyAfterStraight(m, opts, ws, locus, p, into, s, g.trim, next);
    } else {
      ReadyAtOnce(m, opts, ws, locus, p, into, g.trim);
    }
    var exit := Add(ws[locus], Scale(g.trim, Normalized(m, Sub(ws[locus + 1], ws[locus]))));
    ghost var ready := next;
    next := Progress(next.segments + [Positioned(Circular(g.arc), next.length)], next.length + ArcLength(g.arc), exit, g.takesHalfOutgoing);
    assert ArcLength(g.arc) == Length(Circular(g.arc)) by { LengthOfArc(g.arc); }
    ArcJoins(m, opts, ws, locus, ready, g, next);
    StretchBlended(m, opts, ws, locus, g, next.segments[|p.segments|..]);
  }

  lemma Halves(m: Maths, opts: Options, ws: seq<Vec>, locus: nat, into: real, takesHalf: bool, g: Geometry)
    requires 0 < locus && locus + 1 < |ws| && |ws[locus - 1]| == |ws[locus]| == |ws[locus + 1]|
    requires OnLeg(m, Sub(ws[locus], ws[locus - 1]), into, takesHalf)
    requires g.takesHalfOutgoing <==> g.trim == m.norm(Sub(ws[locus + 1], ws[locus])) / 2.0
    requires g.takesHalfIncoming <==> g.trim == m.norm(Sub(ws[locus], ws[locus - 1])) / 2.0
    requires 0.0 < g.trim && g.trim <= m.norm(Sub(ws[locus + 1], ws[locus])) / 2.0
    ensures OnLeg(m, Sub(ws[locus + 1], ws[locus]), g.trim, g.takesHalfOutgoing)
    ensures takesHalf && g.takesHalfIncoming ==> m.norm(Sub(ws[locus], ws[locus - 1])) - into - g.trim == 0.0
  {
  }

  /** `path::create`'s loop over the coalesced waypoints. It fails exactly when two neighbours are
      equal, and otherwise builds a path that runs through them all. */
  method BuildSegments(m: Maths, opts: Options, ws: seq<Vec>) returns (result: Result)
    requires Faithful(m) && CurvatureRange(opts) && SameDof(ws) && |ws| >= 2
    ensures result.Err? <==> Repeats(ws)
    ensures result.Built? ==> RunsThrough(m, opts, ws, result.segments, result.length) && LaidOut(m, opts, ws, result.segments)
  {
    hide *;
    var p := Progress([], 0.0, ws[0], false);
    ghost var into := 0.0;
    ghost var ends: seq<nat> := [0];
    NothingLaid(m, opts, ws);
    Departs(m, opts, ws);
    var locus := 1;
    while locus < |ws|
      invariant 0 < locus <= |ws|
      invariant locus < |ws| ==> Underway(m, opts, ws, locus, p, into)
      invariant locus == |ws| ==> RunsThrough(m, opts, ws, p.segments, p.length)
      invariant forall i :: 0 <= i < locus - 1 ==> ws[i] != ws[i + 1]
      invariant |ends| == locus && Laid(m, opts, ws, p.segments, ends)
    {
      LocusAhead(m, opts, ws, locus, p, into);
      var blend := None;
      if locus + 1 < |ws| {
        BlendFits(m, opts, ws, locus);
        blend := TryCreateBlend(m, opts, ws[locus - 1], ws[locus], ws[locus + 1]);
      }
      if blend.Some? {
        ghost var before := p.segments;
        p := EmitBlend(m, opts, ws, locus, p, into, blend.value);
        LayOn(m, opts, ws, before, ends, p.segments[|before|..]);
        into := blend.value.trim;
      } else {
        var rest := Sub(ws[locus], p.current);
        if m.norm(rest) == 0.0 {
          RepeatsAt(ws, locus - 1);
          return Err;
        }
        var s := Linear(p.current, Normalized(m, rest), m.norm(rest));
        var next := Progress(p.segments + [Positioned(s, p.length)], p.length + s.length, ws[locus], false);
        StopsAtLocus(m, opts, ws, locus, p, into, s, next);
        StretchStops(m, opts, ws, locus, Positioned(s, p.length));
        LayOn(m, opts, ws, p.segments, ends, [Positioned(s, p.length)]);
        p := next;
        into := 0.0;
      }
      ends := ends + [|p.segments|];
      locus := locus + 1;
    }
    NeverRepeats(ws);
    AllLaid(m, opts, ws, p.segments, ends);
    return Built(p.segments, p.length);
  }

  /** What a blend at the locus promises, in terms of the waypoints around it. */
  lemma BlendFits(m: Maths, opts: Options, ws: seq<Vec>, locus: nat)
    requires Faithful(m) && CurvatureRange(opts) && SameDof(ws) && 0 < locus && locus + 1 < |ws|
    ensures |ws[locus - 1]| == |ws[locus]| == |ws[locus + 1]|
    ensures var blend := TryCreateBlend(m, opts, ws[locus - 1], ws[locus], ws[locus + 1]);
            var incoming, outgoing := Sub(ws[locus], ws[locus - 1]), Sub(ws[locus + 1], ws[locus]);
            blend.Some? ==>
              var g := blend.value;
              0.0 < g.trim && g.trim <= m.norm(incoming) / 2.0 && g.trim <= m.norm(outgoing) / 2.0 &&
              (g.takesHalfIncoming <==> g.trim == m.norm(incoming) / 2.0) &&
              (g.takesHalfOutgoing <==> g.trim == m.norm(outgoing) / 2.0) &&
              MeetsLegs(m, ws[locus], Normalized(m, incoming), Normalized(m, outgoing), g.arc, g.trim) &&
              Bends(opts, g.arc) && Deviates(m, opts, ws[locus], g.arc)
  {
    hide Faithful, CurvatureRange, TryCreateBlend, MeetsLegs, Bends, Deviates, Dot, Normalized;
    BlendRoundsCorner(m, opts, ws[locus - 1], ws[locus], ws[locus + 1]);
    BlendFlags(m, opts, ws[locus - 1], ws[locus], ws[locus + 1]);
  }

  lemma NothingLaid(m: Maths, opts: Options, ws: seq<Vec>)
    requires SameDof(ws) && ws != []
    ensures Laid(m, opts, ws, [], [0])
  {
  }

  lemma AllLaid(m: Maths, opts: Options, ws: seq<Vec>, segments: seq<Positioned>, ends: seq<nat>)
    requires SameDof(ws) && |ends| == |ws| && Laid(m, opts, ws, segments, ends)
    ensures LaidOut(m, opts, ws, segments)
  {
    hide Laid;
  }

  lemma RepeatsAt(ws: seq<Vec>, i: nat)
    requires i + 1 < |ws| && ws[i] == ws[i + 1]
    ensures Repeats(ws)
  {
  }

  lemma NeverRepeats(ws: seq<Vec>)
    requires forall i :: 0 <= i < |ws| - 1 ==> ws[i] != ws[i + 1]
    ensures !Repeats(ws)
  {
  }

  function Starts(segments: seq<Positioned>): (r: seq<real>)
    ensures |r| == |segments| && forall k :: 0 <= k < |r| ==> r[k] == segments[k].start
  {
    seq(|segments|, k requires 0 <= k < |segments| => segments[k].start)
  }

  /** Segments emitted have positive length, so their starts increase. */
  lemma {:induction false} StartsIncrease(m: Maths, opts: Options, dof: nat, segments: seq<Positioned>, length: real, i: nat, j: nat)
    requires Chained(m, opts, dof, segments, length) && i < j < |segments|
    ensures segments[i].start < segments[j].start
    decreases j
  {
    hide Length, Joins, SegmentOk;
    LengthIsPositive(opts, dof, segments[j - 1].seg);
    assert segments[j - 1 + 1] == segments[j];
    if i < j - 1 {
      StartsIncrease(m, opts, dof, segments, length, i, j - 1);
    }
  }

  /** So a path that was built is one the path cursors are proved right for. */
  lemma BuiltHasSpans(m: Maths, opts: Options, ws: seq<Vec>, segments: seq<Positioned>, length: real)
    requires RunsThrough(m, opts, ws, segments, length)
    ensures PathCursor.Spans(Starts(segments), length).Valid()
  {
    hide Length, Joins, SegmentOk, Near;
    var starts := Starts(segments);
    forall i, j | 0 <= i < j < |starts|
      ensures starts[i] < starts[j]
    {
      StartsIncrease(m, opts, |ws[0]|, segments, length, i, j);
    }
    LengthIsPositive(opts, |ws[0]|, segments[|segments| - 1].seg);
  }

  // ----- path creation -----

  predicate ValidOptions(opts: Options) {
    0.0 <= opts.maxBlendDeviation && 0.0 <= opts.maxLinearDeviation &&
    0.0 < opts.minBlendCurvature && 0.0 <= opts.maxBlendCurvature && opts.minBlendCurvature <= opts.maxBlendCurvature
  }

  /** The kept waypoints run from the first to the last, and each one dropped is in the tube around the
      chord between its kept neighbours; a deviation of zero keeps them all. */
  ghost predicate Tubed(ws: seq<Vec>, kept: seq<nat>, maxLinearDeviation: real)
    requires SameDof(ws)
  {
    |kept| >= 2 && kept[0] == 0 && kept[|kept| - 1] == |ws| - 1 &&
    (forall k :: 0 <= k < |kept| ==> kept[k] < |ws|) &&
    forall k :: 0 <= k < |kept| - 1 ==>
                  kept[k] < kept[k + 1] && Covered(ws, kept[k], kept[k + 1], maxLinearDeviation / 2.0)
  }

  function AllIndices(n: nat): (r: seq<nat>)
    ensures |r| == n && forall k :: 0 <= k < n ==> r[k] == k
  {
    seq(n, k requires 0 <= k => k)
  }

  /** A deviation of zero keeps every waypoint, and any other keeps as few as the greedy rule does. */
  ghost predicate Coalesced(ws: seq<Vec>, kept: seq<nat>, maxLinearDeviation: real)
    requires SameDof(ws)
  {
    if maxLinearDeviation == 0.0 then kept == AllIndices(|ws|) else Greedy(ws, kept, 0, maxLinearDeviation / 2.0)
  }

  lemma AllAreTubed(ws: seq<Vec>, maxLinearDeviation: real)
    requires SameDof(ws) && |ws| >= 2
    ensures maxLinearDeviation == 0.0 ==> Coalesced(ws, AllIndices(|ws|), maxLinearDeviation)
    ensures Tubed(ws, AllIndices(|ws|), maxLinearDeviation) && Pick(ws, AllIndices(|ws|)) == ws
  {
  }

  lemma KeptAreTubed(ws: seq<Vec>, maxLinearDeviation: real)
    requires SameDof(ws) && |ws| >= 2
    ensures Tubed(ws, Kept(ws, 0, maxLinearDeviation / 2.0), maxLinearDeviation)
    ensures maxLinearDeviation != 0.0 ==> Coalesced(ws, Kept(ws, 0, maxLinearDeviation / 2.0), maxLinearDeviation)
  {
    hide InTube, Extends, Reach, Greedy;
    KeptIsGreedy(ws, 0, maxLinearDeviation / 2.0, Kept(ws, 0, maxLinearDeviation / 2.0));
    KeptCovers(ws, 0, maxLinearDeviation / 2.0);
  }

  lemma PickedDof(ws: seq<Vec>, kept: seq<nat>)
    requires SameDof(ws) && forall k :: 0 <= k < |kept| ==> kept[k] < |ws|
    ensures SameDof(Pick(ws, kept))
  {
  }

  /** The coalesced waypoints, and which they are. */
  method Coalesce(ws: seq<Vec>, maxLinearDeviation: real) returns (colinearized: seq<Vec>, ghost kept: seq<nat>)
    requires SameDof(ws) && |ws| >= 2 && 0.0 <= maxLinearDeviation
    ensures |kept| >= 2 && (forall k :: 0 <= k < |kept| ==> kept[k] < |ws|) && colinearized == Pick(ws, kept)
    ensures Tubed(ws, kept, maxLinearDeviation) && Coalesced(ws, kept, maxLinearDeviation)
  {
    hide *;
    colinearized := CoalesceScan(ws, maxLinearDeviation);
    if maxLinearDeviation == 0.0 {
      kept := AllIndices(|ws|);
      AllAreTubed(ws, maxLinearDeviation);
    } else {
      kept := Kept(ws, 0, maxLinearDeviation / 2.0);
      KeptAreTubed(ws, maxLinearDeviation);
    }
    TubedSize(ws, kept, maxLinearDeviation);
  }

  /** `path::create`. Every waypoint given is either passed within the blend deviation, or was dropped
      inside the tube around the chord between two waypoints that are. */
  method CreatePath(m: Maths, opts: Options, ws: seq<Vec>) returns (result: Result, ghost kept: seq<nat>)
    requires Faithful(m) && SameDof(ws)
    ensures |ws| < 2 || !ValidOptions(opts) ==> result.Err?
    ensures |ws| >= 2 && ValidOptions(opts) ==>
              Tubed(ws, kept, opts.maxLinearDeviation) && Coalesced(ws, kept, opts.maxLinearDeviation) &&
              (result.Err? <==> Repeats(Pick(ws, kept))) &&
              (result.Built? ==>
                 RunsThrough(m, opts, Pick(ws, kept), result.segments, result.length) && LaidOut(m, opts, Pick(ws, kept), result.segments))
  {
    kept := [];
    if |ws| < 2 || opts.maxBlendDeviation < 0.0 || opts.maxLinearDeviation < 0.0 || opts.minBlendCurvature <= 0.0 ||
       opts.maxBlendCurvature < 0.0 || opts.maxBlendCurvature < opts.minBlendCurvature {
      return Err, kept;
    }
    assert ValidOptions(opts) && CurvatureRange(opts);
    hide *;
    var colinearized;
    colinearized, kept := Coalesce(ws, opts.maxLinearDeviation);
    PickedDof(ws, kept);
    result := BuildSegments(m, opts, colinearized);
  }

  lemma TubedSize(ws: seq<Vec>, kept: seq<nat>, maxLinearDeviation: real)
    requires SameDof(ws) && Tubed(ws, kept, maxLinearDeviation)
    ensures |kept| >= 2 && forall k :: 0 <= k < |kept| ==> kept[k] < |ws|
  {
  }
}
