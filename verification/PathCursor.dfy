/** Cursors over a path's segments (path.cpp): lookup by arc length, the hinted cursor, and the rich
    cursor that caches geometry. Segments have positive length, so their starts increase. */
module PathCursor {
  import opened Reals
  import opened Search

  /** A path as the cursors see it: where each segment starts, and the total length. */
  datatype Spans = Spans(starts: seq<real>, length: real) {
    ghost predicate Valid() {
      starts != [] && Increasing(starts) && starts[0] == 0.0 && starts[|starts| - 1] < length
    }

    function End(i: nat): real
      requires i < |starts|
    {
      if i + 1 < |starts| then starts[i + 1] else length
    }
  }

  datatype Lookup = Segment(index: nat) | PastEnd | BeforeStart

  /** `path::operator()`: the segment holding an arc length, or the error it throws. */
  function Find(path: Spans, s: real): Lookup {
    if s > path.length then PastEnd
    else
      var it := UpperBound(path.starts, s);
      if it == 0 then BeforeStart else Segment(it - 1)
  }

  /** Every arc length on the path lies in exactly one segment's half-open span, except the path's
      end, which belongs to the last segment; and that is the segment the lookup finds. */
  lemma FindIsTheSpan(path: Spans, i: nat, s: real)
    requires path.Valid() && i < |path.starts|
    ensures 0.0 <= s <= path.length ==> Find(path, s).Segment? && Find(path, s).index < |path.starts|
    ensures Find(path, s) == Segment(i) <==>
            path.starts[i] <= s && (s < path.End(i) || (i == |path.starts| - 1 && s == path.length))
  {
    HoldsIsUpperBound(path.starts, i, s);
    var n := UpperBound(path.starts, s);
    if n == 0 {
      assert s < path.starts[0];
    }
    if i + 1 < |path.starts| && s < path.starts[i + 1] {
      assert i + 1 < |path.starts| - 1 ==> path.starts[i + 1] < path.starts[|path.starts| - 1];
    }
  }

  /** A cursor position; the two sentinels are the source's infinities. */
  datatype Position = At(s: real) | MinusInfinity | PlusInfinity

  function SoughtPosition(path: Spans, s: real): Position {
    if s < 0.0 then MinusInfinity else if s > path.length then PlusInfinity else At(s)
  }

  class Cursor {
    const path: Spans
    var position: Position
    var hint: nat

    /** On the path, the hint is the segment the lookup finds. */
    ghost predicate Valid()
      reads this
    {
      path.Valid() && hint < |path.starts| &&
      (position.At? ==> 0.0 <= position.s <= path.length && Find(path, position.s) == Segment(hint))
    }

    constructor (path: Spans, s: real)
      requires path.Valid()
      ensures Valid() && this.path == path && position == At(Max(0.0, Min(s, path.length)))
    {
      this.path := path;
      position, hint := At(Max(0.0, Min(s, path.length))), 0;
      new;
      UpdateHint();
    }

    method Seek(s: real)
      requires Valid()
      modifies this
      ensures Valid() && position == SoughtPosition(path, s)
      ensures position == old(position) ==> hint == old(hint)
    {
      if s < 0.0 {
        position := MinusInfinity;
      } else if s > path.length {
        position := PlusInfinity;
      } else {
        position := At(s);
      }
      if position.At? {
        UpdateHint();
      }
    }

    /** `seek_by`: from a sentinel every finite step stays there. */
    method SeekBy(delta: real)
      requires Valid()
      modifies this
      ensures Valid()
      ensures position == if old(position).At? then SoughtPosition(path, old(position).s + delta) else old(position)
    {
      if position.At? {
        Seek(position.s + delta);
      }
    }

    /** Whatever the hint was, it ends on the segment the lookup finds. */
    method UpdateHint()
      requires path.Valid() && hint < |path.starts| && position.At? && 0.0 <= position.s <= path.length
      modifies `hint
      ensures Valid()
      ensures Find(path, position.s) == Segment(old(hint)) ==> hint == old(hint)
    {
      hide UpperBound, Find, Increasing;
      var s, starts := position.s, path.starts;
      FindIsTheSpan(path, hint, s);
      // Still within the current segment.
      if starts[hint] <= s < path.End(hint) {
        return;
      }
      // Exactly on its end.
      if s == path.End(hint) {
        if hint + 1 < |starts| {
          FindIsTheSpan(path, hint + 1, s);
          EndsAfterStart(path, hint + 1);
          if starts[hint + 1] <= s < path.End(hint + 1) {
            hint := hint + 1;
            return;
          }
        }
        return;
      }
      // The neighbours.
      if hint != 0 {
        FindIsTheSpan(path, hint - 1, s);
        if starts[hint - 1] <= s < path.End(hint - 1) {
          hint := hint - 1;
          return;
        }
      }
      if hint + 1 < |starts| {
        FindIsTheSpan(path, hint + 1, s);
        if starts[hint + 1] <= s < path.End(hint + 1) {
          hint := hint + 1;
          return;
        }
      }
      // A large jump.
      var it := UpperBound(starts, s);
      LookupIs(path, s);
      hint := if it == 0 then 0 else it - 1;
    }
  }

  lemma EndsAfterStart(path: Spans, i: nat)
    requires path.Valid() && i < |path.starts|
    ensures path.starts[i] < path.End(i)
  {
  }

  lemma LookupIs(path: Spans, s: real)
    requires path.Valid() && 0.0 <= s <= path.length
    ensures 0 < UpperBound(path.starts, s) <= |path.starts| && Find(path, s) == Segment(UpperBound(path.starts, s) - 1)
  {
    FindIsTheSpan(path, 0, s);
  }

  // ----- the rich cursor -----

  type Vector = seq<real>

  /** The geometry of each segment at an arc length. */
  datatype Geometry = Geometry(configuration: (nat, real) -> Vector, tangent: (nat, real) -> Vector, curvature: (nat, real) -> Vector)

  datatype Query = Value(v: Vector) | AtSentinel

  /** What a plain cursor at `position` answers. */
  function Answer(path: Spans, f: (nat, real) -> Vector, position: Position): Query {
    if position.At? && Find(path, position.s).Segment? then Value(f(Find(path, position.s).index, position.s)) else AtSentinel
  }

  class RichCursor {
    const cursor: Cursor
    const geometry: Geometry
    var configurationSet: bool
    var tangentSet: bool
    var curvatureSet: bool
    var configuration: Vector
    var tangent: Vector
    var curvature: Vector

    /** A set bit means the stored vector is the geometry at the cursor's current position. */
    ghost predicate Valid()
      reads this, cursor
    {
      cursor.Valid() &&
      (configurationSet ==> Answer(cursor.path, geometry.configuration, cursor.position) == Value(configuration)) &&
      (tangentSet ==> Answer(cursor.path, geometry.tangent, cursor.position) == Value(tangent)) &&
      (curvatureSet ==> Answer(cursor.path, geometry.curvature, cursor.position) == Value(curvature))
    }

    constructor (cursor: Cursor, geometry: Geometry)
      requires cursor.Valid()
      ensures Valid() && this.cursor == cursor && this.geometry == geometry
    {
      this.cursor, this.geometry := cursor, geometry;
      configurationSet, tangentSet, curvatureSet := false, false, false;
      configuration, tangent, curvature := [], [], [];
    }

    /** The cache survives exactly the seeks that leave the position unchanged. */
    method Seek(s: real)
      requires Valid()
      modifies this, cursor
      ensures Valid() && cursor.position == SoughtPosition(cursor.path, s)
      ensures if cursor.position == old(cursor.position) then unchanged(this) else !configurationSet && !tangentSet && !curvatureSet
    {
      var before := cursor.position;
      cursor.Seek(s);
      if cursor.position != before {
        configurationSet, tangentSet, curvatureSet := false, false, false;
      }
    }

    /** Each reference answers as a plain cursor at the same position would, from the cache or not; a
        query at a sentinel throws and leaves its bit clear. */
    method ConfigurationRef() returns (q: Query)
      requires Valid()
      modifies `configuration, `configurationSet
      ensures Valid() && q == Answer(cursor.path, geometry.configuration, cursor.position)
      ensures q.AtSentinel? ==> !configurationSet
    {
      if !configurationSet {
        if !cursor.position.At? {
          return AtSentinel;
        }
        configuration := geometry.configuration(cursor.hint, cursor.position.s);
        configurationSet := true;
      }
      q := Value(configuration);
    }

    method TangentRef() returns (q: Query)
      requires Valid()
      modifies `tangent, `tangentSet
      ensures Valid() && q == Answer(cursor.path, geometry.tangent, cursor.position)
      ensures q.AtSentinel? ==> !tangentSet
    {
      if !tangentSet {
        if !cursor.position.At? {
          return AtSentinel;
        }
        tangent := geometry.tangent(cursor.hint, cursor.position.s);
        tangentSet := true;
      }
      q := Value(tangent);
    }

    method CurvatureRef() returns (q: Query)
      requires Valid()
      modifies `curvature, `curvatureSet
      ensures Valid() && q == Answer(cursor.path, geometry.curvature, cursor.position)
      ensures q.AtSentinel? ==> !curvatureSet
    {
      if !curvatureSet {
        if !cursor.position.At? {
          return AtSentinel;
        }
        curvature := geometry.curvature(cursor.hint, cursor.position.s);
        curvatureSet := true;
      }
      q := Value(curvature);
    }
  }
}
