/** The switching-point cache (trajectory.cpp, `find_switching_point`): the most recent acceleration
    and velocity switching points are kept, each bounding the other's next search. A search of either
    kind is idealised as the first member of a fixed list, in order along the path, that lies strictly
    ahead of the cursor and within an inclusive bound. */
module SwitchingCache {
  import opened Reals

  /** A switching point's position in the phase plane and whether it is the path-end sentinel. */
  datatype Switch = Switch(s: real, sDot: real, pathEnd: bool)

  /** All the switching points of each kind on a path, and its length. */
  datatype Path = Path(acceleration: seq<Switch>, velocity: seq<Switch>, length: real) {
    ghost predicate Valid() {
      Ordered(acceleration) && Ordered(velocity) && Inside(acceleration, length) && Inside(velocity, length)
    }

    function End(): Switch {
      Switch(length, 0.0, true)
    }
  }

  ghost predicate Ordered(points: seq<Switch>) {
    forall i, j :: 0 <= i < j < |points| ==> points[i].s < points[j].s
  }

  /** Every switching point is strictly before the path's end. */
  ghost predicate Inside(points: seq<Switch>, length: real) {
    forall i :: 0 <= i < |points| ==> points[i].s < length && !points[i].pathEnd
  }

  /** One search: the first point strictly ahead of the cursor and within the bound. */
  function Search(points: seq<Switch>, cursor: real, bound: real): Option<Switch> {
    if points == [] then None
    else if cursor < points[0].s <= bound then Some(points[0])
    else Search(points[1..], cursor, bound)
  }

  /** `select_switching_point`. */
  function Select(a: Option<Switch>, b: Option<Switch>, eps: real): Option<Switch> {
    if a.None? then b
    else if b.None? then a
    else if EpsEq(a.value.s, b.value.s, eps) then (if a.value.sDot < b.value.sDot then a else b)
    else if a.value.s < b.value.s then a
    else b
  }

  /** What a search without a cache would answer. */
  function Cacheless(path: Path, cursor: real, eps: real): Switch {
    var found := Select(Search(path.acceleration, cursor, path.length), Search(path.velocity, cursor, path.length), eps);
    if found.Some? then found.value else path.End()
  }

  // ----- the search -----

  /** p is the first of the points strictly ahead of the cursor. */
  ghost predicate FirstAhead(points: seq<Switch>, cursor: real, p: Switch) {
    cursor < p.s && p in points && forall q :: q in points && cursor < q.s ==> p.s <= q.s
  }

  ghost predicate NoneAhead(points: seq<Switch>, cursor: real, bound: real) {
    forall q :: q in points ==> !(cursor < q.s <= bound)
  }

  lemma {:induction false} SearchIsFirst(points: seq<Switch>, cursor: real, bound: real)
    requires Ordered(points)
    ensures match Search(points, cursor, bound)
            case Some(p) => FirstAhead(points, cursor, p) && p.s <= bound
            case None => NoneAhead(points, cursor, bound)
  {
    if points != [] {
      var rest := points[1..];
      assert forall q :: q in points <==> q == points[0] || q in rest;
      assert forall q :: q in rest ==> points[0].s < q.s by {
        forall q | q in rest ensures points[0].s < q.s {
          var i :| 0 <= i < |rest| && rest[i] == q;
          assert points[i + 1] == q;
        }
      }
      SearchIsFirst(rest, cursor, bound);
    }
  }

  lemma FirstAheadIsUnique(points: seq<Switch>, cursor: real, p: Switch, q: Switch)
    requires Ordered(points) && FirstAhead(points, cursor, p) && FirstAhead(points, cursor, q)
    ensures p == q
  {
    var i :| 0 <= i < |points| && points[i] == p;
    var j :| 0 <= j < |points| && points[j] == q;
    SamePlace(points, i, j);
  }

  lemma SamePlace(points: seq<Switch>, i: nat, j: nat)
    requires Ordered(points) && i < |points| && j < |points| && points[i].s == points[j].s
    ensures i == j
  {
  }

  // ----- the cache -----

  /** A kept entry is still right for any cursor it lies ahead of: it is the first point of its kind
      ahead, or the path's end when there is none. */
  ghost predicate EntryOk(path: Path, points: seq<Switch>, cursor: real, entry: Option<Switch>) {
    entry.Some? ==>
      if entry.value == path.End() then NoneAhead(points, cursor, path.length)
      else entry.value.s < path.length && FirstAhead(points, cursor, entry.value)
  }

  /** An entry survives the cursor moving forward, as long as it stays ahead of it. */
  lemma EntryKept(path: Path, points: seq<Switch>, cursor: real, later: real, entry: Option<Switch>)
    requires EntryOk(path, points, cursor, entry) && cursor <= later
    ensures EntryOk(path, points, later, Current(entry, later))
  {
  }

  /** An entry that has fallen behind the cursor is dropped; what remains is right for it. */
  function Current(entry: Option<Switch>, cursor: real): Option<Switch> {
    if entry.Some? && entry.value.s <= cursor then None else entry
  }

  /** A fresh search bounded by the other kind's entry, turned into the path-end sentinel if it ran to
      the path's end and found nothing. */
  function Refill(path: Path, points: seq<Switch>, cursor: real, other: Option<Switch>): Option<Switch> {
    var bound := if other.Some? then other.value.s else path.length;
    var found := Search(points, cursor, bound);
    if found.None? && bound == path.length then Some(path.End()) else found
  }

  /** A refilled entry is right, and missing only if the other one bounds it and nothing of this kind
      lies up to there. */
  lemma RefillIsRight(path: Path, points: seq<Switch>, cursor: real, other: Option<Switch>)
    requires Ordered(points) && Inside(points, path.length)
    ensures EntryOk(path, points, cursor, Refill(path, points, cursor, other))
    ensures Refill(path, points, cursor, other).None? ==> other.Some? && NoneAhead(points, cursor, other.value.s)
  {
    SearchIsFirst(points, cursor, if other.Some? then other.value.s else path.length);
  }

  /** What a cache with nothing in it answers. */
  function FreshAnswer(path: Path, cursor: real, eps: real): Switch {
    var accel := Refill(path, path.acceleration, cursor, None);
    var found := Select(accel, Refill(path, path.velocity, cursor, accel), eps);
    if found.Some? then found.value else path.End()
  }

  /** A kept entry is what a fresh search, bounded by an entry it does not lie beyond, would find. */
  lemma EntryIsFresh(path: Path, points: seq<Switch>, cursor: real, entry: Option<Switch>, other: Option<Switch>)
    requires Ordered(points) && Inside(points, path.length) && EntryOk(path, points, cursor, entry)
    requires entry.Some? && cursor < entry.value.s <= path.length
    requires other.Some? ==> entry.value.s <= other.value.s <= path.length
    ensures entry == Refill(path, points, cursor, other)
  {
    var bound := if other.Some? then other.value.s else path.length;
    SearchIsFirst(points, cursor, bound);
    var found := Search(points, cursor, bound);
    if entry.value != path.End() && found.Some? {
      FirstAheadIsUnique(points, cursor, entry.value, found.value);
    }
  }

  lemma RefillInRange(path: Path, points: seq<Switch>, cursor: real, other: Option<Switch>)
    requires Ordered(points) && Inside(points, path.length) && cursor <= path.length
    requires other.Some? ==> other.value.s <= path.length
    ensures var r := Refill(path, points, cursor, other);
            r.Some? ==> cursor <= r.value.s <= path.length && (other.Some? ==> r.value.s <= other.value.s)
    ensures other.None? ==> Refill(path, points, cursor, other).Some?
  {
    SearchIsFirst(points, cursor, if other.Some? then other.value.s else path.length);
  }

  class Cache {
    const path: Path
    const eps: real
    var nextAccel: Option<Switch>
    var nextVel: Option<Switch>
    ghost var lastCursor: real

    /** Both entries are right for the last cursor seen, and the velocity entry is never beyond the
        acceleration entry, so it is never the one that survives alone. */
    ghost predicate Valid()
      reads this
    {
      path.Valid() && EntryOk(path, path.acceleration, lastCursor, nextAccel) && EntryOk(path, path.velocity, lastCursor, nextVel) &&
      (nextAccel.Some? ==> nextAccel.value.s <= path.length) &&
      (nextVel.Some? ==> nextAccel.Some? && nextVel.value.s <= nextAccel.value.s)
    }

    constructor (path: Path, eps: real)
      requires path.Valid()
      ensures Valid() && this.path == path && this.eps == eps && lastCursor == 0.0
    {
      this.path, this.eps := path, eps;
      nextAccel, nextVel, lastCursor := None, None, 0.0;
    }

    /** For any forward-moving sequence of calls, the answer is what a fresh cache would give. */
    method FindSwitchingPoint(cursor: real) returns (sp: Switch)
      requires Valid() && lastCursor <= cursor <= path.length
      modifies this
      ensures Valid() && lastCursor == cursor && sp == FreshAnswer(path, cursor, eps)
    {
      hide Search, Select, EntryOk, Refill, NoneAhead, Ordered, Inside;
      EntryKept(path, path.acceleration, lastCursor, cursor, nextAccel);
      EntryKept(path, path.velocity, lastCursor, cursor, nextVel);
      nextAccel, nextVel := Current(nextAccel, cursor), Current(nextVel, cursor);
      lastCursor := cursor;
      if nextAccel.Some? {
        EntryIsFresh(path, path.acceleration, cursor, nextAccel, None);
      }
      // Acceleration first: it is the cheaper search, and bounds the other.
      if nextAccel.None? {
        RefillIsRight(path, path.acceleration, cursor, nextVel);
        RefillInRange(path, path.acceleration, cursor, nextVel);
        nextAccel := Refill(path, path.acceleration, cursor, nextVel);
      }
      if nextVel.None? {
        RefillIsRight(path, path.velocity, cursor, nextAccel);
        RefillInRange(path, path.velocity, cursor, nextAccel);
        nextVel := Refill(path, path.velocity, cursor, nextAccel);
      } else {
        EntryIsFresh(path, path.velocity, cursor, nextVel, nextAccel);
      }
      var found := Select(nextAccel, nextVel, eps);
      sp := if found.Some? then found.value else path.End();
    }
  }

  /** A fresh cache, and so by the above any cache, answers as the two full searches do at a cursor
      exactly unless the nearest velocity point lies past the nearest acceleration point, within
      epsilon of it and no faster, or is the only point ahead and within epsilon of the path's end
      while moving. */
  lemma FreshAnswerIsCacheless(path: Path, cursor: real, eps: real)
    requires path.Valid() && 0.0 <= eps && cursor <= path.length
    ensures var a, v := Search(path.acceleration, cursor, path.length), Search(path.velocity, cursor, path.length);
            FreshAnswer(path, cursor, eps) == Cacheless(path, cursor, eps) <==>
            !(v.Some? && if a.Some? then a.value.s < v.value.s && v.value.s - a.value.s <= eps && v.value.sDot <= a.value.sDot
                else path.length - v.value.s <= eps && 0.0 < v.value.sDot)
  {
    var a, v := Search(path.acceleration, cursor, path.length), Search(path.velocity, cursor, path.length);
    SearchIsFirst(path.acceleration, cursor, path.length);
    SearchIsFirst(path.velocity, cursor, path.length);
    var accel := Refill(path, path.acceleration, cursor, None);
    SearchIsFirst(path.velocity, cursor, accel.value.s);
    var near := Search(path.velocity, cursor, accel.value.s);
    if near.Some? && v.Some? {
      FirstAheadIsUnique(path.velocity, cursor, near.value, v.value);
    }
  }

  /** With exact ties the cache is transparent everywhere. */
  lemma ExactTiesAreTransparent(path: Path, cursor: real)
    requires path.Valid() && cursor <= path.length
    ensures FreshAnswer(path, cursor, 0.0) == Cacheless(path, cursor, 0.0)
  {
    SearchIsFirst(path.velocity, cursor, path.length);
    FreshAnswerIsCacheless(path, cursor, 0.0);
  }

  /** With a positive epsilon it need not be: here the velocity point at 2 lies just past the
      acceleration point at 1, so the bounded search misses it, while the full searches find both and
      choose the slower. */
  lemma CloseTiesDiffer()
    ensures var path := Path([Switch(1.0, 5.0, false)], [Switch(2.0, 3.0, false)], 10.0);
            path.Valid() && FreshAnswer(path, 0.0, 1.0) == Switch(1.0, 5.0, false) && Cacheless(path, 0.0, 1.0) == Switch(2.0, 3.0, false)
  {
    assert Search([], 0.0, 10.0).None? && Search([], 0.0, 1.0).None?;
    assert [Switch(2.0, 3.0, false)][1..] == [];
  }
}
