/**
 Polylines offset sideways in the plane: which ones are accepted, where every point goes,
 and that every leg stays on the parallel at its offset.
 */
module PolylineOffsets {
  import opened Vectors
  import opened Wrappers

  const SHORTEST_LEG: real := 0.000000001
  const PARALLEL: real := 0.000000001
  const LEVEL: real := 0.002

  /** A direction in the plane. */
  datatype Direction = Direction(dx: real, dy: real)

  /** The length of a planar vector. */
  type Hypot = (real, real) -> real

  // ----- The directions of the legs -----

  function LegLength(points: seq<Vec>, k: nat, hypot: Hypot): real
    requires k + 1 < |points|
  {
    hypot(points[k + 1].x - points[k].x, points[k + 1].y - points[k].y)
  }

  function LegDirection(points: seq<Vec>, k: nat, hypot: Hypot): Direction
    requires k + 1 < |points| && LegLength(points, k, hypot) > 0.0
  {
    var length := LegLength(points, k, hypot);
    Direction(Share(points[k + 1].x - points[k].x, length), Share(points[k + 1].y - points[k].y, length))
  }

  /** Every leg is longer than the shortest one allowed. */
  predicate LegsAreLong(points: seq<Vec>, hypot: Hypot) {
    forall k: nat :: k + 1 < |points| ==> LegLength(points, k, hypot) > SHORTEST_LEG
  }

  function Directions(points: seq<Vec>, hypot: Hypot): (directions: seq<Direction>)
    requires |points| >= 2 && LegsAreLong(points, hypot)
    ensures |directions| == |points| - 1
  {
    seq(|points| - 1, (k: nat) requires k < |points| - 1 => LegDirection(points, k, hypot))
  }

  predicate IsLevel(points: seq<Vec>) {
    forall k :: 0 <= k < |points| ==> -LEVEL <= points[k].z - points[0].z <= LEVEL
  }

  /** A level polyline with one offset for every leg and no leg too short. */
  predicate CanOffset(points: seq<Vec>, offsets: seq<real>, hypot: Hypot) {
    |points| >= 2 && |offsets| + 1 == |points| && IsLevel(points) && LegsAreLong(points, hypot)
  }

  // ----- Where the points go -----

  function Denominator(before: Direction, after: Direction): real {
    before.dx * after.dy - before.dy * after.dx
  }

  /** Two legs that meet at an angle worth intersecting. */
  predicate IsSharp(before: Direction, after: Direction) {
    Denominator(before, after) < -PARALLEL || Denominator(before, after) > PARALLEL
  }

  function Sideways(p: Vec, d: Direction, offset: real): Vec {
    Vec(p.x - d.dy * offset, p.y + d.dx * offset, p.z)
  }

  function Forwards(p: Vec, d: Direction, distance: real): Vec {
    Vec(p.x + d.dx * distance, p.y + d.dy * distance, p.z)
  }

  function MeetingPoint(p: Vec, before: Direction, after: Direction, offsetBefore: real, offsetAfter: real): Vec {
    var from, onto := Sideways(p, before, offsetBefore), Sideways(p, after, offsetAfter);
    if !IsSharp(before, after) then Vec((from.x + onto.x) / 2.0, (from.y + onto.y) / 2.0, p.z)
    else
      var distance := Share((onto.x - from.x) * after.dy - (onto.y - from.y) * after.dx, Denominator(before, after));
      Forwards(from, before, distance)
  }

  function OffsetPoint(points: seq<Vec>, directions: seq<Direction>, offsets: seq<real>, startTrim: real,
                       endTrim: real, k: nat): Vec
    requires |points| >= 2 && |directions| == |offsets| == |points| - 1 && k < |points|
  {
    if k == 0 then Forwards(Sideways(points[0], directions[0], offsets[0]), directions[0], startTrim)
    else if k == |points| - 1 then
      Forwards(Sideways(points[k], directions[k - 1], offsets[k - 1]), directions[k - 1], -endTrim)
    else MeetingPoint(points[k], directions[k - 1], directions[k], offsets[k - 1], offsets[k])
  }

  function OffsetShape(points: seq<Vec>, offsets: seq<real>, startTrim: real, endTrim: real, hypot: Hypot)
    : (shape: seq<Vec>)
    requires CanOffset(points, offsets, hypot)
    ensures |shape| == |points|
  {
    var directions := Directions(points, hypot);
    seq(|points|, (k: nat) requires k < |points| =>
      OffsetPoint(points, directions, offsets, startTrim, endTrim, k))
  }

  /** Offsets every leg sideways, and refuses exactly the polylines that cannot be offset. */
  method OffsetPolyline(points: seq<Vec>, offsets: seq<real>, startTrim: real, endTrim: real, hypot: Hypot)
    returns (shape: Option<seq<Vec>>)
    ensures shape ==
            if CanOffset(points, offsets, hypot) then Some(OffsetShape(points, offsets, startTrim, endTrim, hypot))
            else None
  {
    hide LegLength, LegDirection, MeetingPoint, Sideways, Forwards;
    if |points| < 2 || |offsets| + 1 != |points| { return None; }
    for k := 0 to |points|
      invariant forall j :: 0 <= j < k ==> -LEVEL <= points[j].z - points[0].z <= LEVEL
    {
      var rise := points[k].z - points[0].z;
      if rise > LEVEL || rise < -LEVEL { return None; }
    }
    var last := |points| - 1;
    var directions: seq<Direction> := [];
    for k := 0 to last
      invariant |directions| == k
      invariant forall j: nat :: j < k ==>
        LegLength(points, j, hypot) > SHORTEST_LEG && directions[j] == LegDirection(points, j, hypot)
    {
      if LegLength(points, k, hypot) <= SHORTEST_LEG { return None; }
      directions := directions + [LegDirection(points, k, hypot)];
    }
    assert directions == Directions(points, hypot);
    var moved := [Forwards(Sideways(points[0], directions[0], offsets[0]), directions[0], startTrim)];
    for k := 1 to last
      invariant |moved| == k
      invariant forall j :: 0 <= j < k ==> moved[j] == OffsetPoint(points, directions, offsets, startTrim, endTrim, j)
    {
      moved := moved + [MeetingPoint(points[k], directions[k - 1], directions[k], offsets[k - 1], offsets[k])];
    }
    moved := moved + [Forwards(Sideways(points[last], directions[last - 1], offsets[last - 1]),
                               directions[last - 1], -endTrim)];
    assert moved == OffsetShape(points, offsets, startTrim, endTrim, hypot);
    return Some(moved);
  }

  // ----- Every leg stays on its parallel -----

  /** How far a point lies to the left of a line through another. */
  function LeftOf(p: Vec, q: Vec, d: Direction): real {
    d.dx * (q.y - p.y) - d.dy * (q.x - p.x)
  }

  predicate IsUnit(d: Direction) {
    d.dx * d.dx + d.dy * d.dy == 1.0
  }

  lemma SidewaysLeft(p: Vec, d: Direction, offset: real, distance: real)
    requires IsUnit(d)
    ensures LeftOf(p, Forwards(Sideways(p, d, offset), d, distance), d) == offset
  {
    SidewaysReals(d.dx, d.dy, offset, distance);
  }

  lemma SidewaysReals(dx: real, dy: real, offset: real, distance: real)
    requires dx * dx + dy * dy == 1.0
    ensures dx * (dx * offset + dy * distance) - dy * (-(dy * offset) + dx * distance) == offset
  {
    assert dx * (dx * offset + dy * distance) == (dx * dx) * offset + (dx * dy) * distance;
    assert dy * (-(dy * offset) + dx * distance) == -((dy * dy) * offset) + (dx * dy) * distance;
    assert (dx * dx) * offset + (dy * dy) * offset == (dx * dx + dy * dy) * offset;
  }

  /** At a sharp corner the meeting point lies on the parallels of both legs. */
  lemma MeetingIsOnBoth(p: Vec, before: Direction, after: Direction, offsetBefore: real, offsetAfter: real)
    requires IsUnit(before) && IsUnit(after) && IsSharp(before, after)
    ensures var q := MeetingPoint(p, before, after, offsetBefore, offsetAfter);
            LeftOf(p, q, before) == offsetBefore && LeftOf(p, q, after) == offsetAfter
  {
    hide Share;
    var from, onto := Sideways(p, before, offsetBefore), Sideways(p, after, offsetAfter);
    var gapX, gapY, den := onto.x - from.x, onto.y - from.y, Denominator(before, after);
    var distance := Share(gapX * after.dy - gapY * after.dx, den);
    SidewaysLeft(p, before, offsetBefore, distance);
    SidewaysLeft(p, after, offsetAfter, 0.0);
    MeetingReals(from.x - p.x, from.y - p.y, gapX, gapY, before.dx, before.dy, after.dx, after.dy, den, distance);
  }

  lemma MeetingReals(x: real, y: real, gapX: real, gapY: real, a: real, b: real, c: real, d: real, den: real, t: real)
    requires den == a * d - b * c && t * den == gapX * d - gapY * c
    ensures c * (y + b * t) - d * (x + a * t) == c * (y + gapY) - d * (x + gapX)
  {
    assert t * den == (a * t) * d - (b * t) * c;
  }

  /** The measured length of every leg is its true length. */
  ghost predicate ExactLegs(points: seq<Vec>, hypot: Hypot) {
    forall k: nat :: k + 1 < |points| ==> IsExact(points, k, hypot)
  }

  predicate IsExact(points: seq<Vec>, k: nat, hypot: Hypot)
    requires k + 1 < |points|
  {
    var dx, dy, length := points[k + 1].x - points[k].x, points[k + 1].y - points[k].y, LegLength(points, k, hypot);
    length * length == dx * dx + dy * dy
  }

  lemma DirectionIsUnit(points: seq<Vec>, k: nat, hypot: Hypot)
    requires k + 1 < |points| && LegLength(points, k, hypot) > 0.0 && IsExact(points, k, hypot)
    ensures IsUnit(LegDirection(points, k, hypot))
    ensures LeftOf(points[k], points[k + 1], LegDirection(points, k, hypot)) == 0.0
  {
    var dx, dy, length := points[k + 1].x - points[k].x, points[k + 1].y - points[k].y, LegLength(points, k, hypot);
    hide LegLength, Share;
    UnitQuotients(dx, dy, length);
  }

  lemma UnitQuotients(dx: real, dy: real, length: real)
    requires length > 0.0 && length * length == dx * dx + dy * dy
    ensures var x, y := Share(dx, length), Share(dy, length);
            x * x + y * y == 1.0 && x * dy - y * dx == 0.0
  {
    hide Share;
    var x, y := Share(dx, length), Share(dy, length);
    UnitShares(dx, dy, length, x, y);
    Commute(x, y, length, dx, dy);
  }

  lemma UnitShares(dx: real, dy: real, length: real, x: real, y: real)
    requires length > 0.0 && Mul(x, length) == dx && Mul(y, length) == dy
    requires Mul(length, length) == Mul(dx, dx) + Mul(dy, dy)
    ensures Mul(x, x) + Mul(y, y) == 1.0
  {
    hide Mul;
    MulSquare(x, length, dx);
    MulSquare(y, length, dy);
    MulOver(Mul(x, x), Mul(y, y), Mul(length, length));
    MulPositive(length, length);
    MulOne(Mul(x, x) + Mul(y, y), Mul(length, length));
  }

  lemma Commute(x: real, y: real, length: real, dx: real, dy: real)
    requires x * length == dx && y * length == dy
    ensures x * dy - y * dx == 0.0
  {
    assert x * dy == x * (y * length) && y * dx == y * (x * length);
  }

  /** The leg starts and ends at the polyline's ends or at sharp corners. */
  predicate IsFree(points: seq<Vec>, k: nat, hypot: Hypot)
    requires |points| >= 2 && LegsAreLong(points, hypot) && k + 1 < |points|
  {
    var directions := Directions(points, hypot);
    && (k == 0 || IsSharp(directions[k - 1], directions[k]))
    && (k + 2 == |points| || IsSharp(directions[k], directions[k + 1]))
  }

  /** Both ends of an offset leg lie at its offset to the left of the leg, whatever is trimmed. */
  lemma LegsKeepTheirOffset(points: seq<Vec>, offsets: seq<real>, startTrim: real, endTrim: real, hypot: Hypot, k: nat)
    requires CanOffset(points, offsets, hypot) && ExactLegs(points, hypot)
    requires k + 1 < |points| && IsFree(points, k, hypot)
    ensures var shape, d := OffsetShape(points, offsets, startTrim, endTrim, hypot), LegDirection(points, k, hypot);
            LeftOf(points[k], shape[k], d) == offsets[k] && LeftOf(points[k], shape[k + 1], d) == offsets[k]
  {
    hide LegLength, LegDirection, MeetingPoint, Sideways, Forwards, IsUnit, LeftOf, IsSharp, IsLevel, IsExact;
    var directions, d := Directions(points, hypot), LegDirection(points, k, hypot);
    var shape := OffsetShape(points, offsets, startTrim, endTrim, hypot);
    assert IsExact(points, k, hypot);
    DirectionIsUnit(points, k, hypot);
    if k == 0 {
      SidewaysLeft(points[0], d, offsets[0], startTrim);
    } else {
      assert IsExact(points, k - 1, hypot);
      DirectionIsUnit(points, k - 1, hypot);
      MeetingIsOnBoth(points[k], directions[k - 1], d, offsets[k - 1], offsets[k]);
    }
    if k + 2 == |points| {
      SidewaysLeft(points[k + 1], d, offsets[k], -endTrim);
    } else {
      assert IsExact(points, k + 1, hypot);
      DirectionIsUnit(points, k + 1, hypot);
      MeetingIsOnBoth(points[k + 1], d, directions[k + 1], offsets[k], offsets[k + 1]);
    }
    AlongTheLeg(points[k], points[k + 1], shape[k + 1], d);
  }

  lemma AlongTheLeg(p: Vec, q: Vec, r: Vec, d: Direction)
    requires LeftOf(p, q, d) == 0.0
    ensures LeftOf(p, r, d) == LeftOf(q, r, d)
  {
  }
}
