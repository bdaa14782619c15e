/** Offset polylines told in coordinates: how far each leg lies from the original, and where it starts and ends. */
module PolylineLaws {
  import opened PolylineOffsets
  import opened Vectors
  import opened Wrappers

  /** Twice the area spanned by leg `k` and the way from its start to a point: positive to the left of the leg. */
  function AreaBeside(points: seq<Vec>, k: nat, q: Vec): real
    requires k + 1 < |points|
  {
    var p, r := points[k], points[k + 1];
    Mul(r.x - p.x, q.y - p.y) - Mul(r.y - p.y, q.x - p.x)
  }

  /** How far `q` lies from `p` along leg `k`, times the length of the leg. */
  function AlongLeg(points: seq<Vec>, k: nat, p: Vec, q: Vec): real
    requires k + 1 < |points|
  {
    Mul(points[k + 1].x - points[k].x, q.x - p.x) + Mul(points[k + 1].y - points[k].y, q.y - p.y)
  }

  function Measured(points: seq<Vec>, k: nat, hypot: Hypot): real
    requires k + 1 < |points|
  {
    hypot(points[k + 1].x - points[k].x, points[k + 1].y - points[k].y)
  }

  /** The legs before and after point `k` differ in direction by more than a billionth, as a sine. */
  predicate Turns(points: seq<Vec>, k: nat, hypot: Hypot)
    requires 0 < k && k + 1 < |points|
  {
    var o, p, q := points[k - 1], points[k], points[k + 1];
    var area, lengths := Mul(p.x - o.x, q.y - p.y) - Mul(p.y - o.y, q.x - p.x),
                         Mul(Measured(points, k - 1, hypot), Measured(points, k, hypot));
    area > 0.000000001 * lengths || area < -0.000000001 * lengths
  }

  lemma DirectionScales(points: seq<Vec>, k: nat, hypot: Hypot)
    requires k + 1 < |points| && LegLength(points, k, hypot) > 0.0
    ensures var d, length := LegDirection(points, k, hypot), Measured(points, k, hypot);
      && length == LegLength(points, k, hypot)
      && Mul(d.dx, length) == points[k + 1].x - points[k].x && Mul(d.dy, length) == points[k + 1].y - points[k].y
  {
    hide Share;
  }

  lemma AreaScales(dx: real, dy: real, x: real, y: real, length: real, ex: real, ey: real, left: real)
    requires Mul(dx, length) == ex && Mul(dy, length) == ey && left == dx * y - dy * x
    ensures Mul(ex, y) - Mul(ey, x) == Mul(left, length)
  {
    assert (dx * length) * y - (dy * length) * x == (dx * y - dy * x) * length;
  }

  lemma WayScales(dx: real, dy: real, x: real, y: real, length: real, ex: real, ey: real, along: real)
    requires Mul(dx, length) == ex && Mul(dy, length) == ey && along == dx * x + dy * y
    ensures Mul(ex, x) + Mul(ey, y) == Mul(along, length)
  {
    assert (dx * length) * x + (dy * length) * y == (dx * x + dy * y) * length;
  }

  lemma AreaIsDistance(points: seq<Vec>, k: nat, hypot: Hypot, q: Vec)
    requires k + 1 < |points| && LegLength(points, k, hypot) > 0.0
    ensures AreaBeside(points, k, q)
              == Mul(LeftOf(points[k], q, LegDirection(points, k, hypot)), Measured(points, k, hypot))
  {
    hide LegDirection, Mul, LegLength;
    var d, p, r := LegDirection(points, k, hypot), points[k], points[k + 1];
    DirectionScales(points, k, hypot);
    AreaScales(d.dx, d.dy, q.x - p.x, q.y - p.y, Measured(points, k, hypot), r.x - p.x, r.y - p.y, LeftOf(p, q, d));
  }

  lemma TurnsAreSharp(points: seq<Vec>, k: nat, hypot: Hypot)
    requires 0 < k && k + 1 < |points|
    requires LegLength(points, k - 1, hypot) > 0.0 && LegLength(points, k, hypot) > 0.0
    ensures Turns(points, k, hypot) <==>
            IsSharp(LegDirection(points, k - 1, hypot), LegDirection(points, k, hypot))
  {
    hide LegDirection, Mul, LegLength;
    var a, b := LegDirection(points, k - 1, hypot), LegDirection(points, k, hypot);
    var l, m := Measured(points, k - 1, hypot), Measured(points, k, hypot);
    DirectionScales(points, k - 1, hypot);
    DirectionScales(points, k, hypot);
    SharpReals(a.dx, a.dy, b.dx, b.dy, l, m, points[k].x - points[k - 1].x, points[k].y - points[k - 1].y,
        points[k + 1].x - points[k].x, points[k + 1].y - points[k].y, Denominator(a, b));
  }

  lemma SharpReals(a: real, b: real, c: real, d: real, l: real, m: real, x: real, y: real, u: real, v: real,
                   sine: real)
    requires l > 0.0 && m > 0.0 && Mul(a, l) == x && Mul(b, l) == y && Mul(c, m) == u && Mul(d, m) == v
    requires sine == a * d - b * c
    ensures var area := Mul(x, v) - Mul(y, u);
      && (area > 0.000000001 * Mul(l, m) <==> sine > 0.000000001)
      && (area < -0.000000001 * Mul(l, m) <==> sine < -0.000000001)
  {
    var lm := Mul(l, m);
    MulPositive(l, m);
    SineScales(a, b, c, d, l, m);
    hide Mul;
    Ordered(sine, 0.000000001, lm);
    Ordered(-0.000000001, sine, lm);
    ConstantScales(lm);
  }

  lemma SineScales(a: real, b: real, c: real, d: real, l: real, m: real)
    ensures Mul(Mul(a, l), Mul(d, m)) - Mul(Mul(b, l), Mul(c, m)) == Mul(a * d - b * c, Mul(l, m))
  {
    assert (a * l) * (d * m) == (a * d) * (l * m);
    assert (b * l) * (c * m) == (b * c) * (l * m);
  }

  lemma ConstantScales(a: real)
    ensures Mul(0.000000001, a) == 0.000000001 * a && Mul(-0.000000001, a) == -0.000000001 * a
  {
  }

  lemma Ordered(a: real, b: real, s: real)
    requires s > 0.0
    ensures Mul(a, s) > Mul(b, s) <==> a > b
  {
    if a > b { MulPositive(a - b, s); }
    if a < b { MulPositive(b - a, s); }
    assert Mul(a - b, s) == Mul(a, s) - Mul(b, s);
  }

  lemma ForwardsAlong(p: Vec, d: Direction, offset: real, distance: real)
    requires IsUnit(d)
    ensures var q := Forwards(Sideways(p, d, offset), d, distance);
            d.dx * (q.x - p.x) + d.dy * (q.y - p.y) == distance
  {
    ForwardsReals(d.dx, d.dy, offset, distance);
  }

  lemma ForwardsReals(a: real, b: real, o: real, t: real)
    requires a * a + b * b == 1.0
    ensures a * (-(b * o) + a * t) + b * (a * o + b * t) == t
  {
    assert a * (-(b * o) + a * t) + b * (a * o + b * t) == (a * a + b * b) * t;
  }

  /** The measured length of the leg is its true one. */
  predicate IsMeasured(points: seq<Vec>, k: nat, hypot: Hypot)
    requires k + 1 < |points|
  {
    var p, q, length := points[k], points[k + 1], Measured(points, k, hypot);
    Mul(length, length) == Mul(q.x - p.x, q.x - p.x) + Mul(q.y - p.y, q.y - p.y)
  }

  lemma MeasuredIsExact(points: seq<Vec>, hypot: Hypot)
    requires forall j: nat :: j + 1 < |points| ==> IsMeasured(points, j, hypot)
    ensures ExactLegs(points, hypot)
  {
    forall k: nat | k + 1 < |points| ensures IsExact(points, k, hypot) {
      assert IsMeasured(points, k, hypot);
    }
  }

  /**
   When the measured lengths are the true ones: a leg between turns or ends of the polyline
   keeps its offset to the left, at both of its ends; the polyline starts and ends trimmed by
   the given distances along its first and last leg; and no point is raised or lowered.
   */
  lemma OffsetsInCoordinates(points: seq<Vec>, offsets: seq<real>, startTrim: real, endTrim: real, hypot: Hypot, k: nat)
    requires CanOffset(points, offsets, hypot) && k + 1 < |points|
    requires forall j: nat :: j + 1 < |points| ==> IsMeasured(points, j, hypot)
    ensures var shape, last := OffsetShape(points, offsets, startTrim, endTrim, hypot), |points| - 1;
      && ((k == 0 || Turns(points, k, hypot)) && (k + 1 == last || Turns(points, k + 1, hypot)) ==>
            && AreaBeside(points, k, shape[k]) == Mul(offsets[k], Measured(points, k, hypot))
            && AreaBeside(points, k, shape[k + 1]) == Mul(offsets[k], Measured(points, k, hypot)))
      && (k == 0 ==> AlongLeg(points, k, points[0], shape[0]) == Mul(startTrim, Measured(points, k, hypot)))
      && (k + 1 == last ==> AlongLeg(points, k, points[last], shape[last]) == Mul(-endTrim, Measured(points, k, hypot)))
      && shape[k].z == points[k].z && shape[k + 1].z == points[k + 1].z
  {
    hide LegLength, LegDirection, AreaBeside, AlongLeg, Measured, Mul, Turns, IsExact, IsLevel, IsSharp, LeftOf, IsUnit,
      Forwards, Sideways, MeetingPoint;
    var shape, d, last :=
      OffsetShape(points, offsets, startTrim, endTrim, hypot), LegDirection(points, k, hypot), |points| - 1;
    MeasuredIsExact(points, hypot);
    if k > 0 { TurnsAreSharp(points, k, hypot); }
    if k + 1 < last { TurnsAreSharp(points, k + 1, hypot); }
    if (k == 0 || Turns(points, k, hypot)) && (k + 1 == last || Turns(points, k + 1, hypot)) {
      LegsKeepTheirOffset(points, offsets, startTrim, endTrim, hypot, k);
    }
    AreaIsDistance(points, k, hypot, shape[k]);
    AreaIsDistance(points, k, hypot, shape[k + 1]);
    assert IsExact(points, k, hypot);
    DirectionIsUnit(points, k, hypot);
    if k == 0 { EndAlong(points, k, hypot, points[0], offsets[0], startTrim); }
    if k + 1 == last { EndAlong(points, k, hypot, points[last], offsets[k], -endTrim); }
    SameHeight(points, offsets, startTrim, endTrim, hypot, k);
    SameHeight(points, offsets, startTrim, endTrim, hypot, k + 1);
  }

  lemma SameHeight(points: seq<Vec>, offsets: seq<real>, startTrim: real, endTrim: real, hypot: Hypot, k: nat)
    requires CanOffset(points, offsets, hypot) && k < |points|
    ensures OffsetShape(points, offsets, startTrim, endTrim, hypot)[k].z == points[k].z
  {
    hide LegLength, LegDirection, IsLevel, IsSharp, Share, Denominator;
  }

  lemma EndAlong(points: seq<Vec>, k: nat, hypot: Hypot, p: Vec, offset: real, distance: real)
    requires k + 1 < |points| && LegLength(points, k, hypot) > 0.0 && IsUnit(LegDirection(points, k, hypot))
    ensures var d := LegDirection(points, k, hypot);
            var q := Forwards(Sideways(p, d, offset), d, distance);
            AlongLeg(points, k, p, q) == Mul(distance, Measured(points, k, hypot))
  {
    hide LegDirection, Mul, LegLength, AlongLeg, Forwards, Sideways, IsUnit;
    var d := LegDirection(points, k, hypot);
    ForwardsAlong(p, d, offset, distance);
    AlongIsDistance(points, k, hypot, p, Forwards(Sideways(p, d, offset), d, distance), distance);
  }

  lemma AlongIsDistance(points: seq<Vec>, k: nat, hypot: Hypot, p: Vec, q: Vec, distance: real)
    requires k + 1 < |points| && LegLength(points, k, hypot) > 0.0
    requires var d := LegDirection(points, k, hypot); d.dx * (q.x - p.x) + d.dy * (q.y - p.y) == distance
    ensures AlongLeg(points, k, p, q) == Mul(distance, Measured(points, k, hypot))
  {
    hide LegDirection, Mul, LegLength;
    var d, o, r := LegDirection(points, k, hypot), points[k], points[k + 1];
    DirectionScales(points, k, hypot);
    WayScales(d.dx, d.dy, q.x - p.x, q.y - p.y, Measured(points, k, hypot), r.x - o.x, r.y - o.y, distance);
  }

  /**
   A polyline can be offset exactly when it has an offset for every leg, no point more than two
   thousandths above or below the first, and every leg longer than a billionth.
   */
  lemma OffsetExactlyWhen(points: seq<Vec>, offsets: seq<real>, hypot: Hypot)
    ensures CanOffset(points, offsets, hypot) <==>
            && |points| >= 2 && |offsets| == |points| - 1
            && (forall k :: 0 <= k < |points| ==> -0.002 <= points[k].z - points[0].z <= 0.002)
            && forall k: nat :: k + 1 < |points| ==> Measured(points, k, hypot) > 0.000000001
  {
    forall k: nat | k + 1 < |points| ensures Measured(points, k, hypot) == LegLength(points, k, hypot) {
    }
  }

  /** At a corner that hardly turns, the point is the middle of the two legs' own offsets. */
  lemma BluntCorners(points: seq<Vec>, offsets: seq<real>, startTrim: real, endTrim: real, hypot: Hypot, k: nat)
    requires CanOffset(points, offsets, hypot) && 0 < k && k + 1 < |points| && !Turns(points, k, hypot)
    ensures var q, p := OffsetShape(points, offsets, startTrim, endTrim, hypot)[k], points[k];
            var l, m := Measured(points, k - 1, hypot), Measured(points, k, hypot);
      && l > 0.0 && m > 0.0
      && 2.0 * (q.x - p.x) == -(offsets[k - 1] * Share(p.y - points[k - 1].y, l))
                              - offsets[k] * Share(points[k + 1].y - p.y, m)
      && 2.0 * (q.y - p.y) == offsets[k - 1] * Share(p.x - points[k - 1].x, l)
                              + offsets[k] * Share(points[k + 1].x - p.x, m)
  {
    hide Turns, IsLevel, IsSharp, Share;
    TurnsAreSharp(points, k, hypot);
  }
}
