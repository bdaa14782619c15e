/**
 Faces told in coordinates: what the tests of the plane mean, which vertices a kept triangle
 may cover, and where the bridges to the holes run.
 */
module FaceLaws {
  import opened FaceBridging
  import opened FaceTriangulation
  import opened MeshTopology
  import opened Triangulation
  import opened Vectors
  import opened Wrappers

  // ----- Segments that meet -----

  /** The point a share of the way from one point to another. */
  function Way(a: Point, b: Point, s: real): Point {
    Point(a.x + Mul(s, b.x - a.x), a.y + Mul(s, b.y - a.y))
  }

  /** The two segments have a point in common. */
  ghost predicate Meet(a: Point, b: Point, c: Point, d: Point) {
    exists s: real, t: real :: MeetAt(a, b, c, d, s, t)
  }

  predicate MeetAt(a: Point, b: Point, c: Point, d: Point, s: real, t: real) {
    0.0 <= s <= 1.0 && 0.0 <= t <= 1.0 && Way(a, b, s) == Way(c, d, t)
  }

  /** No end of one segment is on the line of the other, to within the tolerance. */
  predicate IsGeneral(a: Point, b: Point, c: Point, d: Point) {
    !IsFlat(Cross2(a, b, c)) && !IsFlat(Cross2(a, b, d)) && !IsFlat(Cross2(c, d, a)) && !IsFlat(Cross2(c, d, b))
  }

  /** Sides change linearly along a segment. */
  lemma SideAlong(a: Point, b: Point, c: Point, d: Point, t: real)
    ensures Cross2(a, b, Way(c, d, t)) == Cross2(a, b, c) + Mul(t, Cross2(a, b, d) - Cross2(a, b, c))
  {
    SideReals(b.x - a.x, b.y - a.y, c.x - a.x, c.y - a.y, d.x - c.x, d.y - c.y, t);
  }

  lemma SideReals(x: real, y: real, u: real, v: real, p: real, q: real, t: real)
    ensures x * (v + Mul(t, q)) - y * (u + Mul(t, p))
         == (x * v - y * u) + Mul(t, (x * (v + q) - y * (u + p)) - (x * v - y * u))
  {
    assert x * Mul(t, q) - y * Mul(t, p) == Mul(t, x * q - y * p);
  }

  lemma OnOwnLine(a: Point, b: Point, s: real)
    ensures Cross2(a, b, Way(a, b, s)) == 0.0
  {
    assert (b.x - a.x) * Mul(s, b.y - a.y) == (b.y - a.y) * Mul(s, b.x - a.x);
  }

  /** Where a linear quantity vanishes inside a segment, its ends do not have the same sign. */
  lemma SignsChange(p: real, q: real, t: real)
    requires 0.0 <= t <= 1.0 && p + Mul(t, q - p) == 0.0
    ensures !(p > 0.0 && q > 0.0) && !(p < 0.0 && q < 0.0)
  {
    assert p + Mul(t, q - p) == Mul(1.0 - t, p) + Mul(t, q);
    if p > 0.0 && q > 0.0 {
      if t > 0.0 { MulPositive(t, q); }
      if t < 1.0 { MulPositive(1.0 - t, p); }
    }
    NegatedFactor(t, q);
    NegatedFactor(1.0 - t, p);
    if p < 0.0 && q < 0.0 {
      if t > 0.0 { MulPositive(t, -q); }
      if t < 1.0 { MulPositive(1.0 - t, -p); }
    }
  }

  lemma NegatedFactor(a: real, b: real)
    ensures Mul(a, -b) == -Mul(a, b)
  {
  }

  /** Segments in general position that have a point in common are seen to intersect. */
  lemma MeetingIsSeen(a: Point, b: Point, c: Point, d: Point)
    requires IsGeneral(a, b, c, d) && Meet(a, b, c, d)
    ensures Intersects(a, b, c, d)
  {
    hide Cross2, Mul, Way;
    var s, t :| MeetAt(a, b, c, d, s, t);
    OnOwnLine(a, b, s);
    OnOwnLine(c, d, t);
    SideAlong(a, b, c, d, t);
    SideAlong(c, d, a, b, s);
    SignsChange(Cross2(a, b, c), Cross2(a, b, d), t);
    SignsChange(Cross2(c, d, a), Cross2(c, d, b), s);
  }

  /** Segments whose ends lie on opposite sides of each other have a point in common. */
  lemma CrossingIsMeeting(a: Point, b: Point, c: Point, d: Point)
    requires Opposite(Cross2(a, b, c), Cross2(a, b, d)) && Opposite(Cross2(c, d, a), Cross2(c, d, b))
    ensures Meet(a, b, c, d)
  {
    hide Cross2, Way;
    var s := Fraction(Cross2(c, d, a), Cross2(c, d, b));
    var t := Fraction(Cross2(a, b, c), Cross2(a, b, d));
    SideAlong(a, b, c, d, t);
    SideAlong(c, d, a, b, s);
    var p, q := Way(a, b, s), Way(c, d, t);
    OnOwnLine(a, b, s);
    OnOwnLine(c, d, t);
    TwoLines(a, b, c, d, p, q);
    assert MeetAt(a, b, c, d, s, t);
  }

  /** Where a quantity of opposite ends vanishes. */
  lemma Fraction(p: real, q: real) returns (t: real)
    requires Opposite(p, q)
    ensures 0.0 <= t <= 1.0 && p + Mul(t, q - p) == 0.0
  {
    t := p / (p - q);
    assert t * (p - q) == p;
    if p > 0.0 {
      if t < 0.0 { MulPositive(-t, p - q); }
      if t > 1.0 { MulPositive(t - 1.0, p - q); }
      assert (t - 1.0) * (p - q) == q;
    } else {
      if t < 0.0 { MulPositive(-t, q - p); }
      if t > 1.0 { MulPositive(t - 1.0, q - p); }
      assert (t - 1.0) * (q - p) == -q;
    }
  }

  /** Two lines that are not parallel have one point in common. */
  lemma TwoLines(a: Point, b: Point, c: Point, d: Point, p: Point, q: Point)
    requires Opposite(Cross2(a, b, c), Cross2(a, b, d))
    requires Cross2(a, b, p) == 0.0 && Cross2(a, b, q) == 0.0 && Cross2(c, d, p) == 0.0 && Cross2(c, d, q) == 0.0
    ensures p == q
  {
    var x, y := p.x - q.x, p.y - q.y;
    var u, v, m, n := b.x - a.x, b.y - a.y, d.x - c.x, d.y - c.y;
    assert u * y - v * x == 0.0 by { Shift(u, v, p.x - a.x, p.y - a.y, q.x - a.x, q.y - a.y, x, y); }
    assert m * y - n * x == 0.0 by { Shift(m, n, p.x - c.x, p.y - c.y, q.x - c.x, q.y - c.y, x, y); }
    assert u * n - v * m != 0.0 by { Shift(u, v, d.x - a.x, d.y - a.y, c.x - a.x, c.y - a.y, m, n); }
    NoKernel(u, v, m, n, x, y);
  }

  lemma Shift(u: real, v: real, px: real, py: real, qx: real, qy: real, x: real, y: real)
    requires x == px - qx && y == py - qy
    ensures u * y - v * x == (u * py - v * px) - (u * qy - v * qx)
  {
  }

  lemma NoKernel(u: real, v: real, m: real, n: real, x: real, y: real)
    requires u * y - v * x == 0.0 && m * y - n * x == 0.0 && u * n - v * m != 0.0
    ensures x == 0.0 && y == 0.0
  {
    assert x * (u * n - v * m) == u * (n * x - m * y) + m * (u * y - v * x);
    assert y * (u * n - v * m) == n * (u * y - v * x) - v * (m * y - n * x);
  }

  /** In general position the test says exactly whether the segments have a point in common. */
  lemma IntersectsIffMeet(a: Point, b: Point, c: Point, d: Point)
    requires IsGeneral(a, b, c, d)
    ensures Intersects(a, b, c, d) <==> Meet(a, b, c, d)
  {
    hide Cross2, Meet;
    if Meet(a, b, c, d) { MeetingIsSeen(a, b, c, d); }
    if Intersects(a, b, c, d) { CrossingIsMeeting(a, b, c, d); }
  }

  /** An end that lies on the other segment is always seen. */
  lemma TouchingIsSeen(a: Point, b: Point, s: real)
    requires 0.0 <= s <= 1.0
    ensures OnSegment(a, b, Way(a, b, s))
  {
    OnOwnLine(a, b, s);
    hide Cross2;
    Part(b.x - a.x, s);
    Part(b.y - a.y, s);
  }

  /** On the line through the segment's ends and in no coordinate further out than both, to within epsilon. */
  lemma OnSegmentIsNear(a: Point, b: Point, value: Point)
    ensures OnSegment(a, b, value) <==>
            && -0.0000000001 <= Cross2(a, b, value) <= 0.0000000001
            && (value.x - a.x <= 0.0000000001 || value.x - b.x <= 0.0000000001)
            && (a.x - value.x <= 0.0000000001 || b.x - value.x <= 0.0000000001)
            && (value.y - a.y <= 0.0000000001 || value.y - b.y <= 0.0000000001)
            && (a.y - value.y <= 0.0000000001 || b.y - value.y <= 0.0000000001)
  {
    hide Cross2;
  }

  lemma Part(w: real, s: real)
    requires 0.0 <= s <= 1.0
    ensures if w >= 0.0 then 0.0 <= Mul(s, w) <= w else w <= Mul(s, w) <= 0.0
  {
    if w > 0.0 && s > 0.0 { MulPositive(s, w); }
    if w > 0.0 && s < 1.0 { MulPositive(1.0 - s, w); }
    if w < 0.0 && s > 0.0 { MulPositive(s, -w); }
    if w < 0.0 && s < 1.0 { MulPositive(1.0 - s, -w); }
    RestOfWay(s, w);
    RestOfWay(s, -w);
    NegatedFactor(s, w);
  }

  lemma RestOfWay(s: real, w: real)
    ensures Mul(1.0 - s, w) == w - Mul(s, w)
  {
  }

  // ----- Points inside rings -----

  /**
   An edge is crossed exactly when one of its ends is above the value and the other is not, and
   the edge's point at the height of the value lies to the right of it.
   */
  lemma RayMeetsEdge(value: Point, previous: Point, current: Point, s: real)
    requires Mul(s, previous.y - current.y) == value.y - current.y
    ensures RayCrosses(value, previous, current) <==>
            (current.y > value.y <==> previous.y <= value.y) && value.x < current.x + Mul(s, previous.x - current.x)
  {
    if previous.y != current.y {
      var rise, run := previous.y - current.y, previous.x - current.x;
      assert s * rise == value.y - current.y;
      assert run * (value.y - current.y) / rise == s * run by { Crossing(run, value.y - current.y, rise, s); }
    }
  }

  lemma Crossing(run: real, height: real, rise: real, s: real)
    requires rise != 0.0 && s * rise == height
    ensures run * height / rise == s * run
  {
    var share := Share(run * height, rise);
    assert share == run * height / rise;
    hide Share;
    assert run * height == (s * run) * rise;
    SameQuotient(share, s * run, rise);
  }

  lemma SameQuotient(a: real, b: real, rise: real)
    requires rise != 0.0 && a * rise == b * rise
    ensures a == b
  {
    assert (a - b) * rise == 0.0;
  }

  // ----- What a kept triangle covers -----

  /** The two points differ by more than the tolerance in some coordinate. */
  predicate AreApart(a: Point, b: Point) {
    a.x - b.x > EPSILON || b.x - a.x > EPSILON || a.y - b.y > EPSILON || b.y - a.y > EPSILON
  }

  /** The vertex lies at a corner of the triangle, or more than the tolerance to the right of one of its edges. */
  ghost predicate IsClear(points: seq<Point>, t: Tri, v: nat)
    requires t.a < |points| && t.b < |points| && t.c < |points| && v < |points|
  {
    || !AreApart(points[v], points[t.a]) || !AreApart(points[v], points[t.b]) || !AreApart(points[v], points[t.c])
    || Cross2(points[t.a], points[t.b], points[v]) < -EPSILON
    || Cross2(points[t.b], points[t.c], points[v]) < -EPSILON
    || Cross2(points[t.c], points[t.a], points[v]) < -EPSILON
  }

  lemma ClearIsFree(points: seq<Point>, t: Tri, v: nat)
    requires t.a < |points| && t.b < |points| && t.c < |points| && v < |points|
    ensures IsClear(points, t, v) <==> !Occupies(points, t, v)
  {
    hide Cross2;
  }

  ghost predicate CoversNothing(points: seq<Point>, ts: seq<Tri>, i: nat)
    requires TrisInRange(ts, |points|) && i < |ts|
  {
    && TriArea(points, ts[i]) > EPSILON
    && forall j, v :: i < j < |ts| && IsCorner(ts[j], v) ==> IsClear(points, ts[i], v)
  }

  ghost predicate CornersIn(ts: seq<Tri>, loop: seq<nat>) {
    forall j, v :: 0 <= j < |ts| && IsCorner(ts[j], v) ==> v in loop
  }

  lemma {:induction false} ClippingUsesLoop(points: seq<Point>, loop: seq<nat>)
    requires Below(loop, |points|) && ClipFace(points, loop).Some?
    ensures var c := ClipFace(points, loop).value; CornersIn(c.triangles, loop) && TrisInRange(c.triangles, |points|)
    decreases |loop|
  {
    hide RemoveAt, EarAt, IsFaceEar, IsFlat, CornerArea;
    DroppedAreFlat(points, loop);
    if |loop| > 3 {
      var ear := FirstFaceEar(points, loop, 0);
      var cursor := if ear < |loop| then ear else FirstFlat(points, loop, 0);
      RestInLoop(loop, cursor);
      RestBelow(loop, cursor, |points|);
      ClippingUsesLoop(points, RemoveAt(loop, cursor));
    }
  }

  lemma RestBelow(loop: seq<nat>, cursor: nat, n: nat)
    requires Below(loop, n) && cursor < |loop|
    ensures Below(RemoveAt(loop, cursor), n)
  {
  }

  lemma EarIsClear(points: seq<Point>, loop: seq<nat>, cursor: nat)
    requires Below(loop, |points|) && cursor < |loop| && IsFaceEar(points, loop, cursor)
    ensures TriArea(points, EarAt(loop, cursor)) > EPSILON
    ensures forall v :: v in loop ==> IsClear(points, EarAt(loop, cursor), v)
  {
    hide Cross2, TriArea, Occupies, IsClear, Crosses;
    var ear := EarAt(loop, cursor);
    forall v | v in loop ensures IsClear(points, ear, v) {
      var i :| 0 <= i < |loop| && loop[i] == v;
      assert !Occupies(points, ear, loop[i]);
      ClearIsFree(points, ear, v);
    }
  }

  lemma FirstIsClear(points: seq<Point>, ear: Tri, rest: seq<Tri>)
    requires ear.a < |points| && ear.b < |points| && ear.c < |points|
    requires TrisInRange(rest, |points|) && TrisInRange([ear] + rest, |points|)
    requires TriArea(points, ear) > EPSILON
    requires forall j, v :: 0 <= j < |rest| && IsCorner(rest[j], v) ==> IsClear(points, ear, v)
    requires forall i :: 0 <= i < |rest| - 1 ==> CoversNothing(points, rest, i)
    ensures forall i :: 0 <= i < |rest| ==> CoversNothing(points, [ear] + rest, i)
  {
    hide Cross2, IsClear, TriArea;
    var ts := [ear] + rest;
    forall i | 0 <= i < |rest| ensures CoversNothing(points, ts, i) {
      if i > 0 { assert CoversNothing(points, rest, i - 1) && ts[i] == rest[i - 1]; }
      forall j, v | i < j < |ts| && IsCorner(ts[j], v) ensures IsClear(points, ts[i], v) {
        assert ts[j] == rest[j - 1];
      }
    }
  }

  /**
   Every kept triangle but the last winds counter-clockwise by more than the tolerance, and no
   later kept triangle has a corner in it, other than at its own corners.
   */
  lemma {:induction false} KeptCoverNoCorner(points: seq<Point>, loop: seq<nat>)
    requires Below(loop, |points|) && ClipFace(points, loop).Some?
    ensures var ts := ClipFace(points, loop).value.triangles;
      && TrisInRange(ts, |points|) && forall i :: 0 <= i < |ts| - 1 ==> CoversNothing(points, ts, i)
    decreases |loop|
  {
    hide Cross2, IsClear, IsFaceEar, CoversNothing, TriArea, RemoveAt, EarAt, IsFlat, CornerArea;
    ClippingUsesLoop(points, loop);
    if |loop| > 3 {
      var ear := FirstFaceEar(points, loop, 0);
      var cursor := if ear < |loop| then ear else FirstFlat(points, loop, 0);
      RestBelow(loop, cursor, |points|);
      RestInLoop(loop, cursor);
      var rest := RemoveAt(loop, cursor);
      KeptCoverNoCorner(points, rest);
      ClippingUsesLoop(points, rest);
      if ear < |loop| {
        EarIsClear(points, loop, cursor);
        var t := EarAt(loop, cursor);
        assert IsCorner(t, t.a) && IsCorner(t, t.b) && IsCorner(t, t.c);
        FirstIsClear(points, t, ClipFace(points, rest).value.triangles);
      }
    }
  }

  /** The diagonal of an ear meets no step of the polygon in general position that ends elsewhere, nor any such end. */
  lemma DiagonalIsFree(points: seq<Point>, loop: seq<nat>, cursor: nat, i: nat)
    requires Below(loop, |points|) && cursor < |loop| && IsFaceEar(points, loop, cursor) && i < |loop|
    ensures var ear, p, q := EarAt(loop, cursor), loop[i], loop[Next(i, |loop|)];
      p != ear.a && p != ear.c && q != ear.a && q != ear.c ==>
        var a, c, u, v := points[ear.a], points[ear.c], points[p], points[q];
        && (IsGeneral(a, c, u, v) ==> !Meet(a, c, u, v))
        && forall s: real :: 0.0 <= s <= 1.0 ==> Way(a, c, s) != u && Way(a, c, s) != v
  {
    hide Cross2, CornerArea, Occupies, OnSegment, Meet, IsGeneral, Way;
    var ear, p, q := EarAt(loop, cursor), loop[i], loop[Next(i, |loop|)];
    if p != ear.a && p != ear.c && q != ear.a && q != ear.c {
      var a, c, u, v := points[ear.a], points[ear.c], points[p], points[q];
      assert !Crosses(points, ear, p, q);
      if IsGeneral(a, c, u, v) && Meet(a, c, u, v) { MeetingIsSeen(a, c, u, v); }
      forall s: real | 0.0 <= s <= 1.0 ensures Way(a, c, s) != u && Way(a, c, s) != v {
        TouchingIsSeen(a, c, s);
      }
    }
  }

  // ----- When clipping gives up -----

  /** The corner is not flat, but turns right, or its diagonal is cut by a step, or its triangle covers a vertex. */
  ghost predicate IsHeld(points: seq<Point>, loop: seq<nat>, cursor: nat)
    requires Below(loop, |points|) && cursor < |loop|
  {
    var n := |loop|;
    var t := Tri(loop[if cursor == 0 then n - 1 else cursor - 1], loop[cursor],
                 loop[if cursor + 1 == n then 0 else cursor + 1]);
    var area := Cross2(points[t.a], points[t.b], points[t.c]);
    || area < -EPSILON
    || (area > EPSILON && exists v :: v in loop && v < |points| && !IsClear(points, t, v))
    || (area > EPSILON && SomeCut(points, loop, t))
  }

  ghost predicate IsCut(points: seq<Point>, t: Tri, p: nat, q: nat)
    requires t.a < |points| && t.c < |points| && p < |points| && q < |points|
  {
    && p != t.a && p != t.c && q != t.a && q != t.c
    && Intersects(points[t.a], points[t.c], points[p], points[q])
  }

  lemma CoveredIsOccupied(points: seq<Point>, loop: seq<nat>, t: Tri)
    requires Below(loop, |points|) && t.a < |points| && t.b < |points| && t.c < |points|
    ensures (exists v :: v in loop && v < |points| && !IsClear(points, t, v)) <==>
            (exists i :: 0 <= i < |loop| && Occupies(points, t, loop[i]))
  {
    hide IsClear, Occupies;
    forall i | 0 <= i < |loop|
        ensures loop[i] in loop && (IsClear(points, t, loop[i]) <==> !Occupies(points, t, loop[i])) {
      ClearIsFree(points, t, loop[i]);
    }
    assert forall v :: v in loop ==> exists i :: 0 <= i < |loop| && loop[i] == v;
  }

  ghost predicate SomeCut(points: seq<Point>, loop: seq<nat>, t: Tri)
    requires Below(loop, |points|) && t.a < |points| && t.c < |points|
  {
    exists i :: 0 <= i < |loop| && IsCut(points, t, loop[i], loop[if i + 1 == |loop| then 0 else i + 1])
  }

  lemma CutIsCrossed(points: seq<Point>, loop: seq<nat>, t: Tri)
    requires Below(loop, |points|) && t.a < |points| && t.c < |points|
    ensures SomeCut(points, loop, t) <==>
            (exists i :: 0 <= i < |loop| && Crosses(points, t, loop[i], loop[Next(i, |loop|)]))
  {
    hide Intersects;
    if SomeCut(points, loop, t) {
      var i :| 0 <= i < |loop| && IsCut(points, t, loop[i], loop[if i + 1 == |loop| then 0 else i + 1]);
      assert Crosses(points, t, loop[i], loop[Next(i, |loop|)]);
    }
    if i :| 0 <= i < |loop| && Crosses(points, t, loop[i], loop[Next(i, |loop|)]) {
      assert IsCut(points, t, loop[i], loop[if i + 1 == |loop| then 0 else i + 1]);
    }
  }

  lemma HeldIsNoEar(points: seq<Point>, loop: seq<nat>, cursor: nat)
    requires Below(loop, |points|) && cursor < |loop|
    ensures IsHeld(points, loop, cursor) <==>
            !IsFaceEar(points, loop, cursor) && !IsFlat(CornerArea(points, loop, cursor))
  {
    hide Cross2, Intersects, IsClear, Occupies, IsCut, Crosses, SomeCut;
    var t := EarAt(loop, cursor);
    assert t == Tri(loop[if cursor == 0 then |loop| - 1 else cursor - 1], loop[cursor],
                    loop[if cursor + 1 == |loop| then 0 else cursor + 1]);
    CoveredIsOccupied(points, loop, t);
    CutIsCrossed(points, loop, t);
  }

  /**
   A polygon is refused only where dropping some of its vertices leaves more than three, all of
   whose corners are held.
   */
  lemma {:induction false} RefusedFacesStick(points: seq<Point>, loop: seq<nat>)
    requires Below(loop, |points|) && ClipFace(points, loop).None?
    ensures exists rest :: LeftOver(rest, loop) && Below(rest, |points|) && |rest| > 3
              && forall cursor: nat :: cursor < |rest| ==> IsHeld(points, rest, cursor)
    decreases |loop|
  {
    hide IsFaceEar, IsHeld, IsFlat, CornerArea;
    var ear := FirstFaceEar(points, loop, 0);
    var cursor := if ear < |loop| then ear else FirstFlat(points, loop, 0);
    if cursor == |loop| {
      NothingBefore(points, loop, 0);
      forall c: nat | c < |loop| ensures IsHeld(points, loop, c) { HeldIsNoEar(points, loop, c); }
      assert LeftOver(loop, loop);
    } else {
      RestBelow(loop, cursor, |points|);
      var shorter := RemoveAt(loop, cursor);
      RefusedFacesStick(points, shorter);
      var rest :| LeftOver(rest, shorter) && Below(rest, |points|) && |rest| > 3
        && forall c: nat :: c < |rest| ==> IsHeld(points, rest, c);
      LeftOverIsShorter(rest, shorter);
      assert LeftOver(rest, loop);
    }
  }

  lemma {:induction false} NothingBefore(points: seq<Point>, loop: seq<nat>, from: nat)
    requires Below(loop, |points|) && from <= |loop|
    ensures FirstFaceEar(points, loop, from) == |loop| ==>
              forall c: nat :: from <= c < |loop| ==> !IsFaceEar(points, loop, c)
    ensures FirstFlat(points, loop, from) == |loop| ==>
              forall c: nat :: from <= c < |loop| ==> !IsFlat(CornerArea(points, loop, c))
    decreases |loop| - from
  {
    hide IsFaceEar, IsFlat, CornerArea;
    if from < |loop| { NothingBefore(points, loop, from + 1); }
  }

  // ----- Where the bridges run -----

  lemma {:induction false} InsertedHoles(points: seq<Point>, holes: seq<seq<nat>>, hole: seq<nat>)
    requires AllBelow(holes, |points|) && Below(hole, |points|) && hole != []
    ensures multiset(InsertHole(points, holes, hole)) == multiset(holes) + multiset{hole}
  {
    hide Reach;
    if holes != [] && Reach(points, holes[|holes| - 1]) < Reach(points, hole) {
      var front, last := holes[..|holes| - 1], holes[|holes| - 1];
      InsertedHoles(points, front, hole);
      assert holes == front + [last];
    }
  }

  lemma {:induction false} InsertedReach(points: seq<Point>, holes: seq<seq<nat>>, hole: seq<nat>)
    requires AllBelow(holes, |points|) && Below(hole, |points|) && hole != [] && Descends(points, holes)
    ensures Descends(points, InsertHole(points, holes, hole))
  {
    hide Reach;
    if holes != [] && Reach(points, holes[|holes| - 1]) < Reach(points, hole) {
      var front, last := holes[..|holes| - 1], holes[|holes| - 1];
      InsertedReach(points, front, hole);
      InsertedHoles(points, front, hole);
      var r := InsertHole(points, front, hole);
      hide InsertHole;
      forall i | 0 <= i < |r| ensures Reach(points, r[i]) >= Reach(points, last) {
        ReachBeforeLast(points, holes, hole, r[i]);
      }
    }
  }

  lemma ReachBeforeLast(points: seq<Point>, holes: seq<seq<nat>>, hole: seq<nat>, one: seq<nat>)
    requires AllBelow(holes, |points|) && Below(hole, |points|) && hole != [] && Descends(points, holes)
    requires holes != [] && Reach(points, holes[|holes| - 1]) < Reach(points, hole)
    requires one in InsertHole(points, holes[..|holes| - 1], hole)
    ensures Below(one, |points|) && one != [] && Reach(points, one) >= Reach(points, holes[|holes| - 1])
  {
    hide Reach, InsertHole;
    var front := holes[..|holes| - 1];
    InsertedHoles(points, front, hole);
    assert one in multiset(InsertHole(points, front, hole));
    if one != hole {
      assert one in multiset(front);
      var k :| 0 <= k < |front| && front[k] == one;
      assert holes[k] == one;
    }
  }

  /** Holes that reach further right come first. */
  ghost predicate Descends(points: seq<Point>, holes: seq<seq<nat>>)
    requires AllBelow(holes, |points|)
  {
    forall i, j :: 0 <= i < j < |holes| ==> Reach(points, holes[i]) >= Reach(points, holes[j])
  }

  /** The holes are joined from the one that reaches furthest right on, none lost and none invented. */
  lemma {:induction false} ByReachDescends(points: seq<Point>, holes: seq<seq<nat>>)
    requires AllBelow(holes, |points|)
    ensures Descends(points, ByReach(points, holes)) && multiset(ByReach(points, holes)) == multiset(holes)
  {
    hide Reach, InsertHole;
    if holes != [] {
      var front, last := holes[..|holes| - 1], holes[|holes| - 1];
      ByReachDescends(points, front);
      InsertedReach(points, ByReach(points, front), last);
      InsertedHoles(points, ByReach(points, front), last);
      assert holes == front + [last];
    }
  }

  /** The reach of a ring is its greatest x, and the vertex with that x is the lowest such. */
  lemma ReachIsGreatest(points: seq<Point>, ring: seq<nat>, j: nat)
    requires Below(ring, |points|) && j < |ring|
    ensures var at := Rightmost(points, ring, |ring|);
      && Reach(points, ring) == points[ring[at]].x && points[ring[j]].x <= points[ring[at]].x
      && (points[ring[j]].x == points[ring[at]].x ==> points[ring[at]].y <= points[ring[j]].y)
  {
    hide Rightmost;
    assert !Beyond(points[ring[j]], points[ring[Rightmost(points, ring, |ring|)]]);
  }

  /** The vertex lies no further right than another, and no lower when as far right. */
  predicate IsLeftOf(points: seq<Point>, v: nat, other: nat)
    requires v < |points| && other < |points|
  {
    points[v].x < points[other].x || (points[v].x == points[other].x && points[v].y >= points[other].y)
  }

  ghost predicate Avoids(points: seq<Point>, bridge: Bridge, edge: Edge)
    requires bridge.inner < |points| && bridge.outer < |points| && edge.tail < |points| && edge.head < |points|
  {
    edge.tail != bridge.inner && edge.tail != bridge.outer && edge.head != bridge.inner && edge.head != bridge.outer
    ==> !Intersects(points[bridge.inner], points[bridge.outer], points[edge.tail], points[edge.head])
  }

  /**
   The bridge runs from the rightmost, lowest vertex of the hole to a vertex apart from it,
   clear of the edges that end elsewhere and of the earlier bridges.
   */
  ghost predicate RunsClear(points: seq<Point>, hole: seq<nat>, edges: seq<Edge>, bridges: seq<Bridge>, i: nat)
    requires Below(hole, |points|) && EdgesBelow(edges, |points|) && BridgesBelow(bridges, |points|) && i < |bridges|
  {
    var inner, outer := bridges[i].inner, bridges[i].outer;
    && inner in hole && AreApart(points[inner], points[outer])
    && (forall j :: 0 <= j < |hole| ==> IsLeftOf(points, hole[j], inner))
    && (forall k :: 0 <= k < |edges| ==> Avoids(points, bridges[i], edges[k]))
    && forall k :: 0 <= k < i ==>
         !Intersects(points[inner], points[outer], points[bridges[k].inner], points[bridges[k].outer])
  }

  lemma VisibleRunsClear(points: seq<Point>, outline: seq<nat>, holes: seq<seq<nat>>, edges: seq<Edge>,
                         bridges: seq<Bridge>, hole: seq<nat>, outer: nat)
    requires Below(outline, |points|) && AllBelow(holes, |points|) && EdgesBelow(edges, |points|)
    requires BridgesBelow(bridges, |points|) && Below(hole, |points|) && hole != [] && outer < |points|
    requires Visible(points, outline, holes, edges, bridges, hole[Rightmost(points, hole, |hole|)], outer)
    ensures var more := bridges + [Bridge(hole[Rightmost(points, hole, |hole|)], outer)];
            BridgesBelow(more, |points|) && RunsClear(points, hole, edges, more, |bridges|)
  {
    hide Intersects, Rightmost, InsidePolygon;
    var inner := hole[Rightmost(points, hole, |hole|)];
    var more := bridges + [Bridge(inner, outer)];
    forall j | 0 <= j < |hole| ensures IsLeftOf(points, hole[j], inner) {
      ReachIsGreatest(points, hole, j);
    }
    forall k | 0 <= k < |edges| ensures Avoids(points, more[|bridges|], edges[k]) {
      assert !Blocked(points, edges[k], inner, outer);
    }
    forall k | 0 <= k < |bridges|
        ensures !Intersects(points[inner], points[outer], points[bridges[k].inner], points[bridges[k].outer]) {
      assert !Overlaps(points, bridges[k], inner, outer);
    }
  }

  /**
   A segment is visible exactly when its ends are apart, its middle is inside the outline and
   outside every hole, and it is clear of all edges that end elsewhere and of all bridges.
   */
  lemma VisibleInCoordinates(points: seq<Point>, outline: seq<nat>, holes: seq<seq<nat>>, edges: seq<Edge>,
                             bridges: seq<Bridge>, inner: nat, outer: nat, middle: Point)
    requires Below(outline, |points|) && AllBelow(holes, |points|) && EdgesBelow(edges, |points|)
    requires BridgesBelow(bridges, |points|) && inner < |points| && outer < |points|
    requires middle.x + middle.x == points[inner].x + points[outer].x
    requires middle.y + middle.y == points[inner].y + points[outer].y
    ensures Visible(points, outline, holes, edges, bridges, inner, outer) <==>
            && AreApart(points[inner], points[outer]) && InsidePolygon(points, outline, middle)
            && (forall k :: 0 <= k < |holes| ==> !InsidePolygon(points, holes[k], middle))
            && (forall k :: 0 <= k < |edges| ==> Avoids(points, Bridge(inner, outer), edges[k]))
            && forall k :: 0 <= k < |bridges| ==>
                 !Intersects(points[inner], points[outer], points[bridges[k].inner], points[bridges[k].outer])
  {
    hide Intersects, InsidePolygon;
    assert middle == Middle(points[inner], points[outer]);
    forall k | 0 <= k < |edges|
        ensures Avoids(points, Bridge(inner, outer), edges[k]) <==> !Blocked(points, edges[k], inner, outer) {
    }
    forall k | 0 <= k < |bridges|
        ensures Intersects(points[inner], points[outer], points[bridges[k].inner], points[bridges[k].outer])
            <==> Overlaps(points, bridges[k], inner, outer) {
    }
  }

  lemma {:induction false} NearestIsVisible(points: seq<Point>, outline: seq<nat>, holes: seq<seq<nat>>,
                                            edges: seq<Edge>, bridges: seq<Bridge>, inner: nat, k: nat)
    requires Below(outline, |points|) && AllBelow(holes, |points|) && EdgesBelow(edges, |points|)
    requires BridgesBelow(bridges, |points|) && inner < |points| && k <= |outline|
    ensures var r := Nearest(points, outline, holes, edges, bridges, inner, k);
      && (r.Some? ==> Visible(points, outline, holes, edges, bridges, inner, outline[r.value]))
      && forall j :: 0 <= j < k && Visible(points, outline, holes, edges, bridges, inner, outline[j]) ==>
           && r.Some?
           && var best, here := SquaredDistance(points[inner], points[outline[r.value]]),
                                SquaredDistance(points[inner], points[outline[j]]);
              best < here || (best == here && r.value <= j)
  {
    hide Visible, SquaredDistance;
    if k > 0 { NearestIsVisible(points, outline, holes, edges, bridges, inner, k - 1); }
  }

  /** By Pythagoras `q` is no further from `p` than `r` is. */
  predicate IsNearer(p: Point, q: Point, r: Point) {
    var x, y, u, v := q.x - p.x, q.y - p.y, r.x - p.x, r.y - p.y;
    Mul(x, x) + Mul(y, y) <= Mul(u, u) + Mul(v, v)
  }

  lemma NearerByDistance(p: Point, q: Point, r: Point)
    requires SquaredDistance(p, q) <= SquaredDistance(p, r)
    ensures IsNearer(p, q, r)
  {
    SameSquare(p.x - q.x);
    SameSquare(p.y - q.y);
    SameSquare(p.x - r.x);
    SameSquare(p.y - r.y);
  }

  lemma SameSquare(a: real)
    ensures a * a == Mul(-a, -a)
  {
  }

  /** The vertex a hole is joined to is visible, and no other visible one is nearer. */
  lemma NearestIsNearest(points: seq<Point>, outline: seq<nat>, holes: seq<seq<nat>>, edges: seq<Edge>,
                         bridges: seq<Bridge>, inner: nat, j: nat)
    requires Below(outline, |points|) && AllBelow(holes, |points|) && EdgesBelow(edges, |points|)
    requires BridgesBelow(bridges, |points|) && inner < |points| && j < |outline|
    requires Visible(points, outline, holes, edges, bridges, inner, outline[j])
    ensures var r := Nearest(points, outline, holes, edges, bridges, inner, |outline|);
      && r.Some? && Visible(points, outline, holes, edges, bridges, inner, outline[r.value])
      && IsNearer(points[inner], points[outline[r.value]], points[outline[j]])
  {
    hide Visible, SquaredDistance, IsNearer;
    NearestIsVisible(points, outline, holes, edges, bridges, inner, |outline|);
    var r := Nearest(points, outline, holes, edges, bridges, inner, |outline|);
    NearerByDistance(points[inner], points[outline[r.value]], points[outline[j]]);
  }

  /** Every bridge of a joined polygon starts in its hole and runs clear. */
  lemma {:induction false} JoinRunsClear(points: seq<Point>, outline: seq<nat>, holes: seq<seq<nat>>, edges: seq<Edge>,
                                         bridges: seq<Bridge>, k: nat)
    requires Below(outline, |points|) && AllBelow(holes, |points|) && EdgesBelow(edges, |points|)
    requires BridgesBelow(bridges, |points|) && k <= |holes| && |bridges| == k
    requires Join(points, outline, holes, edges, bridges, k).Some?
    requires forall i :: 0 <= i < k ==> RunsClear(points, holes[i], edges, bridges, i)
    ensures var all := Join(points, outline, holes, edges, bridges, k).value.bridges;
      && |all| == |holes| && BridgesBelow(all, |points|)
      && forall i :: 0 <= i < |holes| ==> RunsClear(points, holes[i], edges, all, i)
    decreases |holes| - k
  {
    hide Nearest, Rightmost, Visible, RunsClear;
    if k < |holes| {
      var hole := holes[k];
      var holeAt := Rightmost(points, hole, |hole|);
      var outerAt := Nearest(points, outline, holes, edges, bridges, hole[holeAt], |outline|).value;
      var more := bridges + [Bridge(hole[holeAt], outline[outerAt])];
      NearestIsVisible(points, outline, holes, edges, bridges, hole[holeAt], |outline|);
      VisibleRunsClear(points, outline, holes, edges, bridges, hole, outline[outerAt]);
      forall i | 0 <= i < k ensures RunsClear(points, holes[i], edges, more, i) {
        StillClear(points, holes[i], edges, bridges, more, i);
      }
      BridgedBelow(outline, outerAt, hole, holeAt, |points|);
      JoinRunsClear(points, Bridged(outline, outerAt, hole, holeAt), holes, edges, more, k + 1);
    }
  }

  lemma StillClear(points: seq<Point>, hole: seq<nat>, edges: seq<Edge>, bridges: seq<Bridge>, more: seq<Bridge>,
                   i: nat)
    requires Below(hole, |points|) && EdgesBelow(edges, |points|) && BridgesBelow(bridges, |points|)
    requires BridgesBelow(more, |points|) && bridges <= more && i < |bridges|
    requires RunsClear(points, hole, edges, bridges, i)
    ensures RunsClear(points, hole, edges, more, i)
  {
    hide Intersects, Avoids, IsLeftOf, AreApart;
  }

  /** The step of ring `r` from position `i` is among the edges of the rings. */
  lemma {:induction false} StepIsEdge(rings: seq<seq<nat>>, r: nat, i: nat)
    requires r < |rings| && i < |rings[r]|
    ensures Edge(rings[r][i], rings[r][if i + 1 == |rings[r]| then 0 else i + 1]) in AllEdges(rings)
  {
    var n := |rings| - 1;
    if r < n {
      StepIsEdge(rings[..n], r, i);
    } else {
      StepOfRing(rings[r], |rings[r]|, i);
    }
  }

  lemma {:induction false} StepOfRing(ring: seq<nat>, k: nat, i: nat)
    requires i < k <= |ring|
    ensures Edge(ring[i], ring[if i + 1 == |ring| then 0 else i + 1]) in RingEdges(ring, k)
  {
    if i + 1 < k { StepOfRing(ring, k - 1, i); }
  }

  /**
   A hole's bridge starts at its rightmost vertex, the lowest of those, and intersects no step
   of the outline or of any hole that ends elsewhere, and no earlier bridge; the holes are
   joined from the one that reaches furthest right on.
   */
  lemma BridgesRunClear(points: seq<Point>, outline: seq<nat>, holes: seq<seq<nat>>, i: nat, ring: nat, step: nat)
    requires Below(outline, |points|) && outline != [] && AllBelow(holes, |points|)
    requires Bridging(points, outline, holes).Some? && i < |holes|
    requires ring <= |holes| && step < |([outline] + holes)[ring]|
    ensures var sorted, bridges := ByReach(points, holes), Bridging(points, outline, holes).value.bridges;
      var r := ([outline] + holes)[ring];
      && |bridges| == |holes| && BridgesBelow(bridges, |points|) && EdgesBelow(AllEdges([outline] + holes), |points|)
      && RunsClear(points, sorted[i], AllEdges([outline] + holes), bridges, i)
      && Avoids(points, bridges[i], Edge(r[step], r[if step + 1 == |r| then 0 else step + 1]))
  {
    hide Join, ByReach, AllEdges, RunsClear, Avoids;
    var rings := [outline] + holes;
    AllEdgesBelow(rings, |points|);
    var sorted := ByReach(points, holes);
    JoinRunsClear(points, outline, sorted, AllEdges(rings), [], 0);
    StepIsEdge(rings, ring, step);
    ClearOfEdges(points, sorted[i], AllEdges(rings), Bridging(points, outline, holes).value.bridges, i,
        Edge(rings[ring][step], rings[ring][if step + 1 == |rings[ring]| then 0 else step + 1]));
  }

  lemma ClearOfEdges(points: seq<Point>, hole: seq<nat>, edges: seq<Edge>, bridges: seq<Bridge>, i: nat, edge: Edge)
    requires Below(hole, |points|) && EdgesBelow(edges, |points|) && BridgesBelow(bridges, |points|) && i < |bridges|
    requires RunsClear(points, hole, edges, bridges, i) && edge in edges
    ensures edge.tail < |points| && edge.head < |points| && Avoids(points, bridges[i], edge)
  {
    hide Avoids;
  }
}
