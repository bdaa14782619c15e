/**
 The ear-clipping triangulator of planar contours: which triangles it emits, that they
 tile the contour as an oriented disc, and that they conserve its area.
 */
module Triangulation {
  import opened MeshTopology
  import opened Wrappers

  datatype Point = Point(x: real, y: real)

  const EAR_EPSILON: real := 0.000000000001

  // ----- Signed area -----

  function Shear(a: Point, b: Point): real {
    a.x * b.y - b.x * a.y
  }

  function PartialArea(points: seq<Point>, k: nat): real
    requires k <= |points|
  {
    if k == 0 then 0.0 else PartialArea(points, k - 1) + Shear(points[k - 1], points[Next(k - 1, |points|)])
  }

  function SignedArea(points: seq<Point>): real {
    PartialArea(points, |points|) / 2.0
  }

  method ComputeSignedArea(points: seq<Point>) returns (area: real)
    ensures area == SignedArea(points)
  {
    area := 0.0;
    for index := 0 to |points|
      invariant area == PartialArea(points, index)
    {
      var current, next := points[index], points[Next(index, |points|)];
      area := area + (current.x * next.y - next.x * current.y);
    }
    area := area / 2.0;
  }

  // ----- Ears -----

  function Cross2(a: Point, b: Point, c: Point): real {
    (b.x - a.x) * (c.y - a.y) - (b.y - a.y) * (c.x - a.x)
  }

  predicate PointInTriangle(point: Point, a: Point, b: Point, c: Point) {
    Cross2(a, b, point) >= -EAR_EPSILON && Cross2(b, c, point) >= -EAR_EPSILON && Cross2(c, a, point) >= -EAR_EPSILON
  }

  /** A list of at least three distinct vertex numbers below `n`. */
  ghost predicate Contour(loop: seq<nat>, n: nat) {
    |loop| >= 3 && Distinct(loop) && forall i :: 0 <= i < |loop| ==> loop[i] < n
  }

  function Previous(i: nat, n: nat): nat
    requires n > 0
  {
    if i == 0 then n - 1 else i - 1
  }

  /** The candidate ear at a cursor: the cursor's vertex between its two neighbours. */
  function EarAt(loop: seq<nat>, cursor: nat): Tri
    requires cursor < |loop|
  {
    Tri(loop[Previous(cursor, |loop|)], loop[cursor], loop[Next(cursor, |loop|)])
  }

  ghost predicate Blocks(points: seq<Point>, ear: Tri, candidate: nat)
    requires ear.a < |points| && ear.b < |points| && ear.c < |points| && candidate < |points|
  {
    && candidate != ear.a && candidate != ear.b && candidate != ear.c
    && PointInTriangle(points[candidate], points[ear.a], points[ear.b], points[ear.c])
  }

  /** The cursor's vertex is strictly convex and no other remaining vertex lies in its triangle. */
  ghost predicate IsEar(points: seq<Point>, loop: seq<nat>, cursor: nat)
    requires Contour(loop, |points|) && cursor < |loop|
  {
    var ear := EarAt(loop, cursor);
    && Cross2(points[ear.a], points[ear.b], points[ear.c]) > EAR_EPSILON
    && forall i :: 0 <= i < |loop| ==> !Blocks(points, ear, loop[i])
  }

  /** The first ear at or after a cursor, or the length of the list when there is none. */
  ghost function FirstEar(points: seq<Point>, loop: seq<nat>, from: nat): (cursor: nat)
    requires Contour(loop, |points|) && from <= |loop|
    ensures from <= cursor <= |loop|
    ensures cursor < |loop| ==> IsEar(points, loop, cursor)
    ensures forall i :: from <= i < cursor ==> !IsEar(points, loop, i)
    decreases |loop| - from
  {
    if from == |loop| || IsEar(points, loop, from) then from else FirstEar(points, loop, from + 1)
  }

  function RemoveAt(loop: seq<nat>, cursor: nat): (rest: seq<nat>)
    requires cursor < |loop|
    ensures |rest| == |loop| - 1
  {
    loop[..cursor] + loop[cursor + 1..]
  }

  lemma RemoveKeepsContour(loop: seq<nat>, cursor: nat, n: nat)
    requires Contour(loop, n) && |loop| > 3 && cursor < |loop|
    ensures Contour(RemoveAt(loop, cursor), n)
  {
  }

  /** Clips the first ear until three vertices are left; `None` when no ear remains. */
  ghost function ClipEars(points: seq<Point>, loop: seq<nat>): Option<seq<Tri>>
    requires Contour(loop, |points|)
    decreases |loop|
  {
    if |loop| == 3 then Some([Tri(loop[0], loop[1], loop[2])])
    else
      var cursor := FirstEar(points, loop, 0);
      if cursor == |loop| then None
      else
        RemoveKeepsContour(loop, cursor, |points|);
        Prepend([EarAt(loop, cursor)], ClipEars(points, RemoveAt(loop, cursor)))
  }

  function Prepend(first: seq<Tri>, rest: Option<seq<Tri>>): Option<seq<Tri>> {
    if rest.Some? then Some(first + rest.value) else None
  }

  lemma PrependNothing(rest: Option<seq<Tri>>)
    ensures Prepend([], rest) == rest
  {
    if rest.Some? { assert [] + rest.value == rest.value; }
  }

  lemma PrependTwice(first: seq<Tri>, second: seq<Tri>, rest: Option<seq<Tri>>)
    ensures Prepend(first, Prepend(second, rest)) == Prepend(first + second, rest)
  {
    if rest.Some? { assert first + (second + rest.value) == (first + second) + rest.value; }
  }

  function Ascending(n: nat): (s: seq<nat>)
    ensures |s| == n && forall i :: 0 <= i < n ==> s[i] == i
  {
    seq(n, (i: nat) => i)
  }

  function Descending(n: nat): (s: seq<nat>)
    ensures |s| == n && forall i :: 0 <= i < n ==> s[i] == n - 1 - i
  {
    seq(n, (i: nat) requires i < n => n - 1 - i)
  }

  /** The vertex order the triangulator starts from: counter-clockwise in the plane. */
  ghost function StartOrder(points: seq<Point>): seq<nat> {
    if SignedArea(points) < 0.0 then Descending(|points|) else Ascending(|points|)
  }

  lemma StartOrderIsContour(points: seq<Point>)
    requires |points| >= 3
    ensures Contour(StartOrder(points), |points|)
  {
  }

  ghost function TriangulationOf(points: seq<Point>): Option<seq<Tri>> {
    if |points| < 3 then None
    else
      StartOrderIsContour(points);
      ClipEars(points, StartOrder(points))
  }

  method Triangulate(points: seq<Point>) returns (result: Option<seq<Tri>>)
    ensures result == TriangulationOf(points)
  {
    if |points| < 3 { return None; }
    var remaining: seq<nat> := Ascending(|points|);
    var area := ComputeSignedArea(points);
    if area < 0.0 { remaining := Descending(|points|); }
    StartOrderIsContour(points);
    var triangles: seq<Tri> := [];
    PrependNothing(ClipEars(points, remaining));
    while |remaining| > 3
      invariant Contour(remaining, |points|)
      invariant TriangulationOf(points) == Prepend(triangles, ClipEars(points, remaining))
      decreases |remaining|
    {
      var cursor := FindEar(points, remaining);
      if cursor == |remaining| { return None; }
      RemoveKeepsContour(remaining, cursor, |points|);
      PrependTwice(triangles, [EarAt(remaining, cursor)], ClipEars(points, RemoveAt(remaining, cursor)));
      triangles := triangles + [EarAt(remaining, cursor)];
      remaining := RemoveAt(remaining, cursor);
    }
    return Some(triangles + [Tri(remaining[0], remaining[1], remaining[2])]);
  }

  /** The cursor of the first ear, or the number of remaining vertices when there is none. */
  method FindEar(points: seq<Point>, remaining: seq<nat>) returns (cursor: nat)
    requires Contour(remaining, |points|)
    ensures cursor == FirstEar(points, remaining, 0)
  {
    cursor := 0;
    while cursor < |remaining|
      invariant cursor <= |remaining|
      invariant FirstEar(points, remaining, 0) == FirstEar(points, remaining, cursor)
    {
      var ear := EarAt(remaining, cursor);
      if Cross2(points[ear.a], points[ear.b], points[ear.c]) > EAR_EPSILON {
        var contains := SomeBlocks(points, remaining, ear);
        if !contains { return cursor; }
      }
      cursor := cursor + 1;
    }
  }

  method SomeBlocks(points: seq<Point>, loop: seq<nat>, ear: Tri) returns (contains: bool)
    requires Contour(loop, |points|)
    requires ear.a < |points| && ear.b < |points| && ear.c < |points|
    ensures contains <==> exists i :: 0 <= i < |loop| && Blocks(points, ear, loop[i])
  {
    for index := 0 to |loop|
      invariant forall i :: 0 <= i < index ==> !Blocks(points, ear, loop[i])
    {
      var candidate := loop[index];
      if candidate != ear.a && candidate != ear.b && candidate != ear.c {
        if PointInTriangle(points[candidate], points[ear.a], points[ear.b], points[ear.c]) {
          assert Blocks(points, ear, loop[index]);
          return true;
        }
      }
    }
    return false;
  }

  // ----- The triangles form an oriented disc -----

  lemma CycleAfterRemoval(loop: seq<nat>, cursor: nat, e: Edge)
    requires Distinct(loop) && |loop| > 3 && cursor < |loop|
    ensures var ear := EarAt(loop, cursor);
            CycleHas(RemoveAt(loop, cursor), e) <==>
            e == Edge(ear.a, ear.c) || (CycleHas(loop, e) && e.tail != ear.b && e.head != ear.b)
  {
    var n, rest, ear := |loop|, RemoveAt(loop, cursor), EarAt(loop, cursor);
    if CycleHas(rest, e) {
      var i :| 0 <= i < n - 1 && e == Edge(rest[i], rest[Next(i, n - 1)]);
      SurvivingStep(loop, cursor, i);
    }
    if CycleHas(loop, e) && e.tail != ear.b && e.head != ear.b {
      KeptStep(loop, cursor, e);
    }
    SurvivingStep(loop, cursor, if cursor == 0 then n - 2 else cursor - 1);
  }

  /** A step away from the removed vertex is still there. */
  lemma KeptStep(loop: seq<nat>, cursor: nat, e: Edge)
    requires Distinct(loop) && |loop| > 3 && cursor < |loop|
    requires CycleHas(loop, e) && e.tail != loop[cursor] && e.head != loop[cursor]
    ensures CycleHas(RemoveAt(loop, cursor), e)
  {
    hide RemoveAt, EarAt;
    var n := |loop|;
    var j :| 0 <= j < n && e == Edge(loop[j], loop[Next(j, n)]);
    SurvivingStep(loop, cursor, if j < cursor then j else j - 1);
  }

  /** Where the step from position `i` of the shortened list came from. */
  lemma SurvivingStep(loop: seq<nat>, cursor: nat, i: nat)
    requires Distinct(loop) && |loop| > 3 && cursor < |loop| && i < |loop| - 1
    ensures var n, rest, ear := |loop|, RemoveAt(loop, cursor), EarAt(loop, cursor);
      var step := Edge(rest[i], rest[Next(i, n - 1)]);
      var j := if i < cursor then i else i + 1;
      && CycleHas(rest, step)
      && if Next(j, n) == cursor then step == Edge(ear.a, ear.c)
         else
           step == Edge(loop[j], loop[Next(j, n)]) && step.tail != ear.b && step.head != ear.b
           && CycleHas(loop, step)
  {
  }

  lemma CycleOfEar(loop: seq<nat>, cursor: nat, e: Edge)
    requires Distinct(loop) && |loop| > 3 && cursor < |loop|
    ensures var ear := EarAt(loop, cursor);
      && CycleHas(loop, Edge(ear.a, ear.b)) && CycleHas(loop, Edge(ear.b, ear.c))
      && (CycleHas(loop, e) && (e.tail == ear.b || e.head == ear.b) ==>
          e == Edge(ear.a, ear.b) || e == Edge(ear.b, ear.c))
      && !CycleHas(loop, Edge(ear.a, ear.c)) && !CycleHas(loop, Edge(ear.c, ear.a))
  {
    var n, ear := |loop|, EarAt(loop, cursor);
    var p := Previous(cursor, n);
    assert Edge(loop[p], loop[Next(p, n)]) == Edge(ear.a, ear.b);
    assert Edge(loop[cursor], loop[Next(cursor, n)]) == Edge(ear.b, ear.c);
  }

  /** Clipping an ear off a polygon whose remainder is triangulated as a disc. */
  lemma ClippedDisc(loop: seq<nat>, cursor: nat, ts: seq<Tri>)
    requires Distinct(loop) && |loop| > 3 && cursor < |loop|
    requires Disc(RemoveAt(loop, cursor), ts)
    ensures Disc(loop, [EarAt(loop, cursor)] + ts)
  {
    var rest, ear := RemoveAt(loop, cursor), EarAt(loop, cursor);
    var all := [ear] + ts;
    forall e: Edge ensures DiscEdge(loop, all, e) {
      ClippedEdge(loop, cursor, ts, e);
    }
  }

  lemma ClippedEdge(loop: seq<nat>, cursor: nat, ts: seq<Tri>, e: Edge)
    requires Distinct(loop) && |loop| > 3 && cursor < |loop|
    requires Disc(RemoveAt(loop, cursor), ts)
    ensures DiscEdge(loop, [EarAt(loop, cursor)] + ts, e)
  {
    var rest, ear, r := RemoveAt(loop, cursor), EarAt(loop, cursor), Rev(e);
    CountConcat([ear], ts, e);
    CountConcat([ear], ts, r);
    CountOne([], ear, e);
    CountOne([], ear, r);
    assert [] + [ear] == [ear];
    CycleAfterRemoval(loop, cursor, e);
    CycleAfterRemoval(loop, cursor, r);
    CycleOfEar(loop, cursor, e);
    CycleOfEar(loop, cursor, r);
    assert Rev(r) == e;
    assert DiscEdge(rest, ts, e) && DiscEdge(rest, ts, r);
    assert ear.b !in rest;
    assert forall v :: v in rest ==> v in loop;
    assert ear.a in loop && ear.b in loop && ear.c in loop;
    assert ear.a != ear.b && ear.b != ear.c && ear.a != ear.c;
    assert Count(ts, e) > 0 ==> e.tail in rest && e.head in rest;
    assert Count(ts, r) > 0 ==> r.tail in rest && r.head in rest;
  }

  lemma TriangleDisc(loop: seq<nat>)
    requires Distinct(loop) && |loop| == 3
    ensures Disc(loop, [Tri(loop[0], loop[1], loop[2])])
  {
    var t := Tri(loop[0], loop[1], loop[2]);
    assert loop[0] in loop && loop[1] in loop && loop[2] in loop;
    forall e: Edge ensures Count([t], e) == TriCount(t, e) {
      CountOne([], t, e);
      assert [] + [t] == [t];
    }
    forall e: Edge ensures CycleHas(loop, e) <==> e == Edge(t.a, t.b) || e == Edge(t.b, t.c) || e == Edge(t.c, t.a) {
      assert Edge(loop[0], loop[Next(0, 3)]) == Edge(t.a, t.b);
      assert Edge(loop[1], loop[Next(1, 3)]) == Edge(t.b, t.c);
      assert Edge(loop[2], loop[Next(2, 3)]) == Edge(t.c, t.a);
    }
  }

  /** Ear clipping tiles the polygon with two triangles fewer than it has vertices. */
  lemma {:induction false} EarsFormDisc(points: seq<Point>, loop: seq<nat>)
    requires Contour(loop, |points|) && ClipEars(points, loop).Some?
    ensures |ClipEars(points, loop).value| == |loop| - 2
    ensures Disc(loop, ClipEars(points, loop).value)
    decreases |loop|
  {
    if |loop| == 3 {
      TriangleDisc(loop);
    } else {
      var cursor := FirstEar(points, loop, 0);
      RemoveKeepsContour(loop, cursor, |points|);
      EarsFormDisc(points, RemoveAt(loop, cursor));
      ClippedDisc(loop, cursor, ClipEars(points, RemoveAt(loop, cursor)).value);
    }
  }

  // ----- The triangles conserve the area -----

  /** Twice the signed area of the polygon a vertex list describes. */
  function PathShear(points: seq<Point>, path: seq<nat>): real
    requires forall i :: 0 <= i < |path| ==> path[i] < |points|
  {
    if |path| < 2 then 0.0
    else PathShear(points, path[..|path| - 1]) + Shear(points[path[|path| - 2]], points[path[|path| - 1]])
  }

  function DoubleArea(points: seq<Point>, loop: seq<nat>): real
    requires forall i :: 0 <= i < |loop| ==> loop[i] < |points|
  {
    if loop == [] then 0.0 else PathShear(points, loop) + Shear(points[loop[|loop| - 1]], points[loop[0]])
  }

  function TriArea(points: seq<Point>, t: Tri): real
    requires t.a < |points| && t.b < |points| && t.c < |points|
  {
    Cross2(points[t.a], points[t.b], points[t.c])
  }

  ghost predicate TrisInRange(ts: seq<Tri>, n: nat) {
    forall i :: 0 <= i < |ts| ==> ts[i].a < n && ts[i].b < n && ts[i].c < n
  }

  /** Twice the signed area of a list of triangles. */
  ghost function TrisArea(points: seq<Point>, ts: seq<Tri>): real
    requires TrisInRange(ts, |points|)
  {
    if ts == [] then 0.0 else TriArea(points, ts[0]) + TrisArea(points, ts[1..])
  }

  lemma {:induction false} PathConcat(points: seq<Point>, p: seq<nat>, q: seq<nat>)
    requires forall i :: 0 <= i < |p| ==> p[i] < |points|
    requires forall i :: 0 <= i < |q| ==> q[i] < |points|
    requires p != [] && q != []
    ensures PathShear(points, p + q)
              == PathShear(points, p) + Shear(points[p[|p| - 1]], points[q[0]]) + PathShear(points, q)
  {
    assert (p + q)[..|p + q| - 1] == p + q[..|q| - 1];
    if |q| == 1 {
      assert p + q[..0] == p;
    } else {
      PathConcat(points, p, q[..|q| - 1]);
    }
  }

  lemma ShearTriangle(a: Point, b: Point, c: Point)
    ensures Cross2(a, b, c) == Shear(a, b) + Shear(b, c) + Shear(c, a)
    ensures Shear(a, c) == -Shear(c, a)
  {
  }

  /** The area of a polygon listed as a vertex between two stretches, either possibly empty. */
  lemma AreaAround(points: seq<Point>, p: seq<nat>, v: nat, q: seq<nat>)
    requires forall i :: 0 <= i < |p| ==> p[i] < |points|
    requires forall i :: 0 <= i < |q| ==> q[i] < |points|
    requires p + q != [] && v < |points|
    ensures var before, after := if p != [] then p[|p| - 1] else q[|q| - 1], if q != [] then q[0] else p[0];
      DoubleArea(points, p + ([v] + q)) ==
      DoubleArea(points, p + q) + TriArea(points, Tri(before, v, after))
  {
    hide Cross2, Shear;
    ShearTriangle(points[if p != [] then p[|p| - 1] else q[|q| - 1]], points[v],
        points[if q != [] then q[0] else p[0]]);
    var tail := [v] + q;
    if q != [] { PathConcat(points, [v], q); } else { assert tail == [v]; }
    if p != [] { PathConcat(points, p, tail); } else { assert p + tail == tail && p + q == q; }
    if p != [] && q != [] { PathConcat(points, p, q); }
    if q == [] { assert p + q == p; }
  }

  /** Removing a vertex removes exactly the signed area of its ear. */
  lemma RemovedArea(points: seq<Point>, loop: seq<nat>, cursor: nat)
    requires Contour(loop, |points|) && |loop| > 3 && cursor < |loop|
    ensures DoubleArea(points, loop) ==
            DoubleArea(points, RemoveAt(loop, cursor)) + TriArea(points, EarAt(loop, cursor))
  {
    hide Cross2;
    var p, q, ear := loop[..cursor], loop[cursor + 1..], EarAt(loop, cursor);
    AreaAround(points, p, ear.b, q);
    assert loop == p + ([ear.b] + q);
    assert ear == Tri(if p != [] then p[|p| - 1] else q[|q| - 1], ear.b, if q != [] then q[0] else p[0]);
  }

  lemma TriangleArea(points: seq<Point>, loop: seq<nat>)
    requires Contour(loop, |points|) && |loop| == 3
    ensures TrisArea(points, [Tri(loop[0], loop[1], loop[2])]) == DoubleArea(points, loop)
  {
    ShearTriangle(points[loop[0]], points[loop[1]], points[loop[2]]);
    assert loop[..2] == [loop[0], loop[1]];
    assert PathShear(points, [loop[0], loop[1]][..1]) == 0.0;
    assert PathShear(points, [loop[0], loop[1]]) == Shear(points[loop[0]], points[loop[1]]);
    assert TrisArea(points, [Tri(loop[0], loop[1], loop[2])][1..]) == 0.0;
  }

  lemma {:induction false} EarsConserveArea(points: seq<Point>, loop: seq<nat>)
    requires Contour(loop, |points|) && ClipEars(points, loop).Some?
    ensures TrisInRange(ClipEars(points, loop).value, |points|)
    ensures TrisArea(points, ClipEars(points, loop).value) == DoubleArea(points, loop)
    decreases |loop|
  {
    var ts := ClipEars(points, loop).value;
    if |loop| == 3 {
      TriangleArea(points, loop);
    } else {
      var cursor := FirstEar(points, loop, 0);
      RemoveKeepsContour(loop, cursor, |points|);
      EarsConserveArea(points, RemoveAt(loop, cursor));
      RemovedArea(points, loop, cursor);
      assert ts[1..] == ClipEars(points, RemoveAt(loop, cursor)).value;
    }
  }

  /** Following the contour in its own order adds up its shears; against it, their negatives. */
  lemma {:induction false} AscendingShear(points: seq<Point>, path: seq<nat>)
    requires 1 <= |path| <= |points| && forall i :: 0 <= i < |path| ==> path[i] == i
    ensures PathShear(points, path) == PartialArea(points, |path| - 1)
  {
    if |path| > 1 {
      AscendingShear(points, path[..|path| - 1]);
    }
  }

  lemma {:induction false} DescendingShear(points: seq<Point>, path: seq<nat>)
    requires 1 <= |path| <= |points| && forall i :: 0 <= i < |path| ==> path[i] == |path| - 1 - i
    ensures PathShear(points, path) == -PartialArea(points, |path| - 1)
  {
    if |path| > 1 {
      var k := |path| - 1;
      DescendingShear(points, path[1..]);
      assert path == [k] + path[1..];
      PathConcat(points, [k], path[1..]);
      ShearReversed(points[k], points[k - 1]);
    }
  }

  lemma ShearReversed(a: Point, b: Point)
    ensures Shear(a, b) == -Shear(b, a)
  {
  }

  /** The start order winds counter-clockwise: its area is the absolute area of the contour. */
  lemma StartOrderArea(points: seq<Point>)
    requires |points| >= 3
    ensures DoubleArea(points, StartOrder(points)) == 2.0 * AbsoluteArea(points)
  {
    var n := |points|;
    if SignedArea(points) < 0.0 {
      DescendingShear(points, Descending(n));
      ShearReversed(points[0], points[n - 1]);
    } else {
      AscendingShear(points, Ascending(n));
    }
  }

  function AbsoluteArea(points: seq<Point>): real {
    if SignedArea(points) < 0.0 then -SignedArea(points) else SignedArea(points)
  }

  /**
   Whatever contour the triangulator accepts, it returns two triangles fewer than there
   are vertices, tiling the contour as a counter-clockwise disc whose signed areas add up
   to the absolute area of the contour.
   */
  lemma TriangulationIsSound(points: seq<Point>)
    requires TriangulationOf(points).Some?
    ensures var ts := TriangulationOf(points).value;
      && |ts| == |points| - 2 && TrisInRange(ts, |points|)
      && Disc(StartOrder(points), ts)
      && TrisArea(points, ts) == 2.0 * AbsoluteArea(points)
  {
    var loop := StartOrder(points);
    StartOrderIsContour(points);
    EarsFormDisc(points, loop);
    EarsConserveArea(points, loop);
    StartOrderArea(points);
  }

  // ----- No triangle covers another vertex -----

  ghost predicate IsCorner(t: Tri, v: nat) {
    v == t.a || v == t.b || v == t.c
  }

  /** The vertex lies more than the tolerance to the right of one of the triangle's edges. */
  ghost predicate StandsClear(points: seq<Point>, t: Tri, v: nat)
    requires t.a < |points| && t.b < |points| && t.c < |points| && v < |points|
  {
    || Cross2(points[t.a], points[t.b], points[v]) < -EAR_EPSILON
    || Cross2(points[t.b], points[t.c], points[v]) < -EAR_EPSILON
    || Cross2(points[t.c], points[t.a], points[v]) < -EAR_EPSILON
  }

  /** The triangle winds counter-clockwise by more than the tolerance and covers no later vertex. */
  ghost predicate CoversNothing(points: seq<Point>, ts: seq<Tri>, i: nat)
    requires TrisInRange(ts, |points|) && i < |ts|
  {
    && TriArea(points, ts[i]) > EAR_EPSILON
    && forall j, v :: i < j < |ts| && IsCorner(ts[j], v) && !IsCorner(ts[i], v) ==> StandsClear(points, ts[i], v)
  }

  lemma EarStandsClear(points: seq<Point>, loop: seq<nat>, cursor: nat)
    requires Contour(loop, |points|) && cursor < |loop| && IsEar(points, loop, cursor)
    ensures var ear := EarAt(loop, cursor);
      && TriArea(points, ear) > EAR_EPSILON
      && forall v :: v in loop && !IsCorner(ear, v) ==> StandsClear(points, ear, v)
  {
    hide Cross2;
    var ear := EarAt(loop, cursor);
    forall v | v in loop && !IsCorner(ear, v) ensures StandsClear(points, ear, v) {
      var i :| 0 <= i < |loop| && loop[i] == v;
      assert !Blocks(points, ear, loop[i]);
    }
  }

  lemma FirstCoversNothing(points: seq<Point>, ear: Tri, rest: seq<Tri>)
    requires ear.a < |points| && ear.b < |points| && ear.c < |points|
    requires TrisInRange(rest, |points|) && TrisInRange([ear] + rest, |points|)
    requires TriArea(points, ear) > EAR_EPSILON
    requires forall j, v :: 0 <= j < |rest| && IsCorner(rest[j], v) && !IsCorner(ear, v) ==>
               StandsClear(points, ear, v)
    requires forall i :: 0 <= i < |rest| - 1 ==> CoversNothing(points, rest, i)
    ensures forall i :: 0 <= i < |rest| ==> CoversNothing(points, [ear] + rest, i)
  {
    hide Cross2, StandsClear, TriArea;
    var ts := [ear] + rest;
    forall i | 0 <= i < |rest| ensures CoversNothing(points, ts, i) {
      if i > 0 { assert CoversNothing(points, rest, i - 1) && ts[i] == rest[i - 1]; }
      forall j, v | i < j < |ts| && IsCorner(ts[j], v) && !IsCorner(ts[i], v)
          ensures StandsClear(points, ts[i], v) {
        assert ts[j] == rest[j - 1];
      }
    }
  }

  lemma RestInLoop(loop: seq<nat>, cursor: nat)
    requires cursor < |loop|
    ensures forall v :: v in RemoveAt(loop, cursor) ==> v in loop
    ensures forall v :: IsCorner(EarAt(loop, cursor), v) ==> v in loop
  {
  }

  ghost predicate CornersIn(ts: seq<Tri>, loop: seq<nat>) {
    forall j, v :: 0 <= j < |ts| && IsCorner(ts[j], v) ==> v in loop
  }

  lemma {:induction false} EarsUseLoop(points: seq<Point>, loop: seq<nat>)
    requires Contour(loop, |points|) && ClipEars(points, loop).Some?
    ensures CornersIn(ClipEars(points, loop).value, loop) && TrisInRange(ClipEars(points, loop).value, |points|)
    decreases |loop|
  {
    hide RemoveAt, EarAt, IsEar;
    if |loop| > 3 {
      var cursor := FirstEar(points, loop, 0);
      RemoveKeepsContour(loop, cursor, |points|);
      RestInLoop(loop, cursor);
      EarsUseLoop(points, RemoveAt(loop, cursor));
      var ear := EarAt(loop, cursor);
      assert IsCorner(ear, ear.a) && IsCorner(ear, ear.b) && IsCorner(ear, ear.c);
    }
  }

  lemma {:induction false} EarsStandClear(points: seq<Point>, loop: seq<nat>)
    requires Contour(loop, |points|) && ClipEars(points, loop).Some?
    ensures var ts := ClipEars(points, loop).value;
      && TrisInRange(ts, |points|) && forall i :: 0 <= i < |ts| - 1 ==> CoversNothing(points, ts, i)
    decreases |loop|
  {
    hide Cross2, StandsClear, IsEar, CoversNothing, TriArea, RemoveAt, EarAt;
    EarsUseLoop(points, loop);
    if |loop| > 3 {
      var cursor := FirstEar(points, loop, 0);
      RemoveKeepsContour(loop, cursor, |points|);
      var rest, ear := RemoveAt(loop, cursor), EarAt(loop, cursor);
      EarsStandClear(points, rest);
      EarsUseLoop(points, rest);
      EarStandsClear(points, loop, cursor);
      RestInLoop(loop, cursor);
      assert IsCorner(ear, ear.a) && IsCorner(ear, ear.b) && IsCorner(ear, ear.c);
      FirstCoversNothing(points, ear, ClipEars(points, rest).value);
    }
  }

  /**
   In every triangulation, each triangle but the last winds counter-clockwise by more than
   the tolerance, and every corner of a later triangle that is not its own lies outside it,
   more than the tolerance off one of its edges.
   */
  lemma TrianglesCoverNoCorner(points: seq<Point>)
    requires TriangulationOf(points).Some?
    ensures var ts := TriangulationOf(points).value;
      && TrisInRange(ts, |points|)
      && (forall i :: 0 <= i < |ts| - 1 ==> TriArea(points, ts[i]) > EAR_EPSILON)
      && forall i, j, v :: 0 <= i < j < |ts| && IsCorner(ts[j], v) && !IsCorner(ts[i], v) ==>
           StandsClear(points, ts[i], v)
  {
    hide Cross2, StandsClear;
    StartOrderIsContour(points);
    EarsStandClear(points, StartOrder(points));
    var ts := TriangulationOf(points).value;
    forall i | 0 <= i < |ts| - 1 ensures TriArea(points, ts[i]) > EAR_EPSILON {
      assert CoversNothing(points, ts, i);
    }
    forall i, j, v | 0 <= i < j < |ts| && IsCorner(ts[j], v) && !IsCorner(ts[i], v)
        ensures StandsClear(points, ts[i], v) {
      assert CoversNothing(points, ts, i);
    }
  }

  // ----- When the triangulator gives up -----

  /** The corner is flat or turns right, or its triangle holds another vertex of the polygon. */
  ghost predicate IsStuck(points: seq<Point>, loop: seq<nat>, cursor: nat)
    requires Contour(loop, |points|) && cursor < |loop|
  {
    var n := |loop|;
    var t := Tri(loop[if cursor == 0 then n - 1 else cursor - 1], loop[cursor],
                 loop[if cursor + 1 == n then 0 else cursor + 1]);
    || Cross2(points[t.a], points[t.b], points[t.c]) <= EAR_EPSILON
    || exists v :: v in loop && !IsCorner(t, v) && !StandsClear(points, t, v)
  }

  lemma StuckIsNoEar(points: seq<Point>, loop: seq<nat>, cursor: nat)
    requires Contour(loop, |points|) && cursor < |loop|
    ensures IsStuck(points, loop, cursor) <==> !IsEar(points, loop, cursor)
  {
    hide Cross2, TriArea;
    var ear := EarAt(loop, cursor);
    if IsEar(points, loop, cursor) { EarStandsClear(points, loop, cursor); }
    if !IsStuck(points, loop, cursor) {
      assert ear == Tri(loop[if cursor == 0 then |loop| - 1 else cursor - 1], loop[cursor],
                        loop[if cursor + 1 == |loop| then 0 else cursor + 1]);
      forall i | 0 <= i < |loop| ensures !Blocks(points, ear, loop[i]) {
        assert loop[i] in loop;
        assert IsCorner(ear, loop[i]) || StandsClear(points, ear, loop[i]);
      }
    }
  }

  /** The polygon is left over when some vertices, and nothing else, are dropped from the list. */
  ghost predicate LeftOver(rest: seq<nat>, loop: seq<nat>) {
    if |rest| >= |loop| then rest == loop
    else exists cursor: nat :: cursor < |loop| && LeftOver(rest, RemoveAt(loop, cursor))
  }

  /** Clipping gives up exactly where some polygon left over has more than three corners and none is an ear. */
  lemma {:induction false} ClippingSticks(points: seq<Point>, loop: seq<nat>)
    requires Contour(loop, |points|) && ClipEars(points, loop).None?
    ensures exists rest :: LeftOver(rest, loop) && Contour(rest, |points|) && |rest| > 3
              && forall cursor: nat :: cursor < |rest| ==> IsStuck(points, rest, cursor)
    decreases |loop|
  {
    hide IsEar, IsStuck;
    var cursor := FirstEar(points, loop, 0);
    if cursor == |loop| {
      forall c: nat | c < |loop| ensures IsStuck(points, loop, c) { StuckIsNoEar(points, loop, c); }
      assert LeftOver(loop, loop);
    } else {
      RemoveKeepsContour(loop, cursor, |points|);
      var shorter := RemoveAt(loop, cursor);
      ClippingSticks(points, shorter);
      var rest :| LeftOver(rest, shorter) && Contour(rest, |points|) && |rest| > 3
        && forall c: nat :: c < |rest| ==> IsStuck(points, rest, c);
      assert |rest| < |loop| by { LeftOverIsShorter(rest, shorter); }
      assert LeftOver(rest, loop);
    }
  }

  lemma {:induction false} LeftOverIsShorter(rest: seq<nat>, loop: seq<nat>)
    requires LeftOver(rest, loop)
    ensures |rest| <= |loop|
  {
  }

  /**
   A contour is refused when it has fewer than three vertices, or when clipping leaves over a
   polygon of more than three vertices every corner of which is flat, turns right, or holds
   another vertex in its triangle.
   */
  lemma RefusedContoursStick(points: seq<Point>)
    requires |points| >= 3 && TriangulationOf(points).None?
    ensures exists rest :: LeftOver(rest, StartOrder(points)) && Contour(rest, |points|) && |rest| > 3
              && forall cursor: nat :: cursor < |rest| ==> IsStuck(points, rest, cursor)
  {
    StartOrderIsContour(points);
    ClippingSticks(points, StartOrder(points));
  }
}
