/**
 Planar faces with holes: holes are joined to the outline by bridges walked both ways, and
 the joined polygon is cut into triangles, dropping corners that are flat.
 */
module FaceTriangulation {
  import opened MeshTopology
  import opened Triangulation
  import opened Wrappers

  const EPSILON: real := 0.0000000001

  predicate IsFlat(x: real) {
    -EPSILON <= x <= EPSILON
  }

  predicate Below(loop: seq<nat>, n: nat) {
    forall i :: 0 <= i < |loop| ==> loop[i] < n
  }

  // ----- Sums over directed edges -----

  /** A quantity of directed edges. */
  type Weight = (nat, nat) -> real

  ghost predicate Antisymmetric(w: Weight) {
    forall a: nat, b: nat :: w(a, b) == -w(b, a)
  }

  ghost function PathSum(w: Weight, path: seq<nat>): real {
    if |path| < 2 then 0.0 else PathSum(w, path[..|path| - 1]) + w(path[|path| - 2], path[|path| - 1])
  }

  /** The sum over the edges of a closed walk. */
  ghost function CycleSum(w: Weight, loop: seq<nat>): real {
    if loop == [] then 0.0 else PathSum(w, loop) + w(loop[|loop| - 1], loop[0])
  }

  ghost function TriSum(w: Weight, t: Tri): real {
    w(t.a, t.b) + w(t.b, t.c) + w(t.c, t.a)
  }

  ghost function TrisSum(w: Weight, ts: seq<Tri>): real {
    if ts == [] then 0.0 else TriSum(w, ts[0]) + TrisSum(w, ts[1..])
  }

  ghost function LoopsSum(w: Weight, loops: seq<seq<nat>>): real {
    if loops == [] then 0.0 else LoopsSum(w, loops[..|loops| - 1]) + CycleSum(w, loops[|loops| - 1])
  }

  lemma {:induction false} PathSumConcat(w: Weight, p: seq<nat>, q: seq<nat>)
    requires p != [] && q != []
    ensures PathSum(w, p + q) == PathSum(w, p) + w(p[|p| - 1], q[0]) + PathSum(w, q)
  {
    assert (p + q)[..|p + q| - 1] == p + q[..|q| - 1];
    if |q| == 1 {
      assert p + q[..0] == p;
    } else {
      PathSumConcat(w, p, q[..|q| - 1]);
    }
  }

  /** Where a closed walk starts does not matter. */
  lemma RotatedSum(w: Weight, x: seq<nat>, y: seq<nat>)
    ensures CycleSum(w, y + x) == CycleSum(w, x + y)
  {
    if x == [] || y == [] {
      assert x + y == y + x;
    } else {
      PathSumConcat(w, x, y);
      PathSumConcat(w, y, x);
    }
  }

  /** Walking backwards negates an antisymmetric quantity. */
  function Backwards(loop: seq<nat>): (r: seq<nat>)
    ensures |r| == |loop| && forall i :: 0 <= i < |loop| ==> r[i] == loop[|loop| - 1 - i]
  {
    seq(|loop|, (i: nat) requires i < |loop| => loop[|loop| - 1 - i])
  }

  lemma {:induction false} BackwardsPath(w: Weight, path: seq<nat>)
    requires Antisymmetric(w)
    ensures PathSum(w, Backwards(path)) == -PathSum(w, path)
  {
    if |path| >= 2 {
      var before, last := path[..|path| - 1], path[|path| - 1];
      BackwardsPath(w, before);
      assert Backwards(path) == [last] + Backwards(before);
      PathSumConcat(w, [last], Backwards(before));
      assert w(last, before[|before| - 1]) == -w(before[|before| - 1], last);
    }
  }

  lemma BackwardsSum(w: Weight, loop: seq<nat>)
    requires Antisymmetric(w)
    ensures CycleSum(w, Backwards(loop)) == -CycleSum(w, loop)
  {
    BackwardsPath(w, loop);
    if loop != [] { assert w(loop[0], loop[|loop| - 1]) == -w(loop[|loop| - 1], loop[0]); }
  }

  // ----- Bridging one hole -----

  /** The outline up to a vertex, the hole from a vertex around, and back. */
  function Bridged(outer: seq<nat>, outerAt: nat, hole: seq<nat>, holeAt: nat): (r: seq<nat>)
    requires outerAt < |outer| && holeAt < |hole|
    ensures |r| == |outer| + |hole| + 2
  {
    outer[..outerAt + 1] + (hole[holeAt..] + hole[..holeAt]) + [hole[holeAt], outer[outerAt]] + outer[outerAt + 1..]
  }

  /** Bridging keeps every edge of both walks and adds the bridge once each way. */
  lemma BridgeSum(w: Weight, outer: seq<nat>, outerAt: nat, hole: seq<nat>, holeAt: nat)
    requires outerAt < |outer| && holeAt < |hole|
    ensures CycleSum(w, Bridged(outer, outerAt, hole, holeAt))
         == CycleSum(w, outer) + CycleSum(w, hole) + w(outer[outerAt], hole[holeAt]) + w(hole[holeAt], outer[outerAt])
  {
    hide PathSum;
    var a, b, around := outer[..outerAt + 1], outer[outerAt + 1..], hole[holeAt..] + hole[..holeAt];
    var h, o := hole[holeAt], outer[outerAt];
    RotatedSum(w, hole[..holeAt], hole[holeAt..]);
    assert hole == hole[..holeAt] + hole[holeAt..];
    TwoPoints(w, h, o);
    PathSumConcat(w, a, around);
    PathSumConcat(w, a + around, [h, o]);
    assert outer == a + b;
    var joined := a + around + [h, o];
    assert Bridged(outer, outerAt, hole, holeAt) == joined + b;
    if b == [] {
      assert a + b == a && joined + b == joined;
    } else {
      PathSumConcat(w, a, b);
      PathSumConcat(w, joined, b);
    }
  }

  lemma TwoPoints(w: Weight, a: nat, b: nat)
    ensures PathSum(w, [a, b]) == w(a, b)
  {
    assert PathSum(w, [a, b][..1]) == 0.0;
  }

  // ----- Predicates of the plane -----

  predicate Same(a: Point, b: Point) {
    IsFlat(a.x - b.x) && IsFlat(a.y - b.y)
  }

  predicate Between(low: real, high: real, value: real) {
    if low <= high then low - EPSILON <= value <= high + EPSILON else high - EPSILON <= value <= low + EPSILON
  }

  predicate OnSegment(a: Point, b: Point, value: Point) {
    IsFlat(Cross2(a, b, value)) && Between(a.x, b.x, value.x) && Between(a.y, b.y, value.y)
  }

  predicate Opposite(x: real, y: real) {
    (x > EPSILON && y < -EPSILON) || (x < -EPSILON && y > EPSILON)
  }

  predicate Intersects(a: Point, b: Point, c: Point, d: Point) {
    || (Opposite(Cross2(a, b, c), Cross2(a, b, d)) && Opposite(Cross2(c, d, a), Cross2(c, d, b)))
    || OnSegment(a, b, c) || OnSegment(a, b, d) || OnSegment(c, d, a) || OnSegment(c, d, b)
  }

  predicate InsideTriangle(value: Point, a: Point, b: Point, c: Point) {
    Cross2(a, b, value) >= -EPSILON && Cross2(b, c, value) >= -EPSILON && Cross2(c, a, value) >= -EPSILON
  }

  /** The edge from one point to the next crosses the ray to the right of a value. */
  predicate RayCrosses(value: Point, previous: Point, current: Point) {
    && (current.y > value.y) != (previous.y > value.y)
    && value.x < (previous.x - current.x) * (value.y - current.y) / (previous.y - current.y) + current.x
  }

  function Crossings(points: seq<Point>, ring: seq<nat>, value: Point, k: nat): nat
    requires Below(ring, |points|) && k <= |ring|
  {
    if k == 0 then 0
    else
      Crossings(points, ring, value, k - 1)
      + if RayCrosses(value, points[ring[if k == 1 then |ring| - 1 else k - 2]], points[ring[k - 1]]) then 1 else 0
  }

  /** The ray to the right of the value crosses the ring an odd number of times. */
  predicate InsidePolygon(points: seq<Point>, ring: seq<nat>, value: Point)
    requires Below(ring, |points|)
  {
    Crossings(points, ring, value, |ring|) % 2 == 1
  }

  method IsInsidePolygon(points: seq<Point>, ring: seq<nat>, value: Point) returns (inside: bool)
    requires Below(ring, |points|) && ring != []
    ensures inside == InsidePolygon(points, ring, value)
  {
    hide RayCrosses;
    inside := false;
    var previous := points[ring[|ring| - 1]];
    for k := 0 to |ring|
      invariant inside == (Crossings(points, ring, value, k) % 2 == 1)
      invariant previous == points[ring[if k == 0 then |ring| - 1 else k - 1]]
    {
      var current := points[ring[k]];
      if RayCrosses(value, previous, current) { inside := !inside; }
      previous := current;
    }
  }

  // ----- Clipping -----

  /** A step of the polygon apart from the ear's ends crosses the ear's diagonal. */
  predicate Crosses(points: seq<Point>, ear: Tri, first: nat, second: nat)
    requires ear.a < |points| && ear.c < |points| && first < |points| && second < |points|
  {
    && first != ear.a && first != ear.c && second != ear.a && second != ear.c
    && Intersects(points[ear.a], points[ear.c], points[first], points[second])
  }

  predicate Occupies(points: seq<Point>, ear: Tri, candidate: nat)
    requires ear.a < |points| && ear.b < |points| && ear.c < |points| && candidate < |points|
  {
    var a, b, c, value := points[ear.a], points[ear.b], points[ear.c], points[candidate];
    !Same(value, a) && !Same(value, b) && !Same(value, c) && InsideTriangle(value, a, b, c)
  }

  function CornerArea(points: seq<Point>, loop: seq<nat>, cursor: nat): real
    requires Below(loop, |points|) && cursor < |loop|
  {
    TriArea(points, EarAt(loop, cursor))
  }

  /** A convex corner whose diagonal is free and whose triangle is empty. */
  ghost predicate IsFaceEar(points: seq<Point>, loop: seq<nat>, cursor: nat)
    requires Below(loop, |points|) && cursor < |loop|
  {
    var ear := EarAt(loop, cursor);
    && CornerArea(points, loop, cursor) > EPSILON
    && (forall i :: 0 <= i < |loop| ==> !Crosses(points, ear, loop[i], loop[Next(i, |loop|)]))
    && (forall i :: 0 <= i < |loop| ==> !Occupies(points, ear, loop[i]))
  }

  ghost function FirstFaceEar(points: seq<Point>, loop: seq<nat>, from: nat): (cursor: nat)
    requires Below(loop, |points|) && from <= |loop|
    ensures from <= cursor <= |loop| && (cursor < |loop| ==> IsFaceEar(points, loop, cursor))
    decreases |loop| - from
  {
    if from == |loop| || IsFaceEar(points, loop, from) then from else FirstFaceEar(points, loop, from + 1)
  }

  ghost function FirstFlat(points: seq<Point>, loop: seq<nat>, from: nat): (cursor: nat)
    requires Below(loop, |points|) && from <= |loop|
    ensures from <= cursor <= |loop| && (cursor < |loop| ==> IsFlat(CornerArea(points, loop, cursor)))
    decreases |loop| - from
  {
    if from == |loop| || IsFlat(CornerArea(points, loop, from)) then from else FirstFlat(points, loop, from + 1)
  }

  /** The triangles kept, and the flat corners dropped on the way. */
  datatype Clipping = Clipping(triangles: seq<Tri>, dropped: seq<Tri>)

  ghost function Kept(t: Tri, rest: Option<Clipping>): Option<Clipping> {
    if rest.None? then None else Some(Clipping([t] + rest.value.triangles, rest.value.dropped))
  }

  ghost function Dropped(t: Tri, rest: Option<Clipping>): Option<Clipping> {
    if rest.None? then None else Some(Clipping(rest.value.triangles, [t] + rest.value.dropped))
  }

  /** Clips the first ear, or drops the first flat corner when there is none; `None` when there is neither. */
  ghost function ClipFace(points: seq<Point>, loop: seq<nat>): Option<Clipping>
    requires Below(loop, |points|)
    decreases |loop|
  {
    if |loop| < 3 then Some(Clipping([], []))
    else if |loop| == 3 then
      var last := Tri(loop[0], loop[1], loop[2]);
      if IsFlat(TriArea(points, last)) then Some(Clipping([], [last])) else Some(Clipping([last], []))
    else
      var ear := FirstFaceEar(points, loop, 0);
      if ear < |loop| then Kept(EarAt(loop, ear), ClipFace(points, RemoveAt(loop, ear)))
      else
        var flat := FirstFlat(points, loop, 0);
        if flat < |loop| then Dropped(EarAt(loop, flat), ClipFace(points, RemoveAt(loop, flat))) else None
  }

  /** What was kept and dropped before, ahead of the rest. */
  ghost function After(triangles: seq<Tri>, dropped: seq<Tri>, rest: Option<Clipping>): Option<Clipping> {
    if rest.None? then None else Some(Clipping(triangles + rest.value.triangles, dropped + rest.value.dropped))
  }

  lemma AfterSteps(triangles: seq<Tri>, dropped: seq<Tri>, t: Tri, rest: Option<Clipping>)
    ensures After(triangles, dropped, Kept(t, rest)) == After(triangles + [t], dropped, rest)
    ensures After(triangles, dropped, Dropped(t, rest)) == After(triangles, dropped + [t], rest)
  {
    if rest.Some? {
      assert triangles + ([t] + rest.value.triangles) == (triangles + [t]) + rest.value.triangles;
      assert dropped + ([t] + rest.value.dropped) == (dropped + [t]) + rest.value.dropped;
    }
  }

  lemma AfterNothing(rest: Option<Clipping>)
    ensures After([], [], rest) == rest
  {
    if rest.Some? {
      assert [] + rest.value.triangles == rest.value.triangles;
      assert [] + rest.value.dropped == rest.value.dropped;
    }
  }

  method EarClip(points: seq<Point>, outline: seq<nat>) returns (triangles: Option<seq<Tri>>, ghost dropped: seq<Tri>)
    requires Below(outline, |points|) && |outline| >= 3
    ensures triangles.Some? <==> ClipFace(points, outline).Some?
    ensures triangles.Some? ==> ClipFace(points, outline) == Some(Clipping(triangles.value, dropped))
  {
    hide IsFaceEar, CornerArea, IsFlat;
    var polygon, kept: seq<Tri> := outline, [];
    dropped := [];
    AfterNothing(ClipFace(points, outline));
    while |polygon| > 3
      invariant Below(polygon, |points|) && |polygon| >= 3
      invariant ClipFace(points, outline) == After(kept, dropped, ClipFace(points, polygon))
      decreases |polygon|
    {
      var cursor := FindFaceEar(points, polygon);
      if cursor < |polygon| {
        AfterSteps(kept, dropped, EarAt(polygon, cursor), ClipFace(points, RemoveAt(polygon, cursor)));
        kept := kept + [EarAt(polygon, cursor)];
      } else {
        cursor := FindFlat(points, polygon);
        if cursor == |polygon| { return None, dropped; }
        AfterSteps(kept, dropped, EarAt(polygon, cursor), ClipFace(points, RemoveAt(polygon, cursor)));
        dropped := dropped + [EarAt(polygon, cursor)];
      }
      polygon := RemoveAt(polygon, cursor);
    }
    var last := Tri(polygon[0], polygon[1], polygon[2]);
    assert kept + [] == kept && dropped + [] == dropped;
    if IsFlat(TriArea(points, last)) {
      dropped := dropped + [last];
    } else {
      kept := kept + [last];
    }
    return Some(kept), dropped;
  }

  method FindFaceEar(points: seq<Point>, polygon: seq<nat>) returns (cursor: nat)
    requires Below(polygon, |points|)
    ensures cursor == FirstFaceEar(points, polygon, 0)
  {
    hide Crosses, Occupies;
    cursor := 0;
    while cursor < |polygon|
      invariant cursor <= |polygon| && FirstFaceEar(points, polygon, 0) == FirstFaceEar(points, polygon, cursor)
    {
      if CornerArea(points, polygon, cursor) > EPSILON {
        var crossed := SomeCross(points, polygon, EarAt(polygon, cursor));
        if !crossed {
          var occupied := SomeOccupy(points, polygon, EarAt(polygon, cursor));
          if !occupied { return cursor; }
        }
      }
      cursor := cursor + 1;
    }
  }

  method SomeCross(points: seq<Point>, polygon: seq<nat>, ear: Tri) returns (crossed: bool)
    requires Below(polygon, |points|) && ear.a < |points| && ear.c < |points|
    ensures crossed <==> exists i :: 0 <= i < |polygon| && Crosses(points, ear, polygon[i], polygon[Next(i, |polygon|)])
  {
    hide Crosses;
    for k := 0 to |polygon|
      invariant forall i :: 0 <= i < k ==> !Crosses(points, ear, polygon[i], polygon[Next(i, |polygon|)])
    {
      if Crosses(points, ear, polygon[k], polygon[Next(k, |polygon|)]) { return true; }
    }
    return false;
  }

  method SomeOccupy(points: seq<Point>, polygon: seq<nat>, ear: Tri) returns (occupied: bool)
    requires Below(polygon, |points|) && ear.a < |points| && ear.b < |points| && ear.c < |points|
    ensures occupied <==> exists i :: 0 <= i < |polygon| && Occupies(points, ear, polygon[i])
  {
    hide Occupies;
    for k := 0 to |polygon|
      invariant forall i :: 0 <= i < k ==> !Occupies(points, ear, polygon[i])
    {
      if Occupies(points, ear, polygon[k]) { return true; }
    }
    return false;
  }

  method FindFlat(points: seq<Point>, polygon: seq<nat>) returns (cursor: nat)
    requires Below(polygon, |points|)
    ensures cursor == FirstFlat(points, polygon, 0)
  {
    hide CornerArea, IsFlat;
    cursor := 0;
    while cursor < |polygon|
      invariant cursor <= |polygon| && FirstFlat(points, polygon, 0) == FirstFlat(points, polygon, cursor)
    {
      if IsFlat(CornerArea(points, polygon, cursor)) { return cursor; }
      cursor := cursor + 1;
    }
  }

  // ----- What clipping conserves -----

  /** Cutting a corner off removes its triangle from every antisymmetric sum. */
  lemma CornerSum(w: Weight, loop: seq<nat>, cursor: nat)
    requires Antisymmetric(w) && |loop| >= 2 && cursor < |loop|
    ensures CycleSum(w, loop) == CycleSum(w, RemoveAt(loop, cursor)) + TriSum(w, EarAt(loop, cursor))
  {
    hide PathSum;
    var p, v, q := loop[..cursor], loop[cursor], loop[cursor + 1..];
    RotatedSum(w, p, [v] + q);
    RotatedSum(w, p, q);
    var rest := q + p;
    assert loop == p + ([v] + q) && ([v] + q) + p == [v] + rest && RemoveAt(loop, cursor) == p + q;
    PathSumConcat(w, [v], rest);
    OnePoint(w, v);
    assert EarAt(loop, cursor) == Tri(rest[|rest| - 1], v, rest[0]);
    assert w(rest[0], rest[|rest| - 1]) == -w(rest[|rest| - 1], rest[0]);
  }

  lemma OnePoint(w: Weight, v: nat)
    ensures PathSum(w, [v]) == 0.0
  {
  }

  lemma TriangleSum(w: Weight, loop: seq<nat>)
    requires |loop| == 3
    ensures CycleSum(w, loop) == TriSum(w, Tri(loop[0], loop[1], loop[2]))
  {
    TwoPoints(w, loop[0], loop[1]);
    assert loop[..2] == [loop[0], loop[1]];
  }

  /**
   Whatever antisymmetric quantity of edges is summed, the triangles kept and dropped account
   for the polygon's; they are two fewer than its corners, and every dropped one is flat.
   */
  lemma {:induction false} ClippingAccounts(w: Weight, points: seq<Point>, loop: seq<nat>)
    requires Antisymmetric(w) && Below(loop, |points|) && |loop| >= 3 && ClipFace(points, loop).Some?
    ensures var c := ClipFace(points, loop).value;
      && CycleSum(w, loop) == TrisSum(w, c.triangles) + TrisSum(w, c.dropped)
      && |c.triangles| + |c.dropped| == |loop| - 2
    decreases |loop|
  {
    hide CycleSum, TriSum, IsFlat, IsFaceEar, Antisymmetric;
    var c := ClipFace(points, loop).value;
    if |loop| == 3 {
      TriangleSum(w, loop);
      var last := Tri(loop[0], loop[1], loop[2]);
      assert [last][1..] == [];
    } else {
      var ear := FirstFaceEar(points, loop, 0);
      var cursor := if ear < |loop| then ear else FirstFlat(points, loop, 0);
      var rest := ClipFace(points, RemoveAt(loop, cursor)).value;
      ClippingAccounts(w, points, RemoveAt(loop, cursor));
      CornerSum(w, loop, cursor);
      assert ([EarAt(loop, cursor)] + rest.triangles)[1..] == rest.triangles;
      assert ([EarAt(loop, cursor)] + rest.dropped)[1..] == rest.dropped;
    }
  }

  ghost predicate AllFlat(points: seq<Point>, ts: seq<Tri>) {
    TrisInRange(ts, |points|) && forall i :: 0 <= i < |ts| ==> IsFlat(TriArea(points, ts[i]))
  }

  lemma {:induction false} DroppedAreFlat(points: seq<Point>, loop: seq<nat>)
    requires Below(loop, |points|) && ClipFace(points, loop).Some?
    ensures AllFlat(points, ClipFace(points, loop).value.dropped)
    ensures TrisInRange(ClipFace(points, loop).value.triangles, |points|)
    decreases |loop|
  {
    hide IsFaceEar, IsFlat, Cross2;
    if |loop| > 3 {
      var ear := FirstFaceEar(points, loop, 0);
      var cursor := if ear < |loop| then ear else FirstFlat(points, loop, 0);
      DroppedAreFlat(points, RemoveAt(loop, cursor));
    }
  }

  // ----- Area -----

  /** Twice the signed area swept by an edge. */
  ghost function ShearOf(points: seq<Point>): Weight {
    (a: nat, b: nat) => if a < |points| && b < |points| then Shear(points[a], points[b]) else 0.0
  }

  lemma ShearIsAntisymmetric(points: seq<Point>)
    ensures Antisymmetric(ShearOf(points))
  {
    var w := ShearOf(points);
    forall a: nat, b: nat ensures w(a, b) == -w(b, a) {
      if a < |points| && b < |points| { ShearReversed(points[a], points[b]); }
    }
  }

  /** Twice the signed area of a closed walk over the points. */
  ghost function LoopArea(points: seq<Point>, loop: seq<nat>): real {
    CycleSum(ShearOf(points), loop)
  }

  lemma TriShear(points: seq<Point>, t: Tri)
    requires t.a < |points| && t.b < |points| && t.c < |points|
    ensures TriSum(ShearOf(points), t) == TriArea(points, t)
  {
    hide Shear, Cross2;
    ShearTriangle(points[t.a], points[t.b], points[t.c]);
  }

  lemma {:induction false} TrisShear(points: seq<Point>, ts: seq<Tri>)
    requires TrisInRange(ts, |points|)
    ensures TrisSum(ShearOf(points), ts) == TrisArea(points, ts)
  {
    if ts != [] {
      TriShear(points, ts[0]);
      TrisShear(points, ts[1..]);
    }
  }

  lemma {:induction false} FlatArea(points: seq<Point>, ts: seq<Tri>)
    requires AllFlat(points, ts)
    ensures -(|ts| as real) * EPSILON <= TrisArea(points, ts) <= (|ts| as real) * EPSILON
  {
    if ts != [] {
      assert AllFlat(points, ts[1..]);
      FlatArea(points, ts[1..]);
      assert IsFlat(TriArea(points, ts[0]));
    }
  }

  /** Clipping keeps twice the area of the polygon up to one epsilon for every dropped corner. */
  lemma ClippedArea(points: seq<Point>, loop: seq<nat>)
    requires Below(loop, |points|) && |loop| >= 3 && ClipFace(points, loop).Some?
    ensures var c := ClipFace(points, loop).value;
      var slack := (|c.dropped| as real) * EPSILON;
      TrisInRange(c.triangles, |points|) && -slack <= TrisArea(points, c.triangles) - LoopArea(points, loop) <= slack
  {
    hide ClipFace, CycleSum, TrisSum, TrisArea, AllFlat, Antisymmetric, Below;
    var c := ClipFace(points, loop).value;
    ShearIsAntisymmetric(points);
    ClippingAccounts(ShearOf(points), points, loop);
    DroppedAreFlat(points, loop);
    InRangeOf(points, c.dropped);
    TrisShear(points, c.triangles);
    TrisShear(points, c.dropped);
    FlatArea(points, c.dropped);
  }

  lemma InRangeOf(points: seq<Point>, ts: seq<Tri>)
    requires AllFlat(points, ts)
    ensures TrisInRange(ts, |points|)
  {
  }

  /** The loop area is the shoelace sum of the vertex list. */
  lemma {:induction false} PathAreaIsShear(points: seq<Point>, path: seq<nat>)
    requires Below(path, |points|)
    ensures PathSum(ShearOf(points), path) == PathShear(points, path)
  {
    if |path| >= 2 { PathAreaIsShear(points, path[..|path| - 1]); }
  }

  lemma LoopAreaIsDouble(points: seq<Point>, loop: seq<nat>)
    requires Below(loop, |points|)
    ensures LoopArea(points, loop) == DoubleArea(points, loop)
  {
    PathAreaIsShear(points, loop);
  }
}
