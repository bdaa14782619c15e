/**
 Joining the holes of a planar face to its outline, and triangulating the joined polygon:
 the triangles bound what the outline and the holes bound, and keep its area.
 */
module FaceBridging {
  import opened FaceTriangulation
  import opened MeshTopology
  import opened Triangulation
  import opened Vectors
  import opened Wrappers

  datatype Bridge = Bridge(inner: nat, outer: nat)

  ghost predicate AllBelow(loops: seq<seq<nat>>, n: nat) {
    forall k :: 0 <= k < |loops| ==> Below(loops[k], n) && loops[k] != []
  }

  ghost predicate EdgesBelow(edges: seq<Edge>, n: nat) {
    forall k :: 0 <= k < |edges| ==> edges[k].tail < n && edges[k].head < n
  }

  ghost predicate BridgesBelow(bridges: seq<Bridge>, n: nat) {
    forall k :: 0 <= k < |bridges| ==> bridges[k].inner < n && bridges[k].outer < n
  }

  // ----- Where a hole can be reached -----

  function Middle(a: Point, b: Point): Point {
    Point((a.x + b.x) / 2.0, (a.y + b.y) / 2.0)
  }

  predicate Blocked(points: seq<Point>, edge: Edge, inner: nat, outer: nat)
    requires edge.tail < |points| && edge.head < |points| && inner < |points| && outer < |points|
  {
    && edge.tail != inner && edge.head != inner && edge.tail != outer && edge.head != outer
    && Intersects(points[inner], points[outer], points[edge.tail], points[edge.head])
  }

  predicate Overlaps(points: seq<Point>, bridge: Bridge, inner: nat, outer: nat)
    requires bridge.inner < |points| && bridge.outer < |points| && inner < |points| && outer < |points|
  {
    Intersects(points[inner], points[outer], points[bridge.inner], points[bridge.outer])
  }

  /** The segment lies in the face: inside the outline, outside every hole, free of edges and bridges. */
  ghost predicate Visible(points: seq<Point>, outline: seq<nat>, holes: seq<seq<nat>>, edges: seq<Edge>,
                          bridges: seq<Bridge>,
                          inner: nat, outer: nat)
    requires Below(outline, |points|) && AllBelow(holes, |points|) && EdgesBelow(edges, |points|)
    requires BridgesBelow(bridges, |points|)
    requires inner < |points| && outer < |points|
  {
    var middle := Middle(points[inner], points[outer]);
    && !Same(points[inner], points[outer]) && InsidePolygon(points, outline, middle)
    && (forall k :: 0 <= k < |holes| ==> !InsidePolygon(points, holes[k], middle))
    && (forall k :: 0 <= k < |edges| ==> !Blocked(points, edges[k], inner, outer))
    && (forall k :: 0 <= k < |bridges| ==> !Overlaps(points, bridges[k], inner, outer))
  }

  function SquaredDistance(a: Point, b: Point): real {
    (a.x - b.x) * (a.x - b.x) + (a.y - b.y) * (a.y - b.y)
  }

  /** The nearest visible position among the first `k` of the outline; the first of equals. */
  ghost function Nearest(points: seq<Point>, outline: seq<nat>, holes: seq<seq<nat>>, edges: seq<Edge>,
                         bridges: seq<Bridge>,
                         inner: nat, k: nat): (r: Option<nat>)
    requires Below(outline, |points|) && AllBelow(holes, |points|) && EdgesBelow(edges, |points|)
    requires BridgesBelow(bridges, |points|)
    requires inner < |points| && k <= |outline|
    ensures r.Some? ==> r.value < k
  {
    if k == 0 then None
    else
      var before := Nearest(points, outline, holes, edges, bridges, inner, k - 1);
      if !Visible(points, outline, holes, edges, bridges, inner, outline[k - 1]) then before
      else if before.None?
          || SquaredDistance(points[inner], points[outline[k - 1]])
             < SquaredDistance(points[inner], points[outline[before.value]])
      then Some(k - 1)
      else before
  }

  method IsVisible(points: seq<Point>, outline: seq<nat>, holes: seq<seq<nat>>, edges: seq<Edge>, bridges: seq<Bridge>,
                   inner: nat, outer: nat) returns (visible: bool)
    requires Below(outline, |points|) && AllBelow(holes, |points|) && EdgesBelow(edges, |points|)
    requires BridgesBelow(bridges, |points|)
    requires inner < |points| && outer < |points| && outline != []
    ensures visible == Visible(points, outline, holes, edges, bridges, inner, outer)
  {
    hide InsidePolygon, Blocked, Overlaps, Same, Middle;
    if Same(points[inner], points[outer]) { return false; }
    var middle := Middle(points[inner], points[outer]);
    var inside := IsInsidePolygon(points, outline, middle);
    if !inside { return false; }
    for k := 0 to |holes|
      invariant forall j :: 0 <= j < k ==> !InsidePolygon(points, holes[j], middle)
    {
      var inHole := IsInsidePolygon(points, holes[k], middle);
      if inHole { return false; }
    }
    for k := 0 to |edges|
      invariant forall j :: 0 <= j < k ==> !Blocked(points, edges[j], inner, outer)
    {
      if Blocked(points, edges[k], inner, outer) { return false; }
    }
    for k := 0 to |bridges|
      invariant forall j :: 0 <= j < k ==> !Overlaps(points, bridges[j], inner, outer)
    {
      if Overlaps(points, bridges[k], inner, outer) { return false; }
    }
    return true;
  }

  method FindNearest(points: seq<Point>, outline: seq<nat>, holes: seq<seq<nat>>, edges: seq<Edge>,
                     bridges: seq<Bridge>, inner: nat)
    returns (nearest: Option<nat>)
    requires Below(outline, |points|) && AllBelow(holes, |points|) && EdgesBelow(edges, |points|)
    requires BridgesBelow(bridges, |points|)
    requires inner < |points|
    ensures nearest == Nearest(points, outline, holes, edges, bridges, inner, |outline|)
  {
    hide Visible, SquaredDistance;
    nearest := None;
    for k := 0 to |outline|
      invariant nearest == Nearest(points, outline, holes, edges, bridges, inner, k)
    {
      var visible := IsVisible(points, outline, holes, edges, bridges, inner, outline[k]);
      if visible {
        if nearest.None? ||
           SquaredDistance(points[inner], points[outline[k]])
           < SquaredDistance(points[inner], points[outline[nearest.value]])
        {
          nearest := Some(k);
        }
      }
    }
  }

  // ----- The order of the holes -----

  /** Further right, or as far right and lower. */
  predicate Beyond(a: Point, b: Point) {
    a.x > b.x || (a.x == b.x && a.y < b.y)
  }

  /** The position of the rightmost vertex, the lowest of equals. */
  function Rightmost(points: seq<Point>, ring: seq<nat>, k: nat): (at: nat)
    requires Below(ring, |points|) && 1 <= k <= |ring|
    ensures at < k && forall j :: 0 <= j < k ==> !Beyond(points[ring[j]], points[ring[at]])
  {
    if k == 1 then 0
    else
      var before := Rightmost(points, ring, k - 1);
      if Beyond(points[ring[k - 1]], points[ring[before]]) then k - 1 else before
  }

  function Reach(points: seq<Point>, ring: seq<nat>): real
    requires Below(ring, |points|) && ring != []
  {
    points[ring[Rightmost(points, ring, |ring|)]].x
  }

  function InsertHole(points: seq<Point>, holes: seq<seq<nat>>, hole: seq<nat>): (r: seq<seq<nat>>)
    requires AllBelow(holes, |points|) && Below(hole, |points|) && hole != []
    ensures AllBelow(r, |points|) && |r| == |holes| + 1
    ensures forall w: Weight :: LoopsSum(w, r) == LoopsSum(w, holes) + CycleSum(w, hole)
  {
    if holes == [] || Reach(points, holes[|holes| - 1]) >= Reach(points, hole) then
      assert (holes + [hole])[..|holes|] == holes;
      holes + [hole]
    else
      var front := InsertHole(points, holes[..|holes| - 1], hole);
      assert (front + [holes[|holes| - 1]])[..|front|] == front;
      front + [holes[|holes| - 1]]
  }

  /** The hole that reaches furthest right comes first. */
  function ByReach(points: seq<Point>, holes: seq<seq<nat>>): (r: seq<seq<nat>>)
    requires AllBelow(holes, |points|)
    ensures AllBelow(r, |points|) && |r| == |holes|
    ensures forall w: Weight :: LoopsSum(w, r) == LoopsSum(w, holes)
  {
    if holes == [] then [] else InsertHole(points, ByReach(points, holes[..|holes| - 1]), holes[|holes| - 1])
  }

  // ----- Bridging all holes -----

  datatype Joined = Joined(polygon: seq<nat>, bridges: seq<Bridge>)

  ghost function Join(points: seq<Point>, outline: seq<nat>, holes: seq<seq<nat>>, edges: seq<Edge>,
                      bridges: seq<Bridge>, k: nat): Option<Joined>
    requires Below(outline, |points|) && AllBelow(holes, |points|) && EdgesBelow(edges, |points|)
    requires BridgesBelow(bridges, |points|)
    requires k <= |holes|
    decreases |holes| - k
  {
    if k == |holes| then Some(Joined(outline, bridges))
    else
      var hole := holes[k];
      var holeAt := Rightmost(points, hole, |hole|);
      var outerAt := Nearest(points, outline, holes, edges, bridges, hole[holeAt], |outline|);
      if outerAt.None? then None
      else
        BridgedBelow(outline, outerAt.value, hole, holeAt, |points|);
        Join(points, Bridged(outline, outerAt.value, hole, holeAt), holes, edges,
             bridges + [Bridge(hole[holeAt], outline[outerAt.value])], k + 1)
  }

  lemma BridgedBelow(outer: seq<nat>, outerAt: nat, hole: seq<nat>, holeAt: nat, n: nat)
    requires outerAt < |outer| && holeAt < |hole| && Below(outer, n) && Below(hole, n)
    ensures Below(Bridged(outer, outerAt, hole, holeAt), n)
  {
  }

  ghost function BridgesSum(w: Weight, bridges: seq<Bridge>): real {
    if bridges == [] then 0.0
    else
      var last := bridges[|bridges| - 1];
      BridgesSum(w, bridges[..|bridges| - 1]) + w(last.outer, last.inner) + w(last.inner, last.outer)
  }

  /** The joined polygon walks the outline, every hole, and every bridge once each way. */
  lemma {:induction false} JoinAddsOpposites(w: Weight, points: seq<Point>, outline: seq<nat>, holes: seq<seq<nat>>,
                                             edges: seq<Edge>, bridges: seq<Bridge>, k: nat)
    requires Below(outline, |points|) && AllBelow(holes, |points|) && EdgesBelow(edges, |points|)
    requires BridgesBelow(bridges, |points|)
    requires k <= |holes| && Join(points, outline, holes, edges, bridges, k).Some?
    ensures var joined := Join(points, outline, holes, edges, bridges, k).value;
      && |joined.bridges| == |bridges| + |holes| - k && Below(joined.polygon, |points|) && |joined.polygon| >= |outline|
      && CycleSum(w, joined.polygon) - BridgesSum(w, joined.bridges)
         == CycleSum(w, outline) - BridgesSum(w, bridges) + LoopsSum(w, holes) - LoopsSum(w, holes[..k])
    decreases |holes| - k
  {
    hide Nearest, CycleSum, Rightmost;
    if k == |holes| {
      assert holes[..k] == holes;
    } else {
      var hole := holes[k];
      var holeAt := Rightmost(points, hole, |hole|);
      var outerAt := Nearest(points, outline, holes, edges, bridges, hole[holeAt], |outline|).value;
      var more := bridges + [Bridge(hole[holeAt], outline[outerAt])];
      BridgedBelow(outline, outerAt, hole, holeAt, |points|);
      BridgeSum(w, outline, outerAt, hole, holeAt);
      assert more[..|bridges|] == bridges && holes[..k + 1][..k] == holes[..k];
      JoinAddsOpposites(w, points, Bridged(outline, outerAt, hole, holeAt), holes, edges, more, k + 1);
    }
  }

  function RingEdges(ring: seq<nat>, k: nat): (edges: seq<Edge>)
    requires k <= |ring|
  {
    if k == 0 then [] else RingEdges(ring, k - 1) + [Edge(ring[k - 1], ring[Next(k - 1, |ring|)])]
  }

  function AllEdges(rings: seq<seq<nat>>): (edges: seq<Edge>) {
    if rings == [] then [] else AllEdges(rings[..|rings| - 1]) + RingEdges(rings[|rings| - 1], |rings[|rings| - 1]|)
  }

  lemma {:induction false} RingEdgesBelow(ring: seq<nat>, k: nat, n: nat)
    requires k <= |ring| && Below(ring, n)
    ensures EdgesBelow(RingEdges(ring, k), n)
  {
    if k > 0 { RingEdgesBelow(ring, k - 1, n); }
  }

  lemma {:induction false} AllEdgesBelow(rings: seq<seq<nat>>, n: nat)
    requires AllBelow(rings, n)
    ensures EdgesBelow(AllEdges(rings), n)
  {
    if rings != [] {
      AllEdgesBelow(rings[..|rings| - 1], n);
      RingEdgesBelow(rings[|rings| - 1], |rings[|rings| - 1]|, n);
    }
  }

  ghost function Bridging(points: seq<Point>, outline: seq<nat>, holes: seq<seq<nat>>): Option<Joined>
    requires Below(outline, |points|) && outline != [] && AllBelow(holes, |points|)
  {
    AllEdgesBelow([outline] + holes, |points|);
    Join(points, outline, ByReach(points, holes), AllEdges([outline] + holes), [], 0)
  }

  method BridgeHoles(points: seq<Point>, outline: seq<nat>, holes: seq<seq<nat>>)
    returns (polygon: Option<seq<nat>>, bridges: seq<Bridge>)
    requires Below(outline, |points|) && outline != [] && AllBelow(holes, |points|)
    ensures polygon.Some? <==> Bridging(points, outline, holes).Some?
    ensures polygon.Some? ==> Bridging(points, outline, holes) == Some(Joined(polygon.value, bridges))
  {
    hide Nearest, Rightmost, AllEdges, ByReach;
    AllEdgesBelow([outline] + holes, |points|);
    var edges, sorted := AllEdges([outline] + holes), ByReach(points, holes);
    var outer := outline;
    bridges := [];
    for k := 0 to |sorted|
      invariant Below(outer, |points|) && outer != [] && BridgesBelow(bridges, |points|)
      invariant Bridging(points, outline, holes) == Join(points, outer, sorted, edges, bridges, k)
    {
      var hole := sorted[k];
      var holeAt := Rightmost(points, hole, |hole|);
      var nearest := FindNearest(points, outer, sorted, edges, bridges, hole[holeAt]);
      if nearest.None? { return None, bridges; }
      BridgedBelow(outer, nearest.value, hole, holeAt, |points|);
      bridges := bridges + [Bridge(hole[holeAt], outer[nearest.value])];
      outer := Bridged(outer, nearest.value, hole, holeAt);
    }
    return Some(outer), bridges;
  }

  /** For every quantity of edges: the joined polygon has the outline's, the holes', and both ways of every bridge. */
  lemma BridgingAddsOpposites(w: Weight, points: seq<Point>, outline: seq<nat>, holes: seq<seq<nat>>)
    requires Below(outline, |points|) && outline != [] && AllBelow(holes, |points|)
    requires Bridging(points, outline, holes).Some?
    ensures var joined := Bridging(points, outline, holes).value;
      && CycleSum(w, joined.polygon) == CycleSum(w, outline) + LoopsSum(w, holes) + BridgesSum(w, joined.bridges)
      && |joined.bridges| == |holes| && Below(joined.polygon, |points|) && |joined.polygon| >= |outline|
  {
    hide Join, ByReach, AllEdges;
    AllEdgesBelow([outline] + holes, |points|);
    var sorted := ByReach(points, holes);
    JoinAddsOpposites(w, points, outline, sorted, AllEdges([outline] + holes), [], 0);
    assert sorted[..0] == [];
  }

  lemma {:induction false} BridgesCancel(w: Weight, bridges: seq<Bridge>)
    requires Antisymmetric(w)
    ensures BridgesSum(w, bridges) == 0.0
  {
    if bridges != [] {
      var last := bridges[|bridges| - 1];
      BridgesCancel(w, bridges[..|bridges| - 1]);
      assert w(last.outer, last.inner) == -w(last.inner, last.outer);
    }
  }

  // ----- Whole faces -----

  /** Twice the signed area of a ring, as the shoelace sum of its steps. */
  method RingArea(points: seq<Point>, ring: seq<nat>) returns (area: real)
    requires Below(ring, |points|) && ring != []
    ensures area == LoopArea(points, ring)
  {
    hide Shear;
    area := 0.0;
    for k := 0 to |ring| - 1
      invariant area == PathSum(ShearOf(points), ring[..k + 1])
    {
      assert ring[..k + 2][..k + 1] == ring[..k + 1];
      area := area + Shear(points[ring[k]], points[ring[k + 1]]);
    }
    assert ring[..|ring|] == ring;
    area := area + Shear(points[ring[|ring| - 1]], points[ring[0]]);
  }

  /** The ring wound one way: to a positive area, or else to one that is not positive. */
  function Wound(points: seq<Point>, ring: seq<nat>, positive: bool, area: real): (r: seq<nat>)
    ensures |r| == |ring| && (Below(ring, |points|) ==> Below(r, |points|))
  {
    if (positive && area < 0.0) || (!positive && area > 0.0) then Backwards(ring) else ring
  }

  lemma WoundArea(points: seq<Point>, ring: seq<nat>, positive: bool)
    ensures LoopArea(points, Wound(points, ring, positive, LoopArea(points, ring)))
         == if positive then Magnitude(LoopArea(points, ring)) else -Magnitude(LoopArea(points, ring))
  {
    hide CycleSum, ShearOf, Antisymmetric;
    ShearIsAntisymmetric(points);
    BackwardsSum(ShearOf(points), ring);
  }

  ghost predicate IsFace(points: seq<Point>, outline: seq<nat>, holes: seq<seq<nat>>) {
    && Below(outline, |points|) && |outline| >= 3
    && forall k :: 0 <= k < |holes| ==> Below(holes[k], |points|) && |holes[k]| >= 3
  }

  /** Twice the area of the face: the outline's less the holes'. */
  ghost function FaceArea(points: seq<Point>, outline: seq<nat>, holes: seq<seq<nat>>): real {
    Magnitude(LoopArea(points, outline)) - HolesArea(points, holes)
  }

  ghost function HolesArea(points: seq<Point>, holes: seq<seq<nat>>): real {
    if holes == [] then 0.0
    else HolesArea(points, holes[..|holes| - 1]) + Magnitude(LoopArea(points, holes[|holes| - 1]))
  }

  function Swapped(ts: seq<Tri>): (r: seq<Tri>)
    ensures |r| == |ts| && forall i :: 0 <= i < |ts| ==> r[i] == Tri(ts[i].a, ts[i].c, ts[i].b)
  {
    seq(|ts|, (i: nat) requires i < |ts| => Tri(ts[i].a, ts[i].c, ts[i].b))
  }

  lemma {:induction false} SwappedArea(points: seq<Point>, ts: seq<Tri>)
    requires TrisInRange(ts, |points|)
    ensures TrisInRange(Swapped(ts), |points|) && TrisArea(points, Swapped(ts)) == -TrisArea(points, ts)
  {
    if ts != [] {
      SwappedArea(points, ts[1..]);
      assert Swapped(ts)[1..] == Swapped(ts[1..]);
      var t := ts[0];
      SwappedTriangle(points[t.a], points[t.b], points[t.c]);
    }
  }

  lemma SwappedTriangle(a: Point, b: Point, c: Point)
    ensures Cross2(a, c, b) == -Cross2(a, b, c)
  {
  }

  /** Every hole wound against the outline. */
  ghost function WoundHoles(points: seq<Point>, holes: seq<seq<nat>>): (wound: seq<seq<nat>>)
    ensures |wound| == |holes|
  {
    seq(|holes|, (k: nat) requires k < |holes| => Wound(points, holes[k], false, LoopArea(points, holes[k])))
  }

  lemma WoundHolesBelow(points: seq<Point>, holes: seq<seq<nat>>)
    requires forall k :: 0 <= k < |holes| ==> Below(holes[k], |points|) && |holes[k]| >= 3
    ensures AllBelow(WoundHoles(points, holes), |points|)
  {
    hide LoopArea;
  }

  /** The triangles of a wound face: its holes are joined to its outline and the polygon is clipped. */
  ghost function CutTriangles(points: seq<Point>, outline: seq<nat>, holes: seq<seq<nat>>): Option<seq<Tri>>
    requires Below(outline, |points|) && |outline| >= 3 && AllBelow(holes, |points|)
  {
    var joined := Bridging(points, outline, holes);
    if joined.None? then None
    else
      JoinedFace(points, outline, holes);
      var clipped := ClipFace(points, joined.value.polygon);
      if clipped.None? then None else Some(clipped.value.triangles)
  }

  /** The triangles of a face in the plane, turned back to the winding of its outline. */
  ghost function FlatTriangles(points: seq<Point>, outline: seq<nat>, holes: seq<seq<nat>>): Option<seq<Tri>>
    requires IsFace(points, outline, holes)
  {
    WoundHolesBelow(points, holes);
    var area := LoopArea(points, outline);
    var cut := CutTriangles(points, Wound(points, outline, true, area), WoundHoles(points, holes));
    if cut.Some? && area < 0.0 then Some(Swapped(cut.value)) else cut
  }

  /** Winds every hole against the outline; a hole of fewer than three corners fails. */
  method WindHoles(points: seq<Point>, holes: seq<seq<nat>>) returns (wound: Option<seq<seq<nat>>>)
    requires forall k :: 0 <= k < |holes| ==> Below(holes[k], |points|)
    ensures wound.Some? <==> forall k :: 0 <= k < |holes| ==> |holes[k]| >= 3
    ensures wound.Some? ==> wound.value == WoundHoles(points, holes) && AllBelow(wound.value, |points|)
    ensures wound.Some? ==> LoopsSum(ShearOf(points), wound.value) == -HolesArea(points, holes)
    ensures wound.Some? ==> CornersOf(wound.value) == CornersOf(holes)
  {
    hide LoopArea, HolesArea, Below, LoopsSum, CornersOf, ShearOf;
    var rings: seq<seq<nat>> := [];
    NoHoles(points);
    for k := 0 to |holes|
      invariant |rings| == k && AllBelow(rings, |points|) && forall j :: 0 <= j < k ==> |holes[j]| >= 3
      invariant rings == WoundHoles(points, holes)[..k]
      invariant LoopsSum(ShearOf(points), rings) == -HolesArea(points, holes[..k])
      invariant CornersOf(rings) == CornersOf(holes[..k])
    {
      if |holes[k]| < 3 { return None; }
      var area := RingArea(points, holes[k]);
      WoundArea(points, holes[k], false);
      MoreHoles(points, rings, holes, k, Wound(points, holes[k], false, area));
      rings := rings + [Wound(points, holes[k], false, area)];
    }
    assert holes[..|holes|] == holes;
    return Some(rings);
  }

  /** Joins and clips a wound face. */
  method CutFace(points: seq<Point>, outline: seq<nat>, holes: seq<seq<nat>>)
    returns (triangles: Option<seq<Tri>>, ghost dropped: nat)
    requires Below(outline, |points|) && |outline| >= 3 && AllBelow(holes, |points|)
    ensures triangles == CutTriangles(points, outline, holes)
    ensures triangles.Some? ==> TrisInRange(triangles.value, |points|)
    ensures triangles.Some? ==> |triangles.value| + dropped == |outline| + CornersOf(holes) + 2 * |holes| - 2
    ensures triangles.Some? ==>
      var slack, joined := (dropped as real) * EPSILON, LoopArea(points, outline) + LoopsSum(ShearOf(points), holes);
      -slack <= TrisArea(points, triangles.value) - joined <= slack
  {
    hide LoopArea, Bridging, ClipFace, TrisArea, Below, AllBelow, LoopsSum, CornersOf, ShearOf, TrisInRange;
    hide Antisymmetric, CycleSum, TrisSum;
    dropped := 0;
    var polygon, bridges := BridgeHoles(points, outline, holes);
    if polygon.None? { return None, 0; }
    JoinedFace(points, outline, holes);
    var clipped, flat := EarClip(points, polygon.value);
    if clipped.None? { return None, 0; }
    ClippedArea(points, polygon.value);
    ShearIsAntisymmetric(points);
    ClippingAccounts(ShearOf(points), points, polygon.value);
    return clipped, |flat|;
  }

  /** Wound as the outline is, the triangles keep twice the face's area up to one epsilon for every dropped corner. */
  ghost predicate KeepsArea(points: seq<Point>, outline: seq<nat>, holes: seq<seq<nat>>, ts: seq<Tri>, dropped: nat)
    requires TrisInRange(ts, |points|)
  {
    var slack, area := (dropped as real) * EPSILON, TrisArea(points, ts);
    -slack <= (if LoopArea(points, outline) < 0.0 then -area else area) - FaceArea(points, outline, holes) <= slack
  }

  /**
   Triangulates a face in the plane: exactly when it has at least three corners in every loop,
   every hole can be joined, and the joined polygon can be clipped.
   */
  method TriangulateFlat(points: seq<Point>, outline: seq<nat>, holes: seq<seq<nat>>)
    returns (triangles: Option<seq<Tri>>, ghost dropped: nat)
    requires Below(outline, |points|) && forall k :: 0 <= k < |holes| ==> Below(holes[k], |points|)
    ensures triangles.Some? <==> IsFace(points, outline, holes) && FlatTriangles(points, outline, holes).Some?
    ensures triangles.Some? ==>
              triangles == FlatTriangles(points, outline, holes) && TrisInRange(triangles.value, |points|)
    ensures triangles.Some? ==> KeepsArea(points, outline, holes, triangles.value, dropped)
    ensures triangles.Some? ==> |triangles.value| + dropped == |outline| + CornersOf(holes) + 2 * |holes| - 2
  {
    hide LoopArea, HolesArea, TrisArea, Below, AllBelow, LoopsSum, CornersOf, ShearOf, TrisInRange;
    hide CutTriangles, WoundHoles;
    if |outline| < 3 { return None, 0; }
    var area := RingArea(points, outline);
    WoundArea(points, outline, true);
    var wound := WindHoles(points, holes);
    if wound.None? { return None, 0; }
    triangles, dropped := CutFace(points, Wound(points, outline, true, area), wound.value);
    if triangles.Some? && area < 0.0 {
      SwappedArea(points, triangles.value);
      triangles := Some(Swapped(triangles.value));
    }
  }

  function CornersOf(loops: seq<seq<nat>>): nat {
    if loops == [] then 0 else CornersOf(loops[..|loops| - 1]) + |loops[|loops| - 1]|
  }

  lemma NoHoles(points: seq<Point>)
    ensures HolesArea(points, []) == 0.0 && LoopsSum(ShearOf(points), []) == 0.0
  {
  }

  lemma MoreHoles(points: seq<Point>, wound: seq<seq<nat>>, holes: seq<seq<nat>>, k: nat, hole: seq<nat>)
    requires k < |holes| && |hole| == |holes[k]|
    requires LoopArea(points, hole) == -Magnitude(LoopArea(points, holes[k]))
    ensures LoopsSum(ShearOf(points), wound + [hole]) == LoopsSum(ShearOf(points), wound) + LoopArea(points, hole)
    ensures HolesArea(points, holes[..k + 1]) == HolesArea(points, holes[..k]) - LoopArea(points, hole)
    ensures CornersOf(wound + [hole]) == CornersOf(wound) + |hole|
    ensures CornersOf(holes[..k + 1]) == CornersOf(holes[..k]) + |hole|
  {
    hide CycleSum, ShearOf;
    assert (wound + [hole])[..|wound|] == wound && holes[..k + 1][..k] == holes[..k];
  }

  /** The joined polygon has the area of the outline and the holes together, and two more corners for each hole. */
  lemma JoinedFace(points: seq<Point>, outline: seq<nat>, holes: seq<seq<nat>>)
    requires Below(outline, |points|) && |outline| >= 3 && AllBelow(holes, |points|)
    requires Bridging(points, outline, holes).Some?
    ensures var joined := Bridging(points, outline, holes).value;
      && Below(joined.polygon, |points|) && |joined.polygon| >= 3
      && LoopArea(points, joined.polygon) == LoopArea(points, outline) + LoopsSum(ShearOf(points), holes)
      && |joined.polygon| == |outline| + CornersOf(holes) + 2 * |holes|
  {
    hide CycleSum, ShearOf, Bridging, Antisymmetric;
    var w := ShearOf(points);
    ShearIsAntisymmetric(points);
    BridgingAddsOpposites(w, points, outline, holes);
    BridgesCancel(w, Bridging(points, outline, holes).value.bridges);
    JoinedCorners(points, outline, holes);
  }

  /**
   The triangles of a joined face, kept and dropped together, bound exactly the outline and
   the holes: every antisymmetric quantity of edges agrees.
   */
  lemma FaceIsBounded(w: Weight, points: seq<Point>, outline: seq<nat>, holes: seq<seq<nat>>)
    requires Antisymmetric(w) && Below(outline, |points|) && |outline| >= 3 && AllBelow(holes, |points|)
    requires Bridging(points, outline, holes).Some?
    requires Below(Bridging(points, outline, holes).value.polygon, |points|)
    requires ClipFace(points, Bridging(points, outline, holes).value.polygon).Some?
    ensures var c := ClipFace(points, Bridging(points, outline, holes).value.polygon).value;
            TrisSum(w, c.triangles) + TrisSum(w, c.dropped) == CycleSum(w, outline) + LoopsSum(w, holes)
  {
    hide CycleSum, Bridging, Antisymmetric, TrisSum, ClipFace;
    BridgingAddsOpposites(w, points, outline, holes);
    BridgesCancel(w, Bridging(points, outline, holes).value.bridges);
    ClippingAccounts(w, points, Bridging(points, outline, holes).value.polygon);
  }

  lemma JoinedCorners(points: seq<Point>, outline: seq<nat>, holes: seq<seq<nat>>)
    requires Below(outline, |points|) && |outline| >= 3 && AllBelow(holes, |points|)
    requires Bridging(points, outline, holes).Some?
    ensures |Bridging(points, outline, holes).value.polygon| == |outline| + CornersOf(holes) + 2 * |holes|
  {
    hide Join, AllEdges;
    AllEdgesBelow([outline] + holes, |points|);
    var sorted := ByReach(points, holes);
    SortedCorners(points, holes);
    JoinCorners(points, outline, sorted, AllEdges([outline] + holes), [], 0);
    assert sorted[..0] == [];
  }

  lemma {:induction false} InsertedCorners(points: seq<Point>, holes: seq<seq<nat>>, hole: seq<nat>)
    requires AllBelow(holes, |points|) && Below(hole, |points|) && hole != []
    ensures CornersOf(InsertHole(points, holes, hole)) == CornersOf(holes) + |hole|
  {
    hide Reach;
    if holes == [] || Reach(points, holes[|holes| - 1]) >= Reach(points, hole) {
      assert (holes + [hole])[..|holes|] == holes;
    } else {
      var front := InsertHole(points, holes[..|holes| - 1], hole);
      InsertedCorners(points, holes[..|holes| - 1], hole);
      assert (front + [holes[|holes| - 1]])[..|front|] == front;
    }
  }

  lemma {:induction false} SortedCorners(points: seq<Point>, holes: seq<seq<nat>>)
    requires AllBelow(holes, |points|)
    ensures CornersOf(ByReach(points, holes)) == CornersOf(holes)
  {
    hide InsertHole;
    if holes != [] {
      SortedCorners(points, holes[..|holes| - 1]);
      InsertedCorners(points, ByReach(points, holes[..|holes| - 1]), holes[|holes| - 1]);
    }
  }

  lemma {:induction false} JoinCorners(points: seq<Point>, outline: seq<nat>, holes: seq<seq<nat>>,
                                       edges: seq<Edge>, bridges: seq<Bridge>, k: nat)
    requires Below(outline, |points|) && AllBelow(holes, |points|) && EdgesBelow(edges, |points|)
    requires BridgesBelow(bridges, |points|)
    requires k <= |holes| && Join(points, outline, holes, edges, bridges, k).Some?
    ensures |Join(points, outline, holes, edges, bridges, k).value.polygon| + CornersOf(holes[..k])
            == |outline| + CornersOf(holes) + 2 * (|holes| - k)
    decreases |holes| - k
  {
    hide Nearest, Rightmost;
    if k == |holes| {
      assert holes[..k] == holes;
    } else {
      var hole := holes[k];
      var holeAt := Rightmost(points, hole, |hole|);
      var outerAt := Nearest(points, outline, holes, edges, bridges, hole[holeAt], |outline|).value;
      BridgedBelow(outline, outerAt, hole, holeAt, |points|);
      assert holes[..k + 1][..k] == holes[..k];
      JoinCorners(points, Bridged(outline, outerAt, hole, holeAt), holes, edges,
                  bridges + [Bridge(hole[holeAt], outline[outerAt])], k + 1);
    }
  }
}
