/**
 Faces in space: the plane a face is projected to, and its triangulation there. The
 dropped axis is the one along which the face's normal is longest.
 */
module FaceProjection {
  import opened FaceBridging
  import opened FaceTriangulation
  import opened MeshTopology
  import opened Triangulation
  import opened Vectors
  import opened Wrappers

  datatype Axis = X | Y | Z

  /** What one edge adds to a component of the normal. */
  ghost function NormalWeight(vertices: seq<Vec>, axis: Axis): Weight {
    (a: nat, b: nat) => if a < |vertices| && b < |vertices| then NormalTerm(vertices[a], vertices[b], axis) else 0.0
  }

  function NormalTerm(a: Vec, b: Vec, axis: Axis): real {
    match axis
    case X => (a.y - b.y) * (a.z + b.z)
    case Y => (a.z - b.z) * (a.x + b.x)
    case Z => (a.x - b.x) * (a.y + b.y)
  }

  ghost function NormalOf(vertices: seq<Vec>, outline: seq<nat>): Vec {
    Vec(CycleSum(NormalWeight(vertices, X), outline), CycleSum(NormalWeight(vertices, Y), outline),
        CycleSum(NormalWeight(vertices, Z), outline))
  }

  function Component(v: Vec, axis: Axis): real {
    match axis
    case X => v.x
    case Y => v.y
    case Z => v.z
  }

  /** The first axis along which a vector is longest. */
  function LongestAxis(v: Vec): (axis: Axis)
    ensures forall other: Axis :: Magnitude(Component(v, other)) <= Magnitude(Component(v, axis))
  {
    if Magnitude(v.x) >= Magnitude(v.y) && Magnitude(v.x) >= Magnitude(v.z) then X
    else if Magnitude(v.y) >= Magnitude(v.z) then Y
    else Z
  }

  function Flattened(v: Vec, axis: Axis): Point {
    match axis
    case X => Point(v.y, v.z)
    case Y => Point(v.x, v.z)
    case Z => Point(v.x, v.y)
  }

  function Projected(vertices: seq<Vec>, axis: Axis): (points: seq<Point>)
    ensures |points| == |vertices|
  {
    seq(|vertices|, (i: nat) requires i < |vertices| => Flattened(vertices[i], axis))
  }

  // ----- The projection keeps the face's extent -----

  /**
   Up to what cancels along a closed walk, the normal's component is the shear of the
   projection, turned along the second axis.
   */
  function Turn(axis: Axis): real {
    if axis.Y? then -1.0 else 1.0
  }

  function Offset(v: Vec, axis: Axis): real {
    match axis
    case X => v.y * v.z
    case Y => v.x * v.z
    case Z => v.x * v.y
  }

  lemma TermIsShear(a: Vec, b: Vec, axis: Axis)
    ensures NormalTerm(a, b, axis)
              == Turn(axis) * Shear(Flattened(a, axis), Flattened(b, axis)) + Offset(a, axis) - Offset(b, axis)
  {
    match axis
    case X => TermReals(a.y, b.y, a.z, b.z);
    case Y => TermReals(a.z, b.z, a.x, b.x);
    case Z => TermReals(a.x, b.x, a.y, b.y);
  }

  lemma TermReals(a: real, b: real, c: real, d: real)
    ensures (a - b) * (c + d) == (a * d - b * c) + a * c - b * d
  {
  }

  lemma {:induction false} PathIsShear(vertices: seq<Vec>, path: seq<nat>, axis: Axis)
    requires Below(path, |vertices|) && path != []
    ensures PathSum(NormalWeight(vertices, axis), path) ==
            Turn(axis) * PathSum(ShearOf(Projected(vertices, axis)), path)
            + Offset(vertices[path[0]], axis) - Offset(vertices[path[|path| - 1]], axis)
    decreases |path|
  {
    hide NormalTerm, Shear, Flattened, Offset;
    if |path| >= 2 {
      var n := |path| - 1;
      PathIsShear(vertices, path[..n], axis);
      TermIsShear(vertices[path[n - 1]], vertices[path[n]], axis);
      assert Below(path[..n], |vertices|) && path[..n][n - 1] == path[n - 1] && path[n - 1] < |vertices|
          && path[n] < |vertices|;
    }
  }

  /**
   The components of an outline's normal are the doubled signed areas of its projections, turned
   along the second axis.
   */
  lemma NormalIsArea(vertices: seq<Vec>, outline: seq<nat>, axis: Axis)
    requires Below(outline, |vertices|)
    ensures Component(NormalOf(vertices, outline), axis) == Turn(axis) * LoopArea(Projected(vertices, axis), outline)
    ensures Magnitude(Component(NormalOf(vertices, outline), axis))
              == Magnitude(LoopArea(Projected(vertices, axis), outline))
  {
    hide NormalTerm, Shear, Flattened, Offset;
    if outline != [] {
      var last := outline[|outline| - 1];
      assert last < |vertices| && outline[0] < |vertices|;
      PathIsShear(vertices, outline, axis);
      TermIsShear(vertices[last], vertices[outline[0]], axis);
    }
  }

  // ----- Triangulating a face -----

  method ComputeNormal(vertices: seq<Vec>, outline: seq<nat>) returns (normal: Vec)
    requires Below(outline, |vertices|)
    ensures normal == NormalOf(vertices, outline)
  {
    hide NormalTerm;
    normal := Vec(0.0, 0.0, 0.0);
    for index := 0 to |outline|
      invariant forall axis: Axis :: Summed(normal, vertices, outline, index, axis)
    {
      var current, next := vertices[outline[index]], vertices[outline[Next(index, |outline|)]];
      ghost var before := normal;
      normal := Vec(normal.x + NormalTerm(current, next, X), normal.y + NormalTerm(current, next, Y),
                    normal.z + NormalTerm(current, next, Z));
      ghost var edges := index + 1;
      forall axis: Axis ensures Summed(normal, vertices, outline, edges, axis) {
        assert Summed(before, vertices, outline, index, axis);
        assert Component(normal, axis) == Component(before, axis) + NormalTerm(current, next, axis);
        NormalStep(vertices, outline, index, axis);
      }
    }
    assert Summed(normal, vertices, outline, |outline|, X) && Summed(normal, vertices, outline, |outline|, Y);
    assert Summed(normal, vertices, outline, |outline|, Z);
  }

  /** The component holds what the first edges add. */
  ghost predicate Summed(normal: Vec, vertices: seq<Vec>, outline: seq<nat>, edges: nat, axis: Axis)
    requires edges <= |outline|
  {
    Component(normal, axis) ==
      if edges == |outline| then CycleSum(NormalWeight(vertices, axis), outline)
      else PathSum(NormalWeight(vertices, axis), outline[..edges + 1])
  }

  lemma NormalStep(vertices: seq<Vec>, outline: seq<nat>, index: nat, axis: Axis)
    requires Below(outline, |vertices|) && index < |outline|
    ensures var w, n := NormalWeight(vertices, axis), |outline|;
            var term := NormalTerm(vertices[outline[index]], vertices[outline[Next(index, n)]], axis);
            PathSum(w, outline[..index + 1]) + term == if index + 1 == n then CycleSum(w, outline)
                else PathSum(w, outline[..index + 2])
  {
    hide NormalTerm;
    if index + 1 == |outline| {
      assert outline[..index + 1] == outline;
    } else {
      assert outline[..index + 2][..index + 1] == outline[..index + 1];
    }
  }

  /** Some component is longer than the limit. */
  ghost predicate IsLong(v: Vec, limit: real) {
    exists axis: Axis :: Magnitude(Component(v, axis)) > limit
  }

  lemma LongestDecides(v: Vec, limit: real)
    ensures Magnitude(Component(v, LongestAxis(v))) > limit <==> IsLong(v, limit)
  {
    hide Magnitude, Component;
  }

  /** The face in the plane it is projected to. */
  ghost function FacePoints(vertices: seq<Vec>, outline: seq<nat>): (points: seq<Point>)
    ensures |points| == |vertices|
  {
    Projected(vertices, LongestAxis(NormalOf(vertices, outline)))
  }

  lemma ShortIsNoFace(points: seq<Point>, outline: seq<nat>, holes: seq<seq<nat>>)
    requires |outline| < 3
    ensures !IsFace(points, outline, holes)
  {
  }

  /**
   Triangulates a face in space, exactly when its normal is longer than epsilon along some
   axis and its projection can be triangulated. The projected outline then spans more than
   epsilon, and the triangles keep the projected area up to one epsilon for every dropped
   corner.
   */
  method TriangulateFace(vertices: seq<Vec>, outline: seq<nat>, holes: seq<seq<nat>>)
    returns (triangles: Option<seq<Tri>>, ghost dropped: nat)
    requires Below(outline, |vertices|) && forall k :: 0 <= k < |holes| ==> Below(holes[k], |vertices|)
    ensures triangles.Some? <==>
              && IsLong(NormalOf(vertices, outline), EPSILON)
              && IsFace(FacePoints(vertices, outline), outline, holes)
              && FlatTriangles(FacePoints(vertices, outline), outline, holes).Some?
    ensures triangles.Some? ==>
              var points := FacePoints(vertices, outline);
              && Magnitude(LoopArea(points, outline)) > EPSILON
              && triangles == FlatTriangles(points, outline, holes) && TrisInRange(triangles.value, |vertices|)
              && KeepsArea(points, outline, holes, triangles.value, dropped)
    ensures triangles.Some? ==> |triangles.value| + dropped == |outline| + CornersOf(holes) + 2 * |holes| - 2
  {
    hide NormalOf, LoopArea, FlatTriangles, FaceArea, TrisArea, CornersOf, Projected, Below, TrisInRange;
    hide Component, LongestAxis, IsFace, Magnitude, IsLong, KeepsArea;
    if |outline| < 3 {
      ShortIsNoFace(FacePoints(vertices, outline), outline, holes);
      return None, 0;
    }
    var normal := ComputeNormal(vertices, outline);
    var drop := LongestAxis(normal);
    LongestDecides(normal, EPSILON);
    if Magnitude(Component(normal, drop)) <= EPSILON { return None, 0; }
    NormalIsArea(vertices, outline, drop);
    triangles, dropped := TriangulateFlat(Projected(vertices, drop), outline, holes);
  }
}
