/** Where the vertices of plates and straight members lie, in the coordinates of their frame. */
module PrismCoordinates {
  import opened Placements
  import opened Prisms
  import opened Triangulation
  import opened Vectors
  import opened Wrappers

  /** The vertex has the coordinates, measured from the frame's origin along its axes. */
  predicate LiesAt(frame: Frame, v: Vec, x: real, y: real, z: real) {
    var w := Subtract(v, frame.origin);
    Dot(w, frame.xAxis) == x && Dot(w, frame.yAxis) == y && Dot(w, frame.zAxis) == z
  }

  lemma PointLiesAt(frame: Frame, x: real, y: real, z: real)
    requires Orthonormal(frame.xAxis, frame.yAxis, frame.zAxis)
    ensures LiesAt(frame, PointIn(frame, x, y, z), x, y, z)
  {
    hide Dot, Combine;
    var local := Vec(x, y, z);
    assert Subtract(PointIn(frame, x, y, z), frame.origin)
        == Combine(frame.xAxis, frame.yAxis, frame.zAxis, local) by { PointIsCombined(frame, x, y, z); }
    OrthonormalTurns(frame);
    DotCombine(frame.xAxis, frame.yAxis, frame.zAxis, local, frame.xAxis);
    DotCombine(frame.xAxis, frame.yAxis, frame.zAxis, local, frame.yAxis);
    DotCombine(frame.xAxis, frame.yAxis, frame.zAxis, local, frame.zAxis);
  }

  lemma PointIsCombined(frame: Frame, x: real, y: real, z: real)
    ensures Subtract(PointIn(frame, x, y, z), frame.origin)
              == Combine(frame.xAxis, frame.yAxis, frame.zAxis, Vec(x, y, z))
  {
  }

  lemma OrthonormalTurns(frame: Frame)
    requires Orthonormal(frame.xAxis, frame.yAxis, frame.zAxis)
    ensures Dot(frame.yAxis, frame.xAxis) == 0.0 && Dot(frame.zAxis, frame.xAxis) == 0.0
    ensures Dot(frame.zAxis, frame.yAxis) == 0.0
  {
  }

  /** Point `i` of a contour turned counter-clockwise. */
  function TurnedPoint(contour: seq<Point>, i: nat): Point
    requires i < |contour|
  {
    if SignedArea(contour) < 0.0 then contour[|contour| - 1 - i] else contour[i]
  }

  lemma TurnedIsNormalized(contour: seq<Point>, i: nat)
    requires i < |contour|
    ensures Normalized(contour)[i] == TurnedPoint(contour, i)
  {
    hide SignedArea;
  }

  lemma ContourRingLies(points: seq<Point>, frame: Frame, z: real, i: nat)
    requires Orthonormal(frame.xAxis, frame.yAxis, frame.zAxis) && i < |points|
    ensures LiesAt(frame, ContourRing(points, frame, z)[i], points[i].x, points[i].y, z)
  {
    hide LiesAt, PointIn;
    PointLiesAt(frame, points[i].x, points[i].y, z);
  }

  lemma SectionRingLies(points: seq<Point>, frame: Frame, x: real, i: nat)
    requires Orthonormal(frame.xAxis, frame.yAxis, frame.zAxis) && i < |points|
    ensures LiesAt(frame, SectionRing(points, frame, x)[i], x, points[i].x, points[i].y)
  {
    hide LiesAt, PointIn;
    PointLiesAt(frame, x, points[i].x, points[i].y);
  }

  /**
   In an orthonormal frame a plate has every contour point twice, half the thickness below and
   half the thickness above the plane, in counter-clockwise order.
   */
  lemma PlateVertices(contour: seq<Point>, frame: Frame, thickness: real, i: nat)
    requires Orthonormal(frame.xAxis, frame.yAxis, frame.zAxis)
    requires ContourMesh(contour, frame, thickness).Some? && i < |contour|
    ensures var positions, p := ContourMesh(contour, frame, thickness).value.positions, TurnedPoint(contour, i);
      && |positions| == 2 * |contour|
      && LiesAt(frame, positions[i], p.x, p.y, -(thickness / 2.0))
      && LiesAt(frame, positions[|contour| + i], p.x, p.y, thickness / 2.0)
  {
    hide LiesAt, ContourRing, Normalized, TurnedPoint, Orthonormal, TriangulationOf;
    TurnedIsNormalized(contour, i);
    ContourRingLies(Normalized(contour), frame, -(thickness / 2.0), i);
    ContourRingLies(Normalized(contour), frame, thickness / 2.0, i);
  }

  /**
   In an orthonormal frame a straight member has its outline at the origin and at its length
   along the first axis, both counter-clockwise, and behind them the inner loop likewise.
   */
  lemma MemberVertices(section: Section, frame: Frame, length: real, i: nat)
    requires Orthonormal(frame.xAxis, frame.yAxis, frame.zAxis)
    ensures var positions, n, m := MemberMesh(section, frame, length).positions, |section.outer|, |section.inner|;
      && |positions| == (if section.kind.Solid? then 2 * n else 2 * n + 2 * m)
      && (i < n ==>
            var p := TurnedPoint(section.outer, i);
            LiesAt(frame, positions[i], 0.0, p.x, p.y) && LiesAt(frame, positions[n + i], length, p.x, p.y))
      && (section.kind.Hollow? && i < m ==>
            var p := TurnedPoint(section.inner, i);
            && LiesAt(frame, positions[2 * n + i], 0.0, p.x, p.y)
            && LiesAt(frame, positions[2 * n + m + i], length, p.x, p.y))
  {
    hide LiesAt, SectionRing, Normalized, TurnedPoint, Orthonormal, TriangulationOf;
    if i < |section.outer| {
      TurnedIsNormalized(section.outer, i);
      SectionRingLies(Normalized(section.outer), frame, 0.0, i);
      SectionRingLies(Normalized(section.outer), frame, length, i);
    }
    if i < |section.inner| {
      TurnedIsNormalized(section.inner, i);
      SectionRingLies(Normalized(section.inner), frame, 0.0, i);
      SectionRingLies(Normalized(section.inner), frame, length, i);
    }
  }
}
