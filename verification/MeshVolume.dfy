/**
 The mesh volume the SDK reports, and what it is worth for a plate: the area of the contour
 times the thickness times the volume of the frame's axes, from whichever of its own
 vertices the sum is taken.
 */
module MeshVolume {
  import opened MeshIndices
  import opened MeshTopology
  import opened Prisms
  import opened RingChains
  import opened Triangulation
  import opened Vectors
  import opened Wrappers

  function Abs(x: real): real {
    if x < 0.0 then -x else x
  }

  /** Six times the signed volume of one triangle against a reference point. */
  function Wedge(positions: seq<Vec>, origin: Vec, a: nat, b: nat, c: nat): real
    requires a < |positions| && b < |positions| && c < |positions|
  {
    Det(Subtract(positions[a], origin), Subtract(positions[b], origin), Subtract(positions[c], origin))
  }

  ghost predicate AllBelow(indices: seq<nat>, n: nat) {
    forall k :: 0 <= k < |indices| ==> indices[k] < n
  }

  /** Six times the signed volume of an index buffer against a reference point. */
  function Wedges(positions: seq<Vec>, indices: seq<nat>, origin: Vec): real
    requires AllBelow(indices, |positions|)
  {
    var n := |indices|;
    if n < 3 then 0.0
    else
      Wedges(positions, indices[..n - 3], origin)
      + Wedge(positions, origin, indices[n - 3], indices[n - 2], indices[n - 1])
  }

  function Volume(mesh: Mesh): real
    requires AllBelow(mesh.indices, |mesh.positions|)
  {
    if mesh.positions == [] || |mesh.indices| < 3 then 0.0
    else Abs(Wedges(mesh.positions, mesh.indices[..|mesh.indices| / 3 * 3], mesh.positions[0]) / 6.0)
  }

  method ComputeVolume(mesh: Mesh) returns (volume: real)
    requires AllBelow(mesh.indices, |mesh.positions|)
    ensures volume == Volume(mesh)
  {
    hide Det, Subtract;
    if mesh.positions == [] || |mesh.indices| < 3 { return 0.0; }
    var reference, signedVolume, index := mesh.positions[0], 0.0, 0;
    while index + 2 < |mesh.indices|
      invariant index % 3 == 0 && index <= |mesh.indices|
      invariant signedVolume == Wedges(mesh.positions, mesh.indices[..index], reference) / 6.0
    {
      var first := Subtract(mesh.positions[mesh.indices[index]], reference);
      var second := Subtract(mesh.positions[mesh.indices[index + 1]], reference);
      var third := Subtract(mesh.positions[mesh.indices[index + 2]], reference);
      assert mesh.indices[..index + 3][..index] == mesh.indices[..index];
      signedVolume := signedVolume + Det(first, second, third) / 6.0;
      index := index + 3;
    }
    return Abs(signedVolume);
  }

  lemma WedgesTri(positions: seq<Vec>, indices: seq<nat>, a: nat, b: nat, c: nat, t: seq<nat>, origin: Vec)
    requires AllBelow(indices, |positions|)
    requires a < |positions| && b < |positions| && c < |positions|
    requires t == indices + [a, b, c]
    ensures Wedges(positions, t, origin) == Wedges(positions, indices, origin) + Wedge(positions, origin, a, b, c)
  {
    assert t[..|t| - 3] == indices;
  }

  // ----- A plate in its own coordinates -----

  /** The local coordinates of a plate's vertex: the contour point, below or above. */
  function Local(points: seq<Point>, low: real, high: real, v: nat): Vec
    requires v < 2 * |points|
  {
    if v < |points| then Vec(points[v].x, points[v].y, low)
    else Vec(points[v - |points|].x, points[v - |points|].y, high)
  }

  function PlatePositions(points: seq<Point>, frame: Frame, low: real, high: real): (positions: seq<Vec>)
    ensures |positions| == 2 * |points|
  {
    ContourRing(points, frame, low) + ContourRing(points, frame, high)
  }

  lemma LocalDifference(points: seq<Point>, frame: Frame, low: real, high: real, v: nat, r: nat)
    requires v < 2 * |points| && r < 2 * |points|
    ensures var positions := PlatePositions(points, frame, low, high);
            Subtract(positions[v], positions[r]) ==
            Combine(frame.xAxis, frame.yAxis, frame.zAxis,
                Subtract(Local(points, low, high, v), Local(points, low, high, r)))
  {
    var p, q := Local(points, low, high, v), Local(points, low, high, r);
    var positions := PlatePositions(points, frame, low, high);
    assert positions[v] == PointIn(frame, p.x, p.y, p.z);
    assert positions[r] == PointIn(frame, q.x, q.y, q.z);
    PointDifference(frame, p, q);
  }

  lemma PointDifference(frame: Frame, p: Vec, q: Vec)
    ensures Subtract(PointIn(frame, p.x, p.y, p.z), PointIn(frame, q.x, q.y, q.z)) ==
            Combine(frame.xAxis, frame.yAxis, frame.zAxis, Subtract(p, q))
  {
    var d := Subtract(p, q);
    DifferenceReals(frame.origin.x, frame.xAxis.x, frame.yAxis.x, frame.zAxis.x,
                    p.x, p.y, p.z, q.x, q.y, q.z, d.x, d.y, d.z);
    DifferenceReals(frame.origin.y, frame.xAxis.y, frame.yAxis.y, frame.zAxis.y,
                    p.x, p.y, p.z, q.x, q.y, q.z, d.x, d.y, d.z);
    DifferenceReals(frame.origin.z, frame.xAxis.z, frame.yAxis.z, frame.zAxis.z,
                    p.x, p.y, p.z, q.x, q.y, q.z, d.x, d.y, d.z);
  }

  lemma DifferenceReals(o: real, x: real, y: real, z: real, p1: real, p2: real, p3: real, q1: real, q2: real, q3: real,
                        d1: real, d2: real, d3: real)
    requires d1 == p1 - q1 && d2 == p2 - q2 && d3 == p3 - q3
    ensures (o + x * p1 + y * p2 + z * p3) - (o + x * q1 + y * q2 + z * q3) == x * d1 + y * d2 + z * d3
  {
  }

  /** The local volume of a triangle against a reference vertex. */
  function LocalWedge(points: seq<Point>, low: real, high: real, r: nat, a: nat, b: nat, c: nat): real
    requires r < 2 * |points| && a < 2 * |points| && b < 2 * |points| && c < 2 * |points|
  {
    var q := Local(points, low, high, r);
    Det(Subtract(Local(points, low, high, a), q), Subtract(Local(points, low, high, b), q),
        Subtract(Local(points, low, high, c), q))
  }

  function FrameVolume(frame: Frame): real {
    Det(frame.xAxis, frame.yAxis, frame.zAxis)
  }

  lemma WedgeIsLocal(points: seq<Point>, frame: Frame, low: real, high: real, r: nat, a: nat, b: nat, c: nat)
    requires r < 2 * |points| && a < 2 * |points| && b < 2 * |points| && c < 2 * |points|
    ensures var positions := PlatePositions(points, frame, low, high);
            Wedge(positions, positions[r], a, b, c) == FrameVolume(frame) * LocalWedge(points, low, high, r, a, b, c)
  {
    hide Det, Combine, Subtract, PointIn, Local;
    LocalDifference(points, frame, low, high, a, r);
    LocalDifference(points, frame, low, high, b, r);
    LocalDifference(points, frame, low, high, c, r);
    var q := Local(points, low, high, r);
    DetOfCombined(frame.xAxis, frame.yAxis, frame.zAxis, Subtract(Local(points, low, high, a), q),
                  Subtract(Local(points, low, high, b), q), Subtract(Local(points, low, high, c), q));
  }

  // ----- Caps and walls -----

  lemma FlatDet(p: Point, q: Point, s: Point, h: real)
    ensures Det(Vec(p.x, p.y, h), Vec(q.x, q.y, h), Vec(s.x, s.y, h)) == h * (Shear(p, q) + Shear(q, s) + Shear(s, p))
  {
    hide Det;
    DetExpanded(Vec(p.x, p.y, h), Vec(q.x, q.y, h), Vec(s.x, s.y, h));
    FlatReals(p.x, p.y, q.x, q.y, s.x, s.y, h);
  }

  lemma FlatReals(a: real, b: real, c: real, d: real, e: real, f: real, h: real)
    ensures a * (d * h - h * f) + b * (h * e - c * h) + h * (c * f - d * e) ==
            h * ((a * d - c * b) + (c * f - e * d) + (e * b - a * f))
  {
  }

  lemma WallDet(p: Point, q: Point, l: real, h: real, d: real)
    requires d == h - l
    ensures Det(Vec(p.x, p.y, l), Vec(q.x, q.y, l), Vec(q.x, q.y, h))
        + Det(Vec(p.x, p.y, l), Vec(q.x, q.y, h), Vec(p.x, p.y, h))
         == 2.0 * d * Shear(p, q)
  {
    hide Det;
    DetExpanded(Vec(p.x, p.y, l), Vec(q.x, q.y, l), Vec(q.x, q.y, h));
    DetExpanded(Vec(p.x, p.y, l), Vec(q.x, q.y, h), Vec(p.x, p.y, h));
    WallReals(p.x, p.y, q.x, q.y, l, h);
  }

  lemma WallReals(a: real, b: real, c: real, d: real, l: real, h: real)
    ensures (a * (d * h - l * d) + b * (l * c - c * h) + l * (c * d - d * c))
            + (a * (d * h - h * b) + b * (h * a - c * h) + l * (c * b - d * a)) == 2.0 * (h - l) * (a * d - c * b)
  {
  }

  function Relative(p: Point, r: Point): Point {
    Point(p.x - r.x, p.y - r.y)
  }

  /** Moving the reference does not change the area of a triangle. */
  lemma RelativeTriangle(a: Point, b: Point, c: Point, r: Point)
    ensures var p, q, s := Relative(a, r), Relative(b, r), Relative(c, r);
            Shear(p, q) + Shear(q, s) + Shear(s, p) == Cross2(a, b, c)
  {
  }

  /** A step of a walk changes by a difference that cancels around a closed contour. */
  lemma RelativeStep(a: Point, b: Point, r: Point)
    ensures Shear(Relative(a, r), Relative(b, r)) == Shear(a, b) - (Shear(r, b) - Shear(r, a))
  {
  }

  /** A cap triangle and its mirror image on the other side. */
  lemma CapPair(points: seq<Point>, low: real, high: real, r: nat, t: Tri)
    requires r < 2 * |points| && t.a < |points| && t.b < |points| && t.c < |points|
    ensures var n := |points|;
            LocalWedge(points, low, high, r, t.c, t.b, t.a)
                + LocalWedge(points, low, high, r, t.a + n, t.b + n, t.c + n)
            == (high - low) * TriArea(points, t)
  {
    hide Det, Shear, Cross2;
    var n, q := |points|, Local(points, low, high, r);
    var o := Point(q.x, q.y);
    var a, b, c := Relative(points[t.a], o), Relative(points[t.b], o), Relative(points[t.c], o);
    FlatDet(c, b, a, low - q.z);
    FlatDet(a, b, c, high - q.z);
    RelativeTriangle(points[t.a], points[t.b], points[t.c], o);
    RelativeTriangle(points[t.c], points[t.b], points[t.a], o);
    Mirrored(points[t.a], points[t.b], points[t.c]);
    CapReals(low, high, q.z, TriArea(points, t));
  }

  lemma Mirrored(a: Point, b: Point, c: Point)
    ensures Cross2(c, b, a) == -Cross2(a, b, c)
  {
  }

  lemma CapReals(low: real, high: real, z: real, area: real)
    ensures (low - z) * -area + (high - z) * area == (high - low) * area
  {
  }

  /** The two triangles of a side quad. */
  lemma WallPair(points: seq<Point>, low: real, high: real, r: nat, i: nat, j: nat)
    requires r < 2 * |points| && i < |points| && j < |points|
    ensures var n, q := |points|, Local(points, low, high, r);
            LocalWedge(points, low, high, r, i, j, j + n) + LocalWedge(points, low, high, r, i, j + n, i + n)
            == 2.0 * (high - low) * Shear(Relative(points[i], Point(q.x, q.y)), Relative(points[j], Point(q.x, q.y)))
  {
    hide Det, Shear;
    var q := Local(points, low, high, r);
    var a, b := Relative(points[i], Point(q.x, q.y)), Relative(points[j], Point(q.x, q.y));
    var l, h := low - q.z, high - q.z;
    WallDet(a, b, l, h, high - low);
    assert LocalWedge(points, low, high, r, i, j, j + |points|)
        == Det(Vec(a.x, a.y, l), Vec(b.x, b.y, l), Vec(b.x, b.y, h));
    assert LocalWedge(points, low, high, r, i, j + |points|, i + |points|)
        == Det(Vec(a.x, a.y, l), Vec(b.x, b.y, h), Vec(a.x, a.y, h));
  }

  // ----- The plate as a whole -----

  lemma ContourCapsStep(cap: seq<Tri>, n: nat, k: nat)
    requires 0 < k <= |cap|
    ensures var t := cap[k - 1];
            ContourCaps(cap, n, k) == ContourCaps(cap, n, k - 1) + [t.c, t.b, t.a] + [t.a + n, t.b + n, t.c + n]
  {
  }

  lemma {:induction false} CapsVolume(points: seq<Point>, frame: Frame, low: real, high: real, r: nat, cap: seq<Tri>,
                                      k: nat)
    requires r < 2 * |points| && k <= |cap| && TrisInRange(cap, |points|)
    ensures AllBelow(ContourCaps(cap, |points|, k), 2 * |points|)
    ensures var positions := PlatePositions(points, frame, low, high);
            Wedges(positions, ContourCaps(cap, |points|, k), positions[r]) ==
            FrameVolume(frame) * ((high - low) * TrisArea(points, cap[..k]))
  {
    hide Wedge, LocalWedge, TriArea, FrameVolume, Det, ContourCaps, PlatePositions;
    ContourCapsBelow(cap, |points|, k);
    if k == 0 {
      assert cap[..0] == [];
      NoCaps(cap, |points|);
      ZeroReals(FrameVolume(frame), high - low);
    } else {
      CapsVolume(points, frame, low, high, r, cap, k - 1);
      CapVolumeStep(points, frame, low, high, r, cap, k);
      TrisAreaLast(points, cap[..k]);
      assert cap[..k][..k - 1] == cap[..k - 1];
      AddReals(FrameVolume(frame), high - low, TrisArea(points, cap[..k - 1]), TriArea(points, cap[k - 1]));
    }
  }

  lemma NoCaps(cap: seq<Tri>, n: nat)
    ensures ContourCaps(cap, n, 0) == []
  {
  }

  lemma CapVolumeStep(points: seq<Point>, frame: Frame, low: real, high: real, r: nat, cap: seq<Tri>, k: nat)
    requires r < 2 * |points| && 0 < k <= |cap| && TrisInRange(cap, |points|)
    requires AllBelow(ContourCaps(cap, |points|, k - 1), 2 * |points|)
    requires AllBelow(ContourCaps(cap, |points|, k), 2 * |points|)
    ensures var positions := PlatePositions(points, frame, low, high);
            Wedges(positions, ContourCaps(cap, |points|, k), positions[r]) ==
            Wedges(positions, ContourCaps(cap, |points|, k - 1), positions[r])
            + FrameVolume(frame) * ((high - low) * TriArea(points, cap[k - 1]))
  {
    hide Wedge, Wedges, LocalWedge, TriArea, FrameVolume, Det, ContourCaps, PlatePositions;
    var n, positions := |points|, PlatePositions(points, frame, low, high);
    var t, s := cap[k - 1], ContourCaps(cap, n, k - 1);
    ContourCapsStep(cap, n, k);
    WedgesTri(positions, s, t.c, t.b, t.a, s + [t.c, t.b, t.a], positions[r]);
    WedgesTri(positions, s + [t.c, t.b, t.a], t.a + n, t.b + n, t.c + n, ContourCaps(cap, n, k), positions[r]);
    WedgeIsLocal(points, frame, low, high, r, t.c, t.b, t.a);
    WedgeIsLocal(points, frame, low, high, r, t.a + n, t.b + n, t.c + n);
    CapPair(points, low, high, r, t);
    PairReals(FrameVolume(frame), (high - low) * TriArea(points, t),
              LocalWedge(points, low, high, r, t.c, t.b, t.a),
                  LocalWedge(points, low, high, r, t.a + n, t.b + n, t.c + n));
  }

  lemma AddReals(d: real, h: real, area: real, step: real)
    ensures d * (h * area) + d * (h * step) == d * (h * (area + step))
  {
  }

  lemma PairReals(d: real, total: real, v: real, w: real)
    requires v + w == total
    ensures d * v + d * w == d * total
  {
  }

  lemma ZeroReals(d: real, h: real)
    ensures d * (h * 0.0) == 0.0
  {
  }

  lemma {:induction false} TrisAreaLast(points: seq<Point>, ts: seq<Tri>)
    requires ts != [] && TrisInRange(ts, |points|)
    ensures TrisArea(points, ts) == TrisArea(points, ts[..|ts| - 1]) + TriArea(points, ts[|ts| - 1])
  {
    hide TriArea;
    if |ts| > 1 {
      TrisAreaLast(points, ts[1..]);
      assert ts[1..][..|ts| - 2] == ts[..|ts| - 1][1..];
    } else {
      assert ts[1..] == [] && ts[..0] == [];
    }
  }

  /** The relative shears of the first `k` sides of the contour. */
  function SideShears(points: seq<Point>, o: Point, k: nat): real
    requires k <= |points|
  {
    if k == 0 then 0.0
    else SideShears(points, o, k - 1) + Shear(Relative(points[k - 1], o), Relative(points[Next(k - 1, |points|)], o))
  }

  lemma {:induction false} SideShearsTelescope(points: seq<Point>, o: Point, k: nat)
    requires k < |points|
    ensures SideShears(points, o, k) == PartialArea(points, k) - (Shear(o, points[k]) - Shear(o, points[0]))
  {
    hide Shear;
    if k > 0 {
      SideShearsTelescope(points, o, k - 1);
      RelativeStep(points[k - 1], points[k], o);
    }
  }

  /** Around the whole contour the reference cancels and twice the signed area is left. */
  lemma SideShearsAreArea(points: seq<Point>, o: Point)
    requires |points| >= 1
    ensures SideShears(points, o, |points|) == 2.0 * SignedArea(points)
  {
    hide Shear;
    var n := |points|;
    SideShearsTelescope(points, o, n - 1);
    RelativeStep(points[n - 1], points[0], o);
  }

  lemma {:induction false} WallsVolume(points: seq<Point>, frame: Frame, low: real, high: real, r: nat,
                                       before: seq<nat>, k: nat)
    requires r < 2 * |points| && k <= |points|
    requires AllBelow(before, 2 * |points|)
    ensures AllBelow(before + Band(0, |points|, |points|, k), 2 * |points|)
    ensures var positions, q := PlatePositions(points, frame, low, high), Local(points, low, high, r);
            Wedges(positions, before + Band(0, |points|, |points|, k), positions[r]) ==
            Wedges(positions, before, positions[r])
                + FrameVolume(frame) * (2.0 * (high - low) * SideShears(points, Point(q.x, q.y), k))
  {
    hide Wedge, Wedges, LocalWedge, FrameVolume, Det, Shear, Local, Band, PlatePositions;
    var n, q := |points|, Local(points, low, high, r);
    BandBelow(0, n, n, k, 2 * n);
    if k == 0 {
      NoBand(before, n);
      ZeroReals(FrameVolume(frame), 2.0 * (high - low));
    } else {
      var o := Point(q.x, q.y);
      WallsVolume(points, frame, low, high, r, before, k - 1);
      BandStep(before, n, k);
      WallVolumeStep(points, frame, low, high, r, before + Band(0, n, n, k - 1), before + Band(0, n, n, k), k);
      AddReals(FrameVolume(frame), 2.0 * (high - low), SideShears(points, o, k - 1),
               Shear(Relative(points[k - 1], o), Relative(points[Next(k - 1, n)], o)));
    }
  }

  lemma NoBand(before: seq<nat>, n: nat)
    ensures before + Band(0, n, n, 0) == before
  {
  }

  lemma BandStep(before: seq<nat>, n: nat, k: nat)
    requires 0 < k <= n
    ensures var i, j := k - 1, Next(k - 1, n);
            before + Band(0, n, n, k) == before + Band(0, n, n, k - 1) + [i, j, n + j] + [i, n + j, n + i]
  {
  }

  lemma WallVolumeStep(points: seq<Point>, frame: Frame, low: real, high: real, r: nat, s: seq<nat>, t: seq<nat>,
                       k: nat)
    requires r < 2 * |points| && 0 < k <= |points|
    requires AllBelow(s, 2 * |points|)
    requires AllBelow(t, 2 * |points|)
    requires var i, j, n := k - 1, Next(k - 1, |points|), |points|; t == s + [i, j, n + j] + [i, n + j, n + i]
    ensures var positions, q := PlatePositions(points, frame, low, high), Local(points, low, high, r);
            Wedges(positions, t, positions[r]) == Wedges(positions, s, positions[r])
            + FrameVolume(frame) * (2.0 * (high - low) * Shear(Relative(points[k - 1], Point(q.x, q.y)),
                                                               Relative(points[Next(k - 1, |points|)],
                                                                   Point(q.x, q.y))))
  {
    hide Wedge, Wedges, LocalWedge, FrameVolume, Det, Shear, Local, PlatePositions;
    var n, positions, q := |points|, PlatePositions(points, frame, low, high), Local(points, low, high, r);
    var i, j, o := k - 1, Next(k - 1, n), Point(q.x, q.y);
    WedgesTri(positions, s, i, j, n + j, s + [i, j, n + j], positions[r]);
    WedgesTri(positions, s + [i, j, n + j], i, n + j, n + i, t, positions[r]);
    WedgeIsLocal(points, frame, low, high, r, i, j, j + n);
    WedgeIsLocal(points, frame, low, high, r, i, j + n, i + n);
    WallPair(points, low, high, r, i, j);
    PairReals(FrameVolume(frame), 2.0 * (high - low) * Shear(Relative(points[i], o), Relative(points[j], o)),
              LocalWedge(points, low, high, r, i, j, j + n), LocalWedge(points, low, high, r, i, j + n, i + n));
  }

  /**
   Against any of its own vertices, a plate's signed volume is six times its contour area
   times its thickness times the volume of the frame's axes.
   */
  lemma PlateVolume(contour: seq<Point>, frame: Frame, thickness: real, r: nat)
    requires ContourMesh(contour, frame, thickness).Some? && r < 2 * |contour|
    ensures var mesh := ContourMesh(contour, frame, thickness).value;
      && AllBelow(mesh.indices, |mesh.positions|)
      && r < |mesh.positions|
      && Wedges(mesh.positions, mesh.indices, mesh.positions[r]) ==
         6.0 * (FrameVolume(frame) * (thickness * AbsoluteArea(contour)))
  {
    hide Wedges, ContourCaps, Band, FrameVolume, TriangulationOf, PartialArea, SignedArea, Shear;
    ContourMeshIsClosed(contour, frame, thickness);
    var points, half := Normalized(contour), thickness / 2.0;
    NormalizedArea(contour);
    var cap, n, area := TriangulationOf(points).value, |points|, AbsoluteArea(contour);
    TriangulationIsSound(points);
    assert AbsoluteArea(points) == area by { SameArea(points, contour); }
    var mesh := ContourMesh(contour, frame, thickness).value;
    assert mesh.positions == PlatePositions(points, frame, -half, half);
    CapsVolume(points, frame, -half, half, r, cap, |cap|);
    assert cap[..|cap|] == cap;
    WallsVolume(points, frame, -half, half, r, ContourCaps(cap, n, |cap|), n);
    var q := Local(points, -half, half, r);
    SideShearsAreArea(points, Point(q.x, q.y));
    TotalReals(FrameVolume(frame), thickness, area);
  }

  lemma SameArea(points: seq<Point>, contour: seq<Point>)
    requires SignedArea(points) == AbsoluteArea(contour)
    ensures AbsoluteArea(points) == AbsoluteArea(contour)
  {
  }

  lemma TotalReals(d: real, t: real, area: real)
    ensures var h := t / 2.0 - -(t / 2.0);
            d * (h * (2.0 * area)) + d * (2.0 * h * (2.0 * area)) == 6.0 * (d * (t * area))
  {
    assert t / 2.0 - -(t / 2.0) == t;
  }

  /**
   In an orthonormal frame of either handedness, the volume the SDK reports for a plate is
   its contour area times its thickness.
   */
  lemma PlateVolumeIsAreaTimesThickness(contour: seq<Point>, frame: Frame, thickness: real)
    requires ContourMesh(contour, frame, thickness).Some?
    requires Orthonormal(frame.xAxis, frame.yAxis, frame.zAxis)
    ensures var mesh := ContourMesh(contour, frame, thickness).value;
      && AllBelow(mesh.indices, |mesh.positions|)
      && Volume(mesh) == AbsoluteArea(contour) * thickness
  {
    hide Wedges, TriangulationOf, SignedArea, ContourMesh, Det;
    var mesh, d, area := ContourMesh(contour, frame, thickness).value, FrameVolume(frame), AbsoluteArea(contour);
    ContourMeshIsClosed(contour, frame, thickness);
    ContourHasFaces(contour, frame, thickness);
    PlateVolume(contour, frame, thickness, 0);
    OrthonormalVolume(frame.xAxis, frame.yAxis, frame.zAxis);
    assert mesh.indices[..|mesh.indices| / 3 * 3] == mesh.indices;
    UnitRoot(d);
  }

  lemma ContourHasFaces(contour: seq<Point>, frame: Frame, thickness: real)
    requires ContourMesh(contour, frame, thickness).Some?
    ensures var mesh := ContourMesh(contour, frame, thickness).value; |mesh.positions| >= 3 && |mesh.indices| >= 3
    ensures thickness > 0.0 && AbsoluteArea(contour) >= 0.0
  {
    var points := Normalized(contour);
    TriangulationIsSound(points);
  }

  lemma UnitRoot(d: real)
    requires d * d == 1.0
    ensures d == 1.0 || d == -1.0
  {
    assert (d - 1.0) * (d + 1.0) == 0.0;
  }
}
