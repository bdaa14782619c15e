/**
 Straight prisms: plates extruded from a planar contour, and solid or hollow members
 extruded from a section.
 */
module Prisms {
  import opened MeshIndices
  import opened MeshTopology
  import opened RingChains
  import opened Triangulation
  import opened Vectors
  import opened Wrappers

  /** Vertex positions (one vector for each XYZ triple) and the flat index buffer. */
  datatype Mesh = Mesh(positions: seq<Vec>, indices: seq<nat>)

  datatype Kind = Solid | Hollow

  /** A member's cross-section; `cap` is a stored triangulation of the outline, or empty. */
  datatype Section = Section(kind: Kind, outer: seq<Point>, inner: seq<Point>, cap: seq<Tri>)

  function Reversed(points: seq<Point>): (r: seq<Point>)
    ensures |r| == |points| && forall i :: 0 <= i < |r| ==> r[i] == points[|points| - 1 - i]
  {
    seq(|points|, (i: nat) requires i < |points| => points[|points| - 1 - i])
  }

  /** The contour turned counter-clockwise. */
  function Normalized(points: seq<Point>): (r: seq<Point>)
    ensures |r| == |points|
  {
    if SignedArea(points) < 0.0 then Reversed(points) else points
  }

  lemma {:induction false} ReversedShear(points: seq<Point>, k: nat)
    requires k < |points|
    ensures PartialArea(Reversed(points), k)
              == PartialArea(points, |points| - 1 - k) - PartialArea(points, |points| - 1)
  {
    hide Shear;
    if k > 0 {
      ReversedShear(points, k - 1);
      var i := |points| - 1 - k;
      ShearReversed(points[i + 1], points[i]);
    }
  }

  /** Reversing a contour negates its area. */
  lemma ReversedArea(points: seq<Point>)
    requires points != []
    ensures SignedArea(Reversed(points)) == -SignedArea(points)
  {
    hide Shear, Reversed;
    var n, back := |points|, Reversed(points);
    ReversedShear(points, n - 1);
    ShearReversed(points[0], points[n - 1]);
    assert PartialArea(points, n) == PartialArea(points, n - 1) + Shear(points[n - 1], points[0]);
    assert PartialArea(back, n) == PartialArea(back, n - 1) + Shear(back[n - 1], back[0]);
    assert PartialArea(points, 0) == 0.0;
  }

  lemma NormalizedArea(points: seq<Point>)
    ensures SignedArea(Normalized(points)) == AbsoluteArea(points)
  {
    hide Shear;
    if SignedArea(points) < 0.0 { ReversedArea(points); }
  }

  // ----- Plates extruded from a contour -----

  /** One ring of a plate, at height `z` over the contour. */
  function ContourRing(contour: seq<Point>, frame: Frame, z: real): (ring: seq<Vec>)
    ensures |ring| == |contour|
  {
    seq(|contour|, (i: nat) requires i < |contour| => PointIn(frame, contour[i].x, contour[i].y, z))
  }

  function ContourCaps(cap: seq<Tri>, n: nat, k: nat): seq<nat>
    requires k <= |cap|
  {
    if k == 0 then [] else
      var t := cap[k - 1];
      ContourCaps(cap, n, k - 1) + [t.c, t.b, t.a] + [t.a + n, t.b + n, t.c + n]
  }

  function ContourPrism(cap: seq<Tri>, n: nat): seq<nat> {
    ContourCaps(cap, n, |cap|) + Band(0, n, n, n)
  }

  /** The plate over a contour, or nothing when it has no triangulation or no thickness. */
  ghost function ContourMesh(contour: seq<Point>, frame: Frame, thickness: real): Option<Mesh> {
    var points := Normalized(contour);
    var cap := TriangulationOf(points);
    if cap.None? || thickness <= 0.0 then None
    else Some(Mesh(ContourRing(points, frame, -(thickness / 2.0)) + ContourRing(points, frame, thickness / 2.0),
                   ContourPrism(cap.value, |points|)))
  }

  method ExtrudeContour(contour: seq<Point>, frame: Frame, thickness: real) returns (result: Option<Mesh>)
    ensures result == ContourMesh(contour, frame, thickness)
  {
    var normalized := contour;
    var area := ComputeSignedArea(normalized);
    if area < 0.0 { normalized := Reversed(normalized); }
    var cap := Triangulate(normalized);
    if cap.None? || thickness <= 0.0 { return None; }
    var half := thickness / 2.0;
    var lower := AppendRing([], normalized, frame, -half);
    var positions := AppendRing(lower, normalized, frame, half);
    assert [] + ContourRing(normalized, frame, -half) == ContourRing(normalized, frame, -half);
    var indices := ContourPrismIndices(cap.value, |normalized|);
    return Some(Mesh(positions, indices));
  }

  method ContourPrismIndices(cap: seq<Tri>, count: nat) returns (indices: seq<nat>)
    ensures indices == ContourPrism(cap, count)
  {
    indices := [];
    for k := 0 to |cap|
      invariant indices == ContourCaps(cap, count, k)
    {
      var triangle := cap[k];
      indices := indices + [triangle.c, triangle.b, triangle.a];
      indices := indices + [triangle.a + count, triangle.b + count, triangle.c + count];
    }
    ghost var caps := indices;
    for index := 0 to count
      invariant indices == caps + Band(0, count, count, index)
    {
      var next := Next(index, count);
      indices := indices + [index, next, next + count, index, next + count, index + count];
    }
  }

  method AppendRing(before: seq<Vec>, contour: seq<Point>, frame: Frame, z: real) returns (positions: seq<Vec>)
    ensures positions == before + ContourRing(contour, frame, z)
  {
    positions := before;
    for index := 0 to |contour|
      invariant positions == before + ContourRing(contour, frame, z)[..index]
    {
      positions := positions + [PointIn(frame, contour[index].x, contour[index].y, z)];
    }
  }

  lemma CountStep(ts: seq<Tri>, k: nat, e: Edge)
    requires 0 < k <= |ts|
    ensures Count(ts[..k], e) == Count(ts[..k - 1], e) + TriCount(ts[k - 1], e)
  {
    assert ts[..k] == ts[..k - 1] + [ts[k - 1]];
    CountOne(ts[..k - 1], ts[k - 1], e);
  }

  lemma {:induction false} ContourCapsCount(cap: seq<Tri>, n: nat, k: nat, e: Edge)
    requires k <= |cap|
    ensures |ContourCaps(cap, n, k)| % 3 == 0
    ensures BufferCount(ContourCaps(cap, n, k), e) == Count(cap[..k], Rev(e)) + Count(Shifted(cap[..k], n), e)
  {
    hide BufferCount, Count, Shifted;
    EmptyBuffer(e);
    EmptyBuffer(Rev(e));
    EmptyCap(cap, n, n);
    assert cap[..0] == [];
    if k > 0 {
      var s, t := ContourCaps(cap, n, k - 1), cap[k - 1];
      ContourCapsCount(cap, n, k - 1, e);
      BufferTri(s, t.c, t.b, t.a, e);
      BufferTri(s + [t.c, t.b, t.a], t.a + n, t.b + n, t.c + n, e);
      ShiftedStep(cap, n, k, e);
      CountStep(cap, k, Rev(e));
    }
  }

  lemma {:induction false} ContourCapsBelow(cap: seq<Tri>, n: nat, k: nat)
    requires k <= |cap| && TrisInRange(cap, n)
    ensures IndicesBelow(ContourCaps(cap, n, k), 2 * n)
  {
    if k > 0 { ContourCapsBelow(cap, n, k - 1); }
  }

  lemma TwoRings(n: nat, p: nat, q: nat)
    requires n >= 3 && (p + n <= q || q + n <= p)
    ensures Loops([LoopAt(p, n), LoopAt(q, n)], n)
  {
  }

  /** The rings of a prism and its walls form a chain of two loops. */
  lemma TwoRingCount(n: nat, p: nat, q: nat, e: Edge)
    requires Loops([LoopAt(p, n), LoopAt(q, n)], n)
    ensures ChainCount([LoopAt(p, n), LoopAt(q, n)], n, NoFlips(n), 1, e) == BufferCount(Band(p, q, n, n), e)
  {
    var loops := [LoopAt(p, n), LoopAt(q, n)];
    BandCount(p, q, n, n, e);
    assert ChainCount(loops, n, NoFlips(n), 0, e) == 0;
  }

  lemma ContourPrismIsClosed(cap: seq<Tri>, n: nat)
    requires n >= 3 && TrisInRange(cap, n) && Disc(LoopAt(0, n), cap)
    ensures ClosedSurface(ContourPrism(cap, n), 2 * n)
  {
    hide BufferCount, Count, Shifted, ContourCaps, Band, ChainCount, Disc;
    var loops, indices := [LoopAt(0, n), LoopAt(n, n)], ContourPrism(cap, n);
    TwoRings(n, 0, n);
    ShiftedDisc(cap, n, n);
    ContourCapsBelow(cap, n, |cap|);
    BandBelow(0, n, n, n, 2 * n);
    forall e: Edge ensures BufferCount(indices, e) == TubeCount(loops, n, NoFlips(n), cap, Shifted(cap, n), e) {
      BufferConcat(ContourCaps(cap, n, |cap|), Band(0, n, n, n), e);
      ContourCapsCount(cap, n, |cap|, e);
      assert cap[..|cap|] == cap;
      TwoRingCount(n, 0, n, e);
    }
    TubeIsClosed(loops, n, NoFlips(n), cap, Shifted(cap, n), indices);
  }

  /** The cap of a counter-clockwise contour is a disc over the contour's own ring. */
  lemma CapIsDisc(points: seq<Point>)
    requires TriangulationOf(points).Some? && SignedArea(points) >= 0.0
    ensures Disc(LoopAt(0, |points|), TriangulationOf(points).value)
    ensures TrisInRange(TriangulationOf(points).value, |points|)
  {
    TriangulationIsSound(points);
    assert StartOrder(points) == LoopAt(0, |points|);
  }

  /** Whenever a plate is built at all, it is a closed oriented surface over its own vertices. */
  lemma ContourMeshIsClosed(contour: seq<Point>, frame: Frame, thickness: real)
    requires ContourMesh(contour, frame, thickness).Some?
    ensures var mesh := ContourMesh(contour, frame, thickness).value;
            ClosedSurface(mesh.indices, |mesh.positions|) && |mesh.positions| == 2 * |contour|
  {
    var points := Normalized(contour);
    NormalizedArea(contour);
    CapIsDisc(points);
    ContourPrismIsClosed(TriangulationOf(points).value, |points|);
  }

  // ----- Straight members extruded from a section -----

  /** One ring of a section, at distance `x` along the member. */
  function SectionRing(outline: seq<Point>, frame: Frame, x: real): (ring: seq<Vec>)
    ensures |ring| == |outline|
  {
    seq(|outline|, (i: nat) requires i < |outline| => PointIn(frame, x, outline[i].x, outline[i].y))
  }

  function CapOf(cap: Option<seq<Tri>>): seq<Tri> {
    if cap.Some? then cap.value else []
  }

  function MemberIndices(kind: Kind, outer: nat, inner: nat, cap: seq<Tri>): seq<nat> {
    Band(0, outer, outer, outer)
    + if kind.Solid? then Caps(cap, 0, outer, |cap|)
      else BackBand(2 * outer, 2 * outer + inner, inner, inner)
           + if outer == inner then Rims(0, 2 * outer, outer, 2 * outer + inner, outer, outer) else []
  }

  function MemberPositions(kind: Kind, outer: seq<Point>, inner: seq<Point>, frame: Frame,
                           length: real): (positions: seq<Vec>)
    ensures |positions| == if kind.Solid? then 2 * |outer| else 2 * |outer| + 2 * |inner|
  {
    var rings := SectionRing(outer, frame, 0.0) + SectionRing(outer, frame, length);
    if kind.Solid? then rings else rings + (SectionRing(inner, frame, 0.0) + SectionRing(inner, frame, length))
  }

  ghost function MemberMesh(section: Section, frame: Frame, length: real): Mesh {
    var outer, inner := Normalized(section.outer), Normalized(section.inner);
    Mesh(MemberPositions(section.kind, outer, inner, frame, length),
         MemberIndices(section.kind, |outer|, |inner|, CapOf(TriangulationOf(outer))))
  }

  method Extrude(section: Section, frame: Frame, length: real) returns (mesh: Mesh)
    ensures mesh == MemberMesh(section, frame, length)
  {
    var outer, inner := section.outer, section.inner;
    var outerArea := ComputeSignedArea(outer);
    if outerArea < 0.0 { outer := Reversed(outer); }
    var innerArea := ComputeSignedArea(inner);
    if innerArea < 0.0 { inner := Reversed(inner); }
    var positions := BuildMemberPositions(section.kind, outer, inner, frame, length);
    var evaluated := Triangulate(outer);
    var indices := BuildMemberIndices(section.kind, |outer|, |inner|, CapOf(evaluated));
    mesh := Mesh(positions, indices);
  }

  method BuildMemberPositions(kind: Kind, outer: seq<Point>, inner: seq<Point>, frame: Frame, length: real)
    returns (positions: seq<Vec>)
    ensures positions == MemberPositions(kind, outer, inner, frame, length)
  {
    positions := AppendSectionRing([], outer, frame, 0.0);
    assert [] + SectionRing(outer, frame, 0.0) == SectionRing(outer, frame, 0.0);
    positions := AppendSectionRing(positions, outer, frame, length);
    if kind.Hollow? {
      ghost var rings := positions;
      positions := AppendSectionRing(positions, inner, frame, 0.0);
      positions := AppendSectionRing(positions, inner, frame, length);
      assert positions == rings + (SectionRing(inner, frame, 0.0) + SectionRing(inner, frame, length));
    }
  }

  method AppendSectionRing(before: seq<Vec>, outline: seq<Point>, frame: Frame, x: real) returns (positions: seq<Vec>)
    ensures positions == before + SectionRing(outline, frame, x)
  {
    positions := before;
    for index := 0 to |outline|
      invariant positions == before + SectionRing(outline, frame, x)[..index]
    {
      positions := positions + [PointIn(frame, x, outline[index].x, outline[index].y)];
    }
  }

  method BuildMemberIndices(kind: Kind, outer: nat, inner: nat, cap: seq<Tri>) returns (indices: seq<nat>)
    ensures indices == MemberIndices(kind, outer, inner, cap)
  {
    indices := [];
    for index := 0 to outer
      invariant indices == Band(0, outer, outer, index)
    {
      var next := Next(index, outer);
      indices := indices + Quad(index, next, next + outer, index + outer);
    }
    ghost var walls := indices;
    if kind.Solid? {
      indices := AppendCaps(indices, cap, 0, outer);
    } else {
      var innerStart := outer * 2;
      var innerEnd := innerStart + inner;
      for index := 0 to inner
        invariant indices == walls + BackBand(innerStart, innerEnd, inner, index)
      {
        var next := Next(index, inner);
        indices := indices + Quad(innerStart + next, innerStart + index, innerEnd + index, innerEnd + next);
      }
      if outer == inner {
        ghost var sides := indices;
        indices := AppendRims(indices, 0, innerStart, outer, innerEnd, outer);
        assert indices == walls
            + (BackBand(innerStart, innerEnd, inner, inner) + Rims(0, innerStart, outer, innerEnd, outer, outer));
      }
    }
  }

  method AppendCaps(before: seq<nat>, cap: seq<Tri>, first: nat, last: nat) returns (indices: seq<nat>)
    ensures indices == before + Caps(cap, first, last, |cap|)
  {
    indices := before;
    for k := 0 to |cap|
      invariant indices == before + Caps(cap, first, last, k)
    {
      var triangle := cap[k];
      indices := indices + [first + triangle.a, first + triangle.c, first + triangle.b];
      indices := indices + [last + triangle.a, last + triangle.b, last + triangle.c];
    }
  }

  method AppendRims(before: seq<nat>, outStart: nat, inStart: nat, outEnd: nat, inEnd: nat, n: nat)
    returns (indices: seq<nat>)
    ensures indices == before + Rims(outStart, inStart, outEnd, inEnd, n, n)
  {
    hide Next;
    indices := before;
    for index := 0 to n
      invariant indices == before + Rims(outStart, inStart, outEnd, inEnd, n, index)
    {
      var next := Next(index, n);
      ghost var was := Rims(outStart, inStart, outEnd, inEnd, n, index);
      indices := indices + Quad(outStart + next, outStart + index, inStart + index, inStart + next);
      indices := indices + Quad(outEnd + index, outEnd + next, inEnd + next, inEnd + index);
      assert indices == before + (was + Quad(outStart + next, outStart + index, inStart + index, inStart + next)
                                  + Quad(outEnd + index, outEnd + next, inEnd + next, inEnd + index));
    }
  }

  // ----- When a straight member is closed -----

  lemma SolidMember(n: nat, cap: seq<Tri>, e: Edge)
    ensures BufferCount(MemberIndices(Solid, n, 0, cap), e) ==
            BufferCount(Band(0, n, n, n), e) + Count(cap, Rev(e)) + Count(Shifted(cap, n), e)
    ensures |MemberIndices(Solid, n, 0, cap)| % 3 == 0
  {
    hide BufferCount, Count, Band, Caps, Shifted, MemberIndices, Rev;
    var walls, caps := Band(0, n, n, n), Caps(cap, 0, n, |cap|);
    SolidParts(n, cap);
    CapsLength(cap, 0, n, |cap|);
    BandTriples(0, n, n, n);
    WholeTriples(|walls|, |cap|);
    BufferConcat(walls, caps, e);
    CapsCount(cap, 0, n, |cap|, e);
    assert cap[..|cap|] == cap;
    ShiftedByNothing(cap);
  }

  lemma SolidParts(n: nat, cap: seq<Tri>)
    ensures MemberIndices(Solid, n, 0, cap) == Band(0, n, n, n) + Caps(cap, 0, n, |cap|)
  {
  }

  lemma WholeTriples(a: nat, k: nat)
    requires a % 3 == 0
    ensures (a + 6 * k) % 3 == 0
  {
  }

  lemma {:induction false} ShiftedByNothing(ts: seq<Tri>)
    ensures Shifted(ts, 0) == ts
  {
    if ts != [] { ShiftedByNothing(ts[..|ts| - 1]); }
  }

  lemma SolidMemberIsClosed(n: nat, cap: seq<Tri>, inner: nat)
    requires n >= 3 && Disc(LoopAt(0, n), cap) && TrisInRange(cap, n)
    ensures ClosedSurface(MemberIndices(Solid, n, inner, cap), 2 * n)
  {
    hide BufferCount, Count, Shifted, Caps, Band, ChainCount;
    var loops, indices := [LoopAt(0, n), LoopAt(n, n)], MemberIndices(Solid, n, inner, cap);
    TwoRings(n, 0, n);
    ShiftedDisc(cap, n, n);
    BandBelow(0, n, n, n, 2 * n);
    CapsBelow(cap, 0, n, n, |cap|, 2 * n);
    forall e: Edge ensures BufferCount(indices, e) == TubeCount(loops, n, NoFlips(n), cap, Shifted(cap, n), e) {
      SolidMember(n, cap, e);
      TwoRingCount(n, 0, n, e);
    }
    TubeIsClosed(loops, n, NoFlips(n), cap, Shifted(cap, n), indices);
  }

  lemma HollowMember(n: nat, cap: seq<Tri>, e: Edge)
    ensures |MemberIndices(Hollow, n, n, cap)| % 3 == 0
    ensures BufferCount(MemberIndices(Hollow, n, n, cap), e) == HollowWalls([0, n], [2 * n, 3 * n], n, e)
  {
    hide BufferCount, Band, BackBand, Rims;
    var walls, backs, rims := Band(0, n, n, n), BackBand(2 * n, 2 * n + n, n, n), Rims(0, 2 * n, n, 2 * n + n, n, n);
    BandTriples(0, n, n, n);
    BandTriples(2 * n, 2 * n + n, n, n);
    RimsTriples(0, 2 * n, n, 2 * n + n, n, n);
    BufferConcat(backs, rims, e);
    BufferConcat(walls, backs + rims, e);
    RimsCount(0, 2 * n, n, 2 * n + n, n, n, e);
    var outs, ins := [0, n], [2 * n, 3 * n];
    assert WallCount(outs, n, 0, e) == 0 && BackWallCount(ins, n, 0, 0, e) == 0;
    assert WallCount(outs, n, 1, e) == BufferCount(Band(outs[0], outs[1], n, n), e);
    assert BackWallCount(ins, n, 0, 1, e) == BufferCount(BackBand(ins[0], ins[1], n, n), e);
  }

  lemma HollowMemberIsClosed(n: nat, cap: seq<Tri>)
    requires n >= 3
    ensures ClosedSurface(MemberIndices(Hollow, n, n, cap), 4 * n)
  {
    hide BufferCount, Band, BackBand, Rims, WallCount, BackWallCount;
    var indices, outs, ins := MemberIndices(Hollow, n, n, cap), [0, n], [2 * n, 3 * n];
    BandBelow(0, n, n, n, 4 * n);
    BandBelow(2 * n, 3 * n, n, n, 4 * n);
    RimsBelow(0, 2 * n, n, 3 * n, n, n, 4 * n);
    forall e: Edge ensures BufferCount(indices, e) == HollowWalls(outs, ins, n, e) {
      HollowMember(n, cap, e);
    }
    HollowIsClosed([0, n, 3 * n, 2 * n], outs, ins, n, indices);
  }

  /** An edge the walls leave open unless the ends close it. */
  lemma OpenEnds(indices: seq<nat>)
    requires BufferCount(indices, Edge(0, 1)) != 1 || BufferCount(indices, Edge(1, 0)) != 1
    requires BufferCount(indices, Edge(0, 1)) != 0
    ensures !ClosedBuffer(indices)
  {
    hide BufferCount;
    assert Rev(Edge(0, 1)) == Edge(1, 0);
  }

  lemma OpenMember(kind: Kind, n: nat, inner: nat, cap: seq<Tri>)
    requires n >= 3 && (if kind.Solid? then cap == [] else n != inner)
    ensures !ClosedBuffer(MemberIndices(kind, n, inner, cap))
  {
    hide BufferCount, Band, BackBand, Rims;
    var indices := MemberIndices(kind, n, inner, cap);
    FirstEdge(n, n);
    if kind.Solid? {
      assert Caps([], 0, n, 0) == [];
      assert indices == Band(0, n, n, n);
    } else {
      BandTriples(2 * n, 2 * n + inner, inner, inner);
      forall e: Edge | e.tail < 2 ensures BufferCount(indices, e) == BufferCount(Band(0, n, n, n), e) {
        assert indices == Band(0, n, n, n) + BackBand(2 * n, 2 * n + inner, inner, inner);
        BufferConcat(Band(0, n, n, n), BackBand(2 * n, 2 * n + inner, inner, inner), e);
        BandAbove(2 * n, 2 * n + inner, inner, e);
      }
    }
    OpenEnds(indices);
  }

  /**
   The exact condition for a straight member to be a closed oriented surface: a solid needs
   an outline the triangulator accepts, a hollow one needs loops of equal length. Otherwise
   its ends stay open. A solid ignores any inner loop.
   */
  lemma MemberIsClosed(section: Section, frame: Frame, length: real)
    requires |section.outer| >= 3
    ensures var mesh := MemberMesh(section, frame, length);
      && (ClosedBuffer(mesh.indices) <==>
           if section.kind.Solid? then TriangulationOf(Normalized(section.outer)).Some?
           else |section.outer| == |section.inner|)
      && (ClosedBuffer(mesh.indices) ==> ClosedSurface(mesh.indices, |mesh.positions|))
  {
    hide BufferCount, MemberIndices, TriangulationOf, SignedArea, ClosedBuffer;
    var outer, n := Normalized(section.outer), |section.outer|;
    var cap := CapOf(TriangulationOf(outer));
    NormalizedArea(section.outer);
    if section.kind.Solid? {
      if TriangulationOf(outer).Some? {
        CapIsDisc(outer);
        SolidMemberIsClosed(n, cap, |section.inner|);
      } else {
        OpenMember(Solid, n, |section.inner|, cap);
      }
    } else if n == |section.inner| {
      HollowMemberIsClosed(n, cap);
    } else {
      OpenMember(Hollow, n, |section.inner|, cap);
    }
  }
}
