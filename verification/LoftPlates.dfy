/**
 Plates lofted between two rails: four vertices at every station, joined by quads whose
 diagonals alternate, and closed at both ends.
 */
module LoftPlates {
  import opened MeshIndices
  import opened MeshTopology
  import opened Prisms
  import opened Triangulation
  import opened Vectors

  /** The paired rail points at one parameter and half the thickness along the plate normal. */
  datatype LoftStation = LoftStation(first: Vec, second: Vec, offset: Vec)

  function StationVertices(station: LoftStation): (ring: seq<Vec>)
    ensures |ring| == 4
  {
    [Add(station.first, station.offset), Add(station.second, station.offset),
     Subtract(station.first, station.offset), Subtract(station.second, station.offset)]
  }

  function LoftPositions(stations: seq<LoftStation>): (positions: seq<Vec>)
    ensures |positions| == 4 * |stations|
  {
    if stations == [] then []
    else LoftPositions(stations[..|stations| - 1]) + StationVertices(stations[|stations| - 1])
  }

  /** Top, bottom, and the two long edges between two consecutive stations. */
  function Segment(current: nat, following: nat): seq<nat> {
    Quad(current, following, following + 1, current + 1)
    + Quad(current + 2, current + 3, following + 3, following + 2)
    + Quad(current + 2, following + 2, following, current)
    + Quad(current + 1, following + 1, following + 3, current + 3)
  }

  function Segments(m: nat): seq<nat> {
    if m == 0 then [] else Segments(m - 1) + Segment(4 * (m - 1), 4 * m)
  }

  function LoftIndices(m: nat): seq<nat> {
    var last := 4 * m;
    Segments(m) + Quad(2, 0, 1, 3) + Quad(last, last + 2, last + 3, last + 1)
  }

  method LoftPlate(stations: seq<LoftStation>) returns (mesh: Mesh)
    requires |stations| >= 2
    ensures mesh.positions == LoftPositions(stations)
    ensures mesh.indices == LoftIndices(|stations| - 1)
  {
    var positions: seq<Vec> := [];
    for index := 0 to |stations|
      invariant positions == LoftPositions(stations[..index])
    {
      assert stations[..index + 1][..index] == stations[..index];
      var station := stations[index];
      positions := positions + [Add(station.first, station.offset), Add(station.second, station.offset),
                                Subtract(station.first, station.offset), Subtract(station.second, station.offset)];
    }
    assert stations[..|stations|] == stations;
    var indices := BuildLoftIndices(|stations|);
    mesh := Mesh(positions, indices);
  }

  method BuildLoftIndices(stations: nat) returns (indices: seq<nat>)
    requires stations >= 2
    ensures indices == LoftIndices(stations - 1)
  {
    indices := [];
    for index := 0 to stations - 1
      invariant indices == Segments(index)
    {
      var current := index * 4;
      var following := current + 4;
      ghost var before := indices;
      indices := indices + Quad(current, following, following + 1, current + 1);
      indices := indices + Quad(current + 2, current + 3, following + 3, following + 2);
      indices := indices + Quad(current + 2, following + 2, following, current);
      indices := indices + Quad(current + 1, following + 1, following + 3, current + 3);
      assert indices == before + Segment(current, following);
    }
    var last := (stations - 1) * 4;
    indices := indices + Quad(2, 0, 1, 3);
    indices := indices + Quad(last, last + 2, last + 3, last + 1);
  }

  // ----- The surface is closed -----

  /** The outline of a station, in the order the walls follow it. */
  function Outline(station: nat): (loop: seq<nat>)
    ensures |loop| == 4
  {
    [4 * station, 4 * station + 2, 4 * station + 3, 4 * station + 1]
  }

  function Outlines(count: nat): (loops: seq<seq<nat>>)
    ensures |loops| == count && Sized(loops, 4) && forall s :: 0 <= s < count ==> loops[s] == Outline(s)
  {
    seq(count, (s: nat) => Outline(s))
  }

  /** Only the bottom quads are cut along the diagonal the other builders use. */
  function Diagonals(): (flips: seq<bool>)
    ensures |flips| == 4
  {
    [true, false, true, true]
  }

  lemma OutlinesAreLoops(count: nat)
    requires count >= 2
    ensures Loops(Outlines(count), 4)
  {
    var loops := Outlines(count);
    forall l, i, m, j | 0 <= l < count && 0 <= m < count && 0 <= i < 4 && 0 <= j < 4 && loops[l][i] == loops[m][j]
      ensures l == m && i == j
    {
    }
  }

  function SegmentTrace(c: nat, f: nat, e: Edge): nat {
    TriCount(Tri(c, f, f + 1), e) + TriCount(Tri(c, f + 1, c + 1), e)
    + TriCount(Tri(c + 2, c + 3, f + 3), e) + TriCount(Tri(c + 2, f + 3, f + 2), e)
    + TriCount(Tri(c + 2, f + 2, f), e) + TriCount(Tri(c + 2, f, c), e)
    + TriCount(Tri(c + 1, f + 1, f + 3), e) + TriCount(Tri(c + 1, f + 3, c + 3), e)
  }

  lemma SegmentCount(s: seq<nat>, c: nat, f: nat, t: seq<nat>, e: Edge)
    requires t == s + Segment(c, f)
    ensures BufferCount(t, e) == BufferCount(s, e) + SegmentTrace(c, f, e)
  {
    hide BufferCount, TriCount;
    var a := s + Quad(c, f, f + 1, c + 1);
    var b := a + Quad(c + 2, c + 3, f + 3, f + 2);
    var d := b + Quad(c + 2, f + 2, f, c);
    assert t == d + Quad(c + 1, f + 1, f + 3, c + 3);
    BufferQuad(s, c, f, f + 1, c + 1, e);
    BufferQuad(a, c + 2, c + 3, f + 3, f + 2, e);
    BufferQuad(b, c + 2, f + 2, f, c, e);
    BufferQuad(d, c + 1, f + 1, f + 3, c + 3, e);
  }

  /** One segment is the strip between the outlines of its two stations. */
  lemma SegmentIsStrip(s: nat, e: Edge)
    ensures SegmentTrace(4 * s, 4 * (s + 1), e) == StripCount(Outline(s), Outline(s + 1), Diagonals(), 4, e)
  {
    var p, q, flips := Outline(s), Outline(s + 1), Diagonals();
    assert StripCount(p, q, flips, 4, e) ==
      QuadCount(p, q, 0, true, e) + QuadCount(p, q, 1, false, e) + QuadCount(p, q, 2, true, e)
          + QuadCount(p, q, 3, true, e) by {
      assert StripCount(p, q, flips, 0, e) == 0;
      assert StripCount(p, q, flips, 1, e) == QuadCount(p, q, 0, true, e);
      assert StripCount(p, q, flips, 2, e) == StripCount(p, q, flips, 1, e) + QuadCount(p, q, 1, false, e);
      assert StripCount(p, q, flips, 3, e) == StripCount(p, q, flips, 2, e) + QuadCount(p, q, 2, true, e);
    }
    hide TriCount;
    TurnedTri(p[1], q[1], q[0], e);
    TurnedTri(p[1], q[0], p[0], e);
  }

  lemma TurnedTri(a: nat, b: nat, c: nat, e: Edge)
    ensures TriCount(Tri(a, b, c), e) == TriCount(Tri(b, c, a), e)
    ensures TriCount(Tri(a, b, c), e) == TriCount(Tri(c, b, a), Rev(e))
  {
  }

  lemma {:induction false} SegmentsAreChain(m: nat, count: nat, e: Edge)
    requires m < count
    ensures BufferCount(Segments(m), e) == ChainCount(Outlines(count), 4, Diagonals(), m, e)
    decreases m
  {
    hide BufferCount, StripCount, SegmentTrace, Segment;
    if m == 0 {
      EmptyBuffer(e);
    } else {
      SegmentsAreChain(m - 1, count, e);
      SegmentCount(Segments(m - 1), 4 * (m - 1), 4 * m, Segments(m), e);
      SegmentIsStrip(m - 1, e);
    }
  }

  /** The two triangles of a quadrilateral end. */
  lemma QuadDisc(loop: seq<nat>)
    requires Distinct(loop) && |loop| == 4
    ensures Disc(loop, [Tri(loop[0], loop[1], loop[2]), Tri(loop[0], loop[2], loop[3])])
  {
    var rest := RemoveAt(loop, 1);
    assert rest == [loop[0], loop[2], loop[3]];
    TriangleDisc(rest);
    ClippedDisc(loop, 1, [Tri(rest[0], rest[1], rest[2])]);
    assert [EarAt(loop, 1)] + [Tri(rest[0], rest[1], rest[2])]
        == [Tri(loop[0], loop[1], loop[2]), Tri(loop[0], loop[2], loop[3])];
  }

  /** The same ends cut along the other diagonal. */
  lemma OtherQuadDisc(loop: seq<nat>)
    requires Distinct(loop) && |loop| == 4
    ensures Disc(loop, [Tri(loop[3], loop[0], loop[1]), Tri(loop[1], loop[2], loop[3])])
  {
    var rest := RemoveAt(loop, 0);
    assert rest == [loop[1], loop[2], loop[3]];
    TriangleDisc(rest);
    ClippedDisc(loop, 0, [Tri(rest[0], rest[1], rest[2])]);
    assert [EarAt(loop, 0)] + [Tri(rest[0], rest[1], rest[2])]
        == [Tri(loop[3], loop[0], loop[1]), Tri(loop[1], loop[2], loop[3])];
  }

  lemma PairCount(s: Tri, t: Tri, e: Edge)
    ensures Count([s, t], e) == TriCount(s, e) + TriCount(t, e)
  {
    CountOne([s], t, e);
    CountOne([], s, e);
    assert [s] + [t] == [s, t] && [] + [s] == [s];
  }

  lemma LoftCount(m: nat, e: Edge)
    requires m >= 1
    ensures var l := 4 * m;
      BufferCount(LoftIndices(m), e) ==
      TubeCount(Outlines(m + 1), 4, Diagonals(), [Tri(1, 0, 2), Tri(2, 3, 1)],
          [Tri(l, l + 2, l + 3), Tri(l, l + 3, l + 1)], e)
  {
    hide BufferCount, ChainCount, TriCount, Count, Segments;
    var l := 4 * m;
    SegmentsAreChain(m, m + 1, e);
    BufferQuad(Segments(m), 2, 0, 1, 3, e);
    BufferQuad(Segments(m) + Quad(2, 0, 1, 3), l, l + 2, l + 3, l + 1, e);
    PairCount(Tri(1, 0, 2), Tri(2, 3, 1), Rev(e));
    PairCount(Tri(l, l + 2, l + 3), Tri(l, l + 3, l + 1), e);
    TurnedTri(2, 0, 1, e);
    TurnedTri(1, 0, 2, e);
    TurnedTri(2, 1, 3, e);
    TurnedTri(3, 1, 2, Rev(e));
    TurnedTri(1, 2, 3, Rev(e));
  }

  lemma {:induction false} SegmentsBelow(m: nat)
    ensures IndicesBelow(Segments(m), 4 * (m + 1))
  {
    if m > 0 {
      SegmentsBelow(m - 1);
      SegmentBelow(4 * (m - 1), 4 * m, 4 * (m + 1));
      hide Segment;
    }
  }

  lemma SegmentBelow(current: nat, following: nat, limit: nat)
    requires current + 4 <= limit && following + 4 <= limit
    ensures IndicesBelow(Segment(current, following), limit)
  {
  }

  /** Every lofted plate is a closed oriented surface over its four vertices per station. */
  lemma LoftPlateIsClosed(stations: seq<LoftStation>)
    requires |stations| >= 2
    ensures ClosedSurface(LoftIndices(|stations| - 1), |LoftPositions(stations)|)
  {
    hide BufferCount, ChainCount, Count, Segments, Disc, Loops, LoftPositions;
    var m, l := |stations| - 1, 4 * (|stations| - 1);
    var loops, start, end :=
        Outlines(m + 1), [Tri(1, 0, 2), Tri(2, 3, 1)], [Tri(l, l + 2, l + 3), Tri(l, l + 3, l + 1)];
    OutlinesAreLoops(m + 1);
    OtherQuadDisc(Outline(0));
    QuadDisc(Outline(m));
    SegmentsBelow(m);
    forall e: Edge ensures BufferCount(LoftIndices(m), e) == TubeCount(loops, 4, Diagonals(), start, end, e) {
      LoftCount(m, e);
    }
    TubeIsClosed(loops, 4, Diagonals(), start, end, LoftIndices(m));
  }
}
