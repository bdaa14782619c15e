/**
 Round members with a profile of radii: rings of twenty vertices along the member, closed by
 fans, or, when the end is capped, folded back inside.
 */
module RoundMeshes {
  import opened MeshIndices
  import opened MeshTopology
  import opened Prisms
  import opened RingChains
  import opened Sweeps
  import opened Triangulation

  const SEGMENTS: nat := 20

  // ----- Fans -----

  /** The triangles from the first vertex of a loop to its other edges. */
  function FanOf(loop: seq<nat>): (ts: seq<Tri>)
    requires |loop| >= 3
    ensures |ts| == |loop| - 2
    decreases |loop|
  {
    if |loop| == 3 then [Tri(loop[0], loop[1], loop[2])] else [EarAt(loop, 1)] + FanOf(RemoveAt(loop, 1))
  }

  lemma {:induction false} FanAt(loop: seq<nat>, i: nat)
    requires |loop| >= 3 && i < |loop| - 2
    ensures FanOf(loop)[i] == Tri(loop[0], loop[i + 1], loop[i + 2])
    decreases |loop|
  {
    if |loop| > 3 && i > 0 { FanAt(RemoveAt(loop, 1), i - 1); }
  }

  /** A fan triangulates the disc bounded by its loop. */
  lemma {:induction false} FanIsDisc(loop: seq<nat>)
    requires |loop| >= 3 && Distinct(loop)
    ensures Disc(loop, FanOf(loop))
    decreases |loop|
  {
    hide Disc;
    if |loop| == 3 {
      TriangleDisc(loop);
    } else {
      FanIsDisc(RemoveAt(loop, 1));
      ClippedDisc(loop, 1, FanOf(RemoveAt(loop, 1)));
    }
  }

  /** The first `k` triangles of the fan of a ring. */
  function Fan(k: nat): (ts: seq<Tri>)
    ensures |ts| == k
  {
    if k == 0 then [] else Fan(k - 1) + [Tri(0, k, k + 1)]
  }

  lemma {:induction false} FanPlace(k: nat, i: nat)
    requires i < k
    ensures Fan(k)[i] == Tri(0, i + 1, i + 2)
  {
    if i < k - 1 { FanPlace(k - 1, i); }
  }

  lemma EndIsDisc(n: nat)
    requires n >= 3
    ensures Disc(LoopAt(0, n), Fan(n - 2)) && TrisInRange(Fan(n - 2), n)
  {
    hide Disc, FanOf, Fan;
    FanIsDisc(LoopAt(0, n));
    forall i: nat | i < n - 2 ensures Fan(n - 2)[i] == FanOf(LoopAt(0, n))[i] && Fan(n - 2)[i] == Tri(0, i + 1, i + 2) {
      FanAt(LoopAt(0, n), i);
      FanPlace(n - 2, i);
    }
    assert Fan(n - 2) == FanOf(LoopAt(0, n));
  }

  // ----- The index buffer -----

  /** The inward walls of the rings from a base on. */
  function InnerSides(start: nat, m: nat): seq<nat> {
    if m == 0 then []
    else
      InnerSides(start, m - 1)
      + BackBand(start + SEGMENTS * (m - 1), start + SEGMENTS * m, SEGMENTS, SEGMENTS)
  }

  /** The quads that join the first outer ring to the first inner one, and the last to the last. */
  function Folds(outerEnd: nat, innerStart: nat, innerEnd: nat, k: nat): seq<nat>
    requires k <= SEGMENTS
  {
    if k == 0 then [] else
      var i, j := k - 1, Next(k - 1, SEGMENTS);
      Folds(outerEnd, innerStart, innerEnd, k - 1)
      + Quad(i, j, innerStart + j, innerStart + i)
      + Quad(outerEnd + j, outerEnd + i, innerEnd + i, innerEnd + j)
  }

  /** The buffer of a profile with the given numbers of outer and inner rings. */
  function RoundIndices(outer: nat, inner: nat): seq<nat>
    requires outer >= 1
  {
    var outerEnd, innerStart := SEGMENTS * (outer - 1), SEGMENTS * outer;
    if inner == 0 then SweepIndices(Solid, outer - 1, SEGMENTS, 0, Fan(SEGMENTS - 2))
    else
      Sides(outer - 1, SEGMENTS, 0) + InnerSides(innerStart, inner - 1)
      + Folds(outerEnd, innerStart, innerStart + SEGMENTS * (inner - 1), SEGMENTS)
  }

  method BuildRound(outer: nat, inner: nat) returns (indices: seq<nat>)
    requires outer >= 1
    ensures indices == RoundIndices(outer, inner)
  {
    hide Band, BackBand, Caps, Next;
    indices := [];
    for ring := 0 to outer - 1
      invariant indices == Sides(ring, SEGMENTS, 0)
    {
      StationBaseIsProduct(ring, SEGMENTS);
      NoBack(ring * SEGMENTS + SEGMENTS, ring * SEGMENTS + SEGMENTS + SEGMENTS);
      indices := AppendSegment(indices, ring * SEGMENTS, ring * SEGMENTS + SEGMENTS, SEGMENTS, 0);
    }
    StationBaseIsProduct(outer - 1, SEGMENTS);
    var outerEnd := SEGMENTS * (outer - 1);
    if inner == 0 {
      indices := AppendFans(indices, outerEnd);
      return;
    }
    var innerStart := SEGMENTS * outer;
    ghost var sides := indices;
    assert sides + InnerSides(innerStart, 0) == sides;
    for ring := 0 to inner - 1
      invariant indices == sides + InnerSides(innerStart, ring)
    {
      indices := AppendBack(indices, innerStart + SEGMENTS * ring, innerStart + SEGMENTS * (ring + 1));
    }
    indices := AppendFolds(indices, outerEnd, innerStart, innerStart + SEGMENTS * (inner - 1));
  }

  lemma NoBack(p: nat, q: nat)
    ensures BackBand(p, q, 0, 0) == []
  {
  }

  method AppendFans(before: seq<nat>, last: nat) returns (indices: seq<nat>)
    ensures indices == before + Caps(Fan(SEGMENTS - 2), 0, last, SEGMENTS - 2)
  {
    hide Fan;
    ghost var fan := Fan(SEGMENTS - 2);
    indices := before;
    for segment := 1 to SEGMENTS - 1
      invariant indices == before + Caps(fan, 0, last, segment - 1)
    {
      FanPlace(SEGMENTS - 2, segment - 1);
      indices := indices + [0, segment + 1, segment] + [last, last + segment, last + segment + 1];
    }
  }

  method AppendBack(before: seq<nat>, current: nat, following: nat) returns (indices: seq<nat>)
    ensures indices == before + BackBand(current, following, SEGMENTS, SEGMENTS)
  {
    indices := before;
    for segment := 0 to SEGMENTS
      invariant indices == before + BackBand(current, following, SEGMENTS, segment)
    {
      var next := Next(segment, SEGMENTS);
      indices := indices + Quad(current + next, current + segment, following + segment, following + next);
    }
  }

  method AppendFolds(before: seq<nat>, outerEnd: nat, innerStart: nat, innerEnd: nat) returns (indices: seq<nat>)
    ensures indices == before + Folds(outerEnd, innerStart, innerEnd, SEGMENTS)
  {
    hide Next;
    indices := before;
    for segment := 0 to SEGMENTS
      invariant indices == before + Folds(outerEnd, innerStart, innerEnd, segment)
    {
      var next := Next(segment, SEGMENTS);
      ghost var was := Folds(outerEnd, innerStart, innerEnd, segment);
      indices := indices + Quad(segment, next, innerStart + next, innerStart + segment);
      indices := indices + Quad(outerEnd + next, outerEnd + segment, innerEnd + segment, innerEnd + next);
      assert indices == before + (was + Quad(segment, next, innerStart + next, innerStart + segment)
                                  + Quad(outerEnd + next, outerEnd + segment, innerEnd + segment, innerEnd + next));
    }
  }

  // ----- When a round member is closed -----

  lemma {:induction false} FoldsTriples(outerEnd: nat, innerStart: nat, innerEnd: nat, k: nat)
    requires k <= SEGMENTS
    ensures |Folds(outerEnd, innerStart, innerEnd, k)| == 12 * k
  {
    if k > 0 { FoldsTriples(outerEnd, innerStart, innerEnd, k - 1); }
  }

  lemma {:induction false} InnerTriples(start: nat, m: nat)
    ensures |InnerSides(start, m)| % 3 == 0
  {
    if m > 0 {
      InnerTriples(start, m - 1);
      BandTriples(start + SEGMENTS * (m - 1), start + SEGMENTS * m, SEGMENTS, SEGMENTS);
    }
  }

  /** The first fold runs along the first edge of the outer wall, in the same direction. */
  lemma {:induction false} FoldsRunAlong(outerEnd: nat, innerStart: nat, innerEnd: nat, k: nat)
    requires 1 <= k <= SEGMENTS
    ensures BufferCount(Folds(outerEnd, innerStart, innerEnd, k), Edge(0, 1)) >= 1
  {
    hide BufferCount, Folds;
    var i, j := k - 1, Next(k - 1, SEGMENTS);
    var s := Folds(outerEnd, innerStart, innerEnd, k - 1);
    var first := s + Quad(i, j, innerStart + j, innerStart + i);
    FoldsStep(outerEnd, innerStart, innerEnd, k);
    BufferQuad(s, i, j, innerStart + j, innerStart + i, Edge(0, 1));
    BufferQuad(first, outerEnd + j, outerEnd + i, innerEnd + i, innerEnd + j, Edge(0, 1));
    if k > 1 { FoldsRunAlong(outerEnd, innerStart, innerEnd, k - 1); }
  }

  lemma FoldsStep(outerEnd: nat, innerStart: nat, innerEnd: nat, k: nat)
    requires 1 <= k <= SEGMENTS
    ensures var i, j := k - 1, Next(k - 1, SEGMENTS);
            Folds(outerEnd, innerStart, innerEnd, k) == Folds(outerEnd, innerStart, innerEnd, k - 1)
              + Quad(i, j, innerStart + j, innerStart + i)
              + Quad(outerEnd + j, outerEnd + i, innerEnd + i, innerEnd + j)
  {
  }

  /**
   A round member of at least two rings is a closed oriented surface if and only if its end is
   not capped: the folds at the start of a capped one run along the outer wall.
   */
  lemma RoundIsClosed(outer: nat, inner: nat)
    requires outer >= 2
    ensures ClosedBuffer(RoundIndices(outer, inner)) <==> inner == 0
    ensures inner == 0 ==> ClosedSurface(RoundIndices(outer, inner), SEGMENTS * outer)
  {
    hide ClosedBuffer, BufferCount, Sides, InnerSides, Folds, SweepIndices, Fan, Disc;
    if inner == 0 {
      EndIsDisc(SEGMENTS);
      SolidSweepIsClosed(outer - 1, SEGMENTS, Fan(SEGMENTS - 2));
      StationBaseIsProduct(outer, SEGMENTS);
    } else {
      var outerEnd, innerStart := SEGMENTS * (outer - 1), SEGMENTS * outer;
      var innerEnd := innerStart + SEGMENTS * (inner - 1);
      var walls, backs, folds :=
        Sides(outer - 1, SEGMENTS, 0), InnerSides(innerStart, inner - 1),
        Folds(outerEnd, innerStart, innerEnd, SEGMENTS);
      InnerTriples(innerStart, inner - 1);
      FoldsTriples(outerEnd, innerStart, innerEnd, SEGMENTS);
      ThreeParts(walls, backs, folds, RoundIndices(outer, inner), Edge(0, 1));
      SidesAtStart(outer - 1, SEGMENTS, 0, Edge(0, 1));
      FoldsRunAlong(outerEnd, innerStart, innerEnd, SEGMENTS);
      TwiceIsOpen(RoundIndices(outer, inner), Edge(0, 1));
    }
  }
}
