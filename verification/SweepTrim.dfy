/**
 Trimming a long Boolean operand to the stations near its host: the trimmed mesh is exactly
 the mesh that sweeping the retained stations would have produced.
 */
module SweepTrim {
  import opened MeshIndices
  import opened MeshTopology
  import opened Prisms
  import opened RingChains
  import opened Sweeps
  import opened Triangulation
  import opened Vectors
  import opened Wrappers

  const U32: nat := 0x1_0000_0000

  /** Contact tolerance of the bounding-box test. */
  const TOLERANCE: real := 0.001

  /** How a mesh was swept: the lengths of its section loops and its stations. */
  datatype Recipe = Recipe(loops: seq<nat>, stations: seq<Station>)

  datatype SweptMesh = SweptMesh(mesh: Mesh, recipe: Option<Recipe>)

  datatype Bounds = Bounds(minimum: Vec, maximum: Vec)

  function Min(a: real, b: real): real {
    if b < a then b else a
  }

  function Max(a: real, b: real): real {
    if a < b then b else a
  }

  function Cover(bounds: Bounds, p: Vec): Bounds {
    Bounds(Vec(Min(bounds.minimum.x, p.x), Min(bounds.minimum.y, p.y), Min(bounds.minimum.z, p.z)),
           Vec(Max(bounds.maximum.x, p.x), Max(bounds.maximum.y, p.y), Max(bounds.maximum.z, p.z)))
  }

  function BoundsOf(points: seq<Vec>): Bounds
    requires points != []
  {
    if |points| == 1 then Bounds(points[0], points[0])
    else Cover(BoundsOf(points[..|points| - 1]), points[|points| - 1])
  }

  predicate Intersects(left: Bounds, right: Bounds) {
    && left.minimum.x <= right.maximum.x + TOLERANCE && left.maximum.x + TOLERANCE >= right.minimum.x
    && left.minimum.y <= right.maximum.y + TOLERANCE && left.maximum.y + TOLERANCE >= right.minimum.y
    && left.minimum.z <= right.maximum.z + TOLERANCE && left.maximum.z + TOLERANCE >= right.minimum.z
  }

  /** The mesh looks like a capped single-loop sweep of at least three stations. */
  predicate LooksTrimmable(swept: SweptMesh) {
    && swept.recipe.Some? && |swept.recipe.value.loops| == 1
    && var vertices, indices, ring, stations :=
         |swept.mesh.positions|, swept.mesh.indices, swept.recipe.value.loops[0], |swept.recipe.value.stations|;
    && vertices >= 12 && |indices| % 3 == 0 && |indices| >= 6
    && 3 <= ring < vertices
    && indices[..6] == Quad(0, 1, ring + 1, ring)
    && vertices == stations * ring && stations >= 3  // no remainder, and the quotient is the station count
    && |indices| == 6 * (ring * (stations - 1)) + 6 * (ring - 2)
  }

  function RingOf(swept: SweptMesh): nat
    requires LooksTrimmable(swept)
  {
    swept.recipe.value.loops[0]
  }

  function StationsOf(swept: SweptMesh): nat
    requires LooksTrimmable(swept)
  {
    |swept.recipe.value.stations|
  }

  lemma TrimmableShape(swept: SweptMesh)
    requires LooksTrimmable(swept)
    ensures |swept.mesh.positions| == StationBase(StationsOf(swept), RingOf(swept))
    ensures |swept.mesh.indices| == 6 * StationBase(StationsOf(swept) - 1, RingOf(swept)) + 6 * (RingOf(swept) - 2)
  {
    StationBaseIsProduct(StationsOf(swept), RingOf(swept));
    StationBaseIsProduct(StationsOf(swept) - 1, RingOf(swept));
  }

  lemma {:induction false} StationFits(s: nat, t: nat, ring: nat)
    requires s <= t
    ensures StationBase(s, ring) <= StationBase(t, ring)
  {
    if s < t { StationFits(s, t - 1, ring); }
  }

  /** The positions of stations `first` up to but not including `end`. */
  function Rings(swept: SweptMesh, first: nat, end: nat): seq<Vec>
    requires LooksTrimmable(swept) && first <= end <= StationsOf(swept)
  {
    TrimmableShape(swept);
    StationFits(first, end, RingOf(swept));
    StationFits(end, StationsOf(swept), RingOf(swept));
    swept.mesh.positions[StationBase(first, RingOf(swept))..StationBase(end, RingOf(swept))]
  }

  lemma RingsLength(swept: SweptMesh, first: nat, end: nat)
    requires LooksTrimmable(swept) && first <= end <= StationsOf(swept)
    ensures |Rings(swept, first, end)| == StationBase(end, RingOf(swept)) - StationBase(first, RingOf(swept))
  {
    TrimmableShape(swept);
    StationFits(first, end, RingOf(swept));
    StationFits(end, StationsOf(swept), RingOf(swept));
  }

  /** The box around the segment's two rings comes near the relevant region. */
  predicate Hits(swept: SweptMesh, segment: nat, relevance: Bounds)
    requires LooksTrimmable(swept) && segment + 1 < StationsOf(swept)
  {
    RingsLength(swept, segment, segment + 2);
    Intersects(BoundsOf(Rings(swept, segment, segment + 2)), relevance)
  }

  /** The first and the last of the segments from `segment` on that come near the region. */
  ghost function HitRange(swept: SweptMesh, segment: nat, relevance: Bounds): (range: Option<(nat, nat)>)
    requires LooksTrimmable(swept) && segment < StationsOf(swept)
    ensures range.None? ==> forall s :: segment <= s && s + 1 < StationsOf(swept) ==> !Hits(swept, s, relevance)
    ensures range.Some? ==> segment <= range.value.0 <= range.value.1 && range.value.1 + 1 < StationsOf(swept)
    ensures range.Some? ==> Hits(swept, range.value.0, relevance) && Hits(swept, range.value.1, relevance)
    ensures range.Some? ==> forall s ::
              segment <= s && s + 1 < StationsOf(swept) && Hits(swept, s, relevance) ==>
                  range.value.0 <= s <= range.value.1
    decreases StationsOf(swept) - segment
  {
    if segment + 1 == StationsOf(swept) then None
    else
      var rest := HitRange(swept, segment + 1, relevance);
      if !Hits(swept, segment, relevance) then rest
      else Some((segment, if rest.Some? then rest.value.1 else segment))
  }

  /** An index of the far cap, moved from the old last ring to the new one in 32-bit arithmetic. */
  function Rebase(index: nat, originalLast: nat, trimmedLast: nat): (r: nat)
    ensures originalLast <= index && index - originalLast + trimmedLast < U32 ==>
              r == index - originalLast + trimmedLast
  {
    (index - originalLast + trimmedLast) % U32
  }

  /** The first `k` triangles of both caps, the far one moved to the new last ring. */
  function MovedCaps(indices: seq<nat>, offset: nat, originalLast: nat, trimmedLast: nat, k: nat): seq<nat>
    requires offset + 6 * k <= |indices|
  {
    if k == 0 then [] else
      var first := offset + 6 * (k - 1);
      MovedCaps(indices, offset, originalLast, trimmedLast, k - 1)
      + [indices[first], indices[first + 1], indices[first + 2]]
      + [Rebase(indices[first + 3], originalLast, trimmedLast), Rebase(indices[first + 4], originalLast, trimmedLast),
         Rebase(indices[first + 5], originalLast, trimmedLast)]
  }

  /** The index buffer of `kept` stations, with the original caps moved to the new ends. */
  function CutIndices(indices: seq<nat>, ring: nat, stations: nat, kept: nat): seq<nat>
    requires ring >= 3 && kept >= 1 && stations >= 1
    requires |indices| == 6 * StationBase(stations - 1, ring) + 6 * (ring - 2)
  {
    Sides(kept - 1, ring, 0)
    + MovedCaps(indices, 6 * StationBase(stations - 1, ring), StationBase(stations - 1, ring),
        StationBase(kept - 1, ring), ring - 2)
  }

  /** The sweep cut down to stations `first` to `last`. */
  function Cut(swept: SweptMesh, first: nat, last: nat): SweptMesh
    requires LooksTrimmable(swept) && first <= last < StationsOf(swept)
  {
    TrimmableShape(swept);
    SweptMesh(Mesh(Rings(swept, first, last + 1),
        CutIndices(swept.mesh.indices, RingOf(swept), StationsOf(swept), last - first + 1)),
              Some(swept.recipe.value.(stations := swept.recipe.value.stations[first..last + 1])))
  }

  /** The relevant segments with one segment of clearance on either side, as first and last station. */
  function FirstStation(hit: nat): nat {
    if hit > 0 then hit - 1 else 0
  }

  function LastStation(hit: nat, stations: nat): nat
    requires hit + 1 < stations
  {
    if hit + 2 < stations then hit + 2 else stations - 1
  }

  ghost function TrimmedMesh(swept: SweptMesh, relevance: Bounds): SweptMesh {
    if !LooksTrimmable(swept) then swept
    else
      var stations, range := StationsOf(swept), HitRange(swept, 0, relevance);
      if range.None? then SweptMesh(Mesh([], []), swept.recipe)
      else
        var first, last := FirstStation(range.value.0), LastStation(range.value.1, stations);
        if first == 0 && last + 1 == stations then swept else Cut(swept, first, last)
  }

  method TrimToRelevance(swept: SweptMesh, relevance: Bounds) returns (trimmed: SweptMesh)
    ensures trimmed == TrimmedMesh(swept, relevance)
  {
    hide Sides, MovedCaps, StationBase, Hits;
    if !LooksTrimmable(swept) { return swept; }
    var recipe := swept.recipe.value;
    var ring, stations := recipe.loops[0], |recipe.stations|;
    var firstSegment: Option<nat>, lastSegment := FindHits(swept, relevance);
    if firstSegment.None? { return SweptMesh(Mesh([], []), swept.recipe); }
    var first, last := FirstStation(firstSegment.value), LastStation(lastSegment, stations);
    if first == 0 && last + 1 == stations { return swept; }
    TrimmableShape(swept);
    var end := last + 1;
    StationFits(first, end, ring);
    StationFits(end, stations, ring);
    StationBaseIsProduct(first, ring);
    StationBaseIsProduct(end, ring);
    var firstVertex, endVertex := first * ring, end * ring;
    var positions := swept.mesh.positions[firstVertex..endVertex];
    var indices := RebuildIndices(swept.mesh.indices, ring, stations, last - first + 1);
    return SweptMesh(Mesh(positions, indices), Some(recipe.(stations := recipe.stations[first..last + 1])));
  }

  method FindHits(swept: SweptMesh, relevance: Bounds) returns (first: Option<nat>, last: nat)
    requires LooksTrimmable(swept)
    ensures first.None? <==> HitRange(swept, 0, relevance).None?
    ensures first.Some? ==> HitRange(swept, 0, relevance) == Some((first.value, last))
  {
    hide LooksTrimmable, Intersects, BoundsOf;
    SmallestRing(swept);
    first, last := None, 0;
    for segment := 0 to StationsOf(swept) - 1
      invariant first.None? ==> HitRange(swept, 0, relevance) == HitRange(swept, segment, relevance)
      invariant first.Some? ==> HitRange(swept, 0, relevance) == Some((first.value,
          var rest := HitRange(swept, segment, relevance); if rest.Some? then rest.value.1 else last))
    {
      var bounds := SegmentBounds(swept, segment);
      if Intersects(bounds, relevance) {
        if first.None? { first := Some(segment); }
        last := segment;
      }
    }
  }

  method SegmentBounds(swept: SweptMesh, segment: nat) returns (bounds: Bounds)
    requires LooksTrimmable(swept) && segment + 1 < StationsOf(swept)
    ensures Rings(swept, segment, segment + 2) != []
    ensures bounds == BoundsOf(Rings(swept, segment, segment + 2))
  {
    hide LooksTrimmable, Cover;
    var ring, positions := RingOf(swept), swept.mesh.positions;
    assert ring >= 3 by { SmallestRing(swept); }
    StationBaseIsProduct(segment, ring);
    ghost var part := Rings(swept, segment, segment + 2);
    RingsLength(swept, segment, segment + 2);
    var first := segment * ring;
    PartOfPositions(swept, segment, first);
    bounds := Bounds(positions[first], positions[first]);
    for vertex := first + 1 to first + 2 * ring
      invariant bounds == BoundsOf(part[..vertex - first])
    {
      assert part[..vertex + 1 - first][..vertex - first] == part[..vertex - first];
      bounds := Cover(bounds, positions[vertex]);
    }
    assert part[..2 * ring] == part;
  }

  lemma SmallestRing(swept: SweptMesh)
    requires LooksTrimmable(swept)
    ensures RingOf(swept) >= 3 && StationsOf(swept) >= 3
  {
  }

  lemma PartOfPositions(swept: SweptMesh, segment: nat, first: nat)
    requires LooksTrimmable(swept) && segment + 1 < StationsOf(swept) && first == StationBase(segment, RingOf(swept))
    ensures var part, positions := Rings(swept, segment, segment + 2), swept.mesh.positions;
      && first + 2 * RingOf(swept) <= |positions| && |part| == 2 * RingOf(swept)
      && forall i :: 0 <= i < |part| ==> part[i] == positions[first + i]
  {
    TrimmableShape(swept);
    StationFits(segment + 2, StationsOf(swept), RingOf(swept));
  }

  method RebuildIndices(original: seq<nat>, ring: nat, stations: nat, kept: nat) returns (indices: seq<nat>)
    requires ring >= 3 && kept >= 1 && stations >= 1
    requires |original| == 6 * StationBase(stations - 1, ring) + 6 * (ring - 2)
    ensures indices == CutIndices(original, ring, stations, kept)
  {
    indices := RebuildSides(ring, kept);
    StationBaseIsProduct(stations - 1, ring);
    StationBaseIsProduct(kept - 1, ring);
    indices := MoveCaps(indices, original, 6 * (ring * (stations - 1)), (stations - 1) * ring, (kept - 1) * ring,
        ring - 2);
  }

  method RebuildSides(ring: nat, kept: nat) returns (indices: seq<nat>)
    requires kept >= 1
    ensures indices == Sides(kept - 1, ring, 0)
  {
    hide Band;
    indices := [];
    for station := 0 to kept - 1
      invariant indices == Sides(station, ring, 0)
    {
      StationBaseIsProduct(station, ring);
      indices := AppendSegment(indices, station * ring, station * ring + ring, ring, 0);
    }
  }

  method MoveCaps(before: seq<nat>, original: seq<nat>, offset: nat, originalLast: nat, trimmedLast: nat, count: nat)
    returns (indices: seq<nat>)
    requires offset + 6 * count <= |original|
    ensures indices == before + MovedCaps(original, offset, originalLast, trimmedLast, count)
  {
    hide Rebase;
    indices := before;
    for triangle := 0 to count
      invariant indices == before + MovedCaps(original, offset, originalLast, trimmedLast, triangle)
    {
      var first := offset + triangle * 6;
      indices := indices + [original[first], original[first + 1], original[first + 2]];
      indices := indices + [Rebase(original[first + 3], originalLast, trimmedLast),
                            Rebase(original[first + 4], originalLast, trimmedLast),
                            Rebase(original[first + 5], originalLast, trimmedLast)];
    }
  }

  // ----- Trimming a sweep yields a sweep -----

  /** A swept section as the trimmer sees it. */
  ghost function AsSwept(section: Section, stations: seq<Station>): SweptMesh
    requires SweepMesh(section, stations).Some?
  {
    SweptMesh(SweepMesh(section, stations).value,
              Some(Recipe([|section.outer|] + (if section.inner == [] then [] else [|section.inner|]), stations)))
  }

  lemma {:induction false} SweepConcat(section: Section, a: seq<Station>, b: seq<Station>)
    ensures SweepPositions(section, a + b) == SweepPositions(section, a) + SweepPositions(section, b)
    decreases |b|
  {
    if b == [] {
      assert a + b == a;
    } else {
      SweepConcat(section, a, b[..|b| - 1]);
      assert (a + b)[..|a + b| - 1] == a + b[..|b| - 1];
    }
  }

  /** The vertices of consecutive stations are consecutive in the vertex buffer. */
  lemma SweepSlice(section: Section, stations: seq<Station>, first: nat, end: nat)
    requires first <= end <= |stations|
    ensures var ring, all := |section.outer| + |section.inner|, SweepPositions(section, stations);
      && StationBase(first, ring) <= StationBase(end, ring) <= |all|
      && SweepPositions(section, stations[first..end]) == all[StationBase(first, ring)..StationBase(end, ring)]
  {
    hide SweepPositions, StationBase;
    SweepConcat(section, stations[..first], stations[first..end]);
    SweepConcat(section, stations[..end], stations[end..]);
    assert stations[..first] + stations[first..end] == stations[..end];
    assert stations[..end] + stations[end..] == stations;
    SweepPositionsLength(section, stations[..first]);
    SweepPositionsLength(section, stations[..end]);
  }

  lemma {:induction false} SidesLength(m: nat, n: nat)
    ensures |Sides(m, n, 0)| == 6 * StationBase(m, n)
  {
    if m > 0 {
      SidesLength(m - 1, n);
      BandLength(StationBase(m - 1, n), StationBase(m, n), n, n);
    }
  }

  lemma {:induction false} BandLength(p: nat, q: nat, n: nat, k: nat)
    requires k <= n
    ensures |Band(p, q, n, k)| == 6 * k
  {
    if k > 0 { BandLength(p, q, n, k - 1); }
  }

  /** Moving the caps of a sweep to another last ring gives the caps of the shorter sweep. */
  lemma {:induction false} MovedCapsOfSweep(sides: seq<nat>, cap: seq<Tri>, n: nat, oldLast: nat, newLast: nat, k: nat)
    requires k <= |cap| && TrisInRange(cap, n) && newLast + n <= U32
    requires forall j :: 0 <= j < k ==> CapAt(sides + Caps(cap, 0, oldLast, |cap|), |sides|, cap, oldLast, j)
    ensures |sides| + 6 * k <= |sides + Caps(cap, 0, oldLast, |cap|)|
    ensures MovedCaps(sides + Caps(cap, 0, oldLast, |cap|), |sides|, oldLast, newLast, k) == Caps(cap, 0, newLast, k)
  {
    CapsLength(cap, 0, oldLast, |cap|);
    if k > 0 {
      hide Caps;
      MovedCapsOfSweep(sides, cap, n, oldLast, newLast, k - 1);
      assert CapAt(sides + Caps(cap, 0, oldLast, |cap|), |sides|, cap, oldLast, k - 1);
      MovedCap(sides + Caps(cap, 0, oldLast, |cap|), |sides|, cap, n, oldLast, newLast, k);
    }
  }

  lemma MovedCap(indices: seq<nat>, offset: nat, cap: seq<Tri>, n: nat, oldLast: nat, newLast: nat, k: nat)
    requires 0 < k <= |cap| && TrisInRange(cap, n) && newLast + n <= U32
    requires CapAt(indices, offset, cap, oldLast, k - 1) && offset + 6 * k <= |indices|
    requires MovedCaps(indices, offset, oldLast, newLast, k - 1) == Caps(cap, 0, newLast, k - 1)
    ensures MovedCaps(indices, offset, oldLast, newLast, k) == Caps(cap, 0, newLast, k)
  {
  }

  /** Cap triangle `j` sits in the buffer behind `offset`, once for each end. */
  ghost predicate CapAt(indices: seq<nat>, offset: nat, cap: seq<Tri>, last: nat, j: nat)
    requires j < |cap|
  {
    var t, first := cap[j], offset + 6 * j;
    && first + 6 <= |indices|
    && indices[first] == t.a && indices[first + 1] == t.c && indices[first + 2] == t.b
    && indices[first + 3] == last + t.a && indices[first + 4] == last + t.b && indices[first + 5] == last + t.c
  }

  lemma {:induction false} CapPlace(sides: seq<nat>, cap: seq<Tri>, last: nat, k: nat, j: nat)
    requires j < k <= |cap|
    ensures CapAt(sides + Caps(cap, 0, last, k), |sides|, cap, last, j)
  {
    CapsLength(cap, 0, last, k - 1);
    CapsLength(cap, 0, last, k);
    if j < k - 1 {
      CapPlace(sides, cap, last, k - 1, j);
      var longer, shorter := sides + Caps(cap, 0, last, k), sides + Caps(cap, 0, last, k - 1);
      assert longer[..|shorter|] == shorter;
    }
  }

  /** Rebuilding a sweep with fewer stations gives the index buffer of the shorter sweep. */
  lemma CutOfSweep(n: nat, cap: seq<Tri>, stations: nat, kept: nat)
    requires n >= 3 && |cap| == n - 2 && TrisInRange(cap, n) && 1 <= kept <= stations
    requires StationBase(stations, n) <= U32
    ensures |SweepIndices(Solid, stations - 1, n, 0, cap)| == 6 * StationBase(stations - 1, n) + 6 * (n - 2)
    ensures CutIndices(SweepIndices(Solid, stations - 1, n, 0, cap), n, stations, kept)
              == SweepIndices(Solid, kept - 1, n, 0, cap)
  {
    hide Caps, MovedCaps, Sides;
    var sides, oldLast, newLast := Sides(stations - 1, n, 0), StationBase(stations - 1, n), StationBase(kept - 1, n);
    SidesLength(stations - 1, n);
    CapsLength(cap, 0, oldLast, |cap|);
    StationFits(kept, stations, n);
    forall j | 0 <= j < |cap| ensures CapAt(sides + Caps(cap, 0, oldLast, |cap|), |sides|, cap, oldLast, j) {
      CapPlace(sides, cap, oldLast, |cap|, j);
    }
    MovedCapsOfSweep(sides, cap, n, oldLast, newLast, n - 2);
  }

  lemma SweepLooksTrimmable(section: Section, stations: seq<Station>)
    requires WellFormed(section) && section.kind.Solid? && section.inner == [] && SweepMesh(section, stations).Some?
    requires |SectionCap(section)| == |section.outer| - 2 && |stations| >= 3
    requires |SweepMesh(section, stations).value.positions| >= 12
    ensures LooksTrimmable(AsSwept(section, stations))
    ensures RingOf(AsSwept(section, stations)) == |section.outer|
    ensures StationsOf(AsSwept(section, stations)) == |stations|
  {
    hide SectionCap, Caps, Sides, SweepPositions, StationBase, TrisInRange;
    var n, count, cap := |section.outer|, |stations|, SectionCap(section);
    SweepPositionsLength(section, stations);
    SidesLength(count - 1, n);
    CapsLength(cap, 0, StationBase(count - 1, n), |cap|);
    SidesStart(count - 1, n);
    SweepNumbers(count, n);
    assert |AsSwept(section, stations).mesh.indices| == 6 * (n * (count - 1)) + 6 * (n - 2);
  }

  lemma SweepNumbers(count: nat, n: nat)
    requires n >= 3 && count >= 3
    ensures StationBase(count, n) == count * n && StationBase(count - 1, n) == n * (count - 1)
    ensures n < StationBase(count, n)
  {
    StationBaseIsProduct(count, n);
    StationBaseIsProduct(count - 1, n);
    StationsApart(1, count, n);
    Commuted(count - 1, n);
  }

  lemma Commuted(a: nat, b: nat)
    ensures a * b == b * a
  {
  }

  lemma {:induction false} SidesStart(m: nat, n: nat)
    requires m >= 1 && n >= 3
    ensures |Sides(m, n, 0)| >= 6 && Sides(m, n, 0)[..6] == Quad(0, 1, n + 1, n)
  {
    if m == 1 {
      BandStart(0, n, n, n);
      assert Sides(0, n, 0) == [] && StationBase(0, n) == 0 && StationBase(1, n) == n;
      assert Sides(1, n, 0) == Band(0, n, n, n);
    } else {
      SidesStart(m - 1, n);
    }
  }

  lemma {:induction false} BandStart(p: nat, q: nat, n: nat, k: nat)
    requires 1 <= k <= n && n >= 3
    ensures |Band(p, q, n, k)| >= 6 && Band(p, q, n, k)[..6] == Quad(p, p + 1, q + 1, q)
  {
    if k == 1 {
      assert Band(p, q, n, 0) == [];
    } else {
      BandStart(p, q, n, k - 1);
    }
  }

  /**
   Trimming a single-loop sweep either leaves it alone, empties it when nothing of it comes
   near the region, or yields exactly the mesh of the retained stations: the same vertices
   and the same index buffer, both caps included. Every segment whose box comes near the
   region is retained, with a whole segment of clearance on either side wherever the sweep has
   one, and no more.
   */
  lemma TrimmedSweepIsSweep(section: Section, stations: seq<Station>, relevance: Bounds)
    requires WellFormed(section) && section.kind.Solid? && section.inner == [] && SweepMesh(section, stations).Some?
    requires |SectionCap(section)| == |section.outer| - 2 && TrisInRange(SectionCap(section), |section.outer|)
    requires |stations| >= 3 && 12 <= |SweepMesh(section, stations).value.positions| <= U32
    ensures var swept := AsSwept(section, stations);
      && LooksTrimmable(swept)
      && var range := HitRange(swept, 0, relevance);
      && (range.None? ==> TrimmedMesh(swept, relevance).mesh == Mesh([], []))
      && (range.Some? ==>
           var first, last := FirstStation(range.value.0), LastStation(range.value.1, |stations|);
           && last - first >= 1
           && first == (if range.value.0 == 0 then 0 else range.value.0 - 1)
           && last == (if range.value.1 + 2 == |stations| then range.value.1 + 1 else range.value.1 + 2)
           && TrimmedMesh(swept, relevance) == AsSwept(section, stations[first..last + 1])
           && forall s :: 0 <= s && s + 1 < |stations| && Hits(swept, s, relevance) ==>
                first <= s && s + 1 <= last && (first == 0 || first < s) && (last + 1 == |stations| || s + 1 < last))
  {
    hide SectionCap, Hits, HitRange, LooksTrimmable, SweepPositions, SweepIndices, CutIndices, StationBase;
    var swept, n, count, cap := AsSwept(section, stations), |section.outer|, |stations|, SectionCap(section);
    SweepLooksTrimmable(section, stations);
    SweepPositionsLength(section, stations);
    var range := HitRange(swept, 0, relevance);
    if range.Some? {
      HitsKept(swept, relevance);
      var first, last := FirstStation(range.value.0), LastStation(range.value.1, count);
      SweepSlice(section, stations, first, last + 1);
      CutOfSweep(n, cap, count, last - first + 1);
      assert stations[0..count] == stations;
    }
  }

  lemma HitsKept(swept: SweptMesh, relevance: Bounds)
    requires LooksTrimmable(swept)
    requires HitRange(swept, 0, relevance).Some?
    ensures var range, stations := HitRange(swept, 0, relevance), StationsOf(swept);
      && range.value.1 + 1 < stations
      && var first, last := FirstStation(range.value.0), LastStation(range.value.1, stations);
      && first + 1 <= last < stations
      && forall s :: 0 <= s && s + 1 < stations && Hits(swept, s, relevance) ==>
           first <= s && s + 1 <= last && (first == 0 || first < s) && (last + 1 == stations || s + 1 < last)
  {
    hide Hits, LooksTrimmable;
  }
}
