/**
 Sections swept along a chain of stations. The stations' frames are given; the module
 covers the vertex layout, the index buffer, and when the surface closes.
 */
module Sweeps {
  import opened MeshIndices
  import opened MeshTopology
  import opened Prisms
  import opened RingChains
  import opened Triangulation
  import opened Vectors
  import opened Wrappers

  datatype Station = Station(origin: Vec, yAxis: Vec, zAxis: Vec)

  /** Where station `s` starts in the vertex buffer, `s * ring`. */
  function StationBase(s: nat, ring: nat): nat {
    if s == 0 then 0 else StationBase(s - 1, ring) + ring
  }

  lemma {:induction false} StationBaseIsProduct(s: nat, ring: nat)
    ensures StationBase(s, ring) == s * ring
  {
    if s > 0 {
      StationBaseIsProduct(s - 1, ring);
      assert s * ring == (s - 1) * ring + ring;
    }
  }

  /** The side walls of the first `m` segments; every ring holds the outer and the inner loop. */
  function Sides(m: nat, outer: nat, inner: nat): seq<nat> {
    if m == 0 then [] else
      var ring := outer + inner;
      Sides(m - 1, outer, inner)
      + Band(StationBase(m - 1, ring), StationBase(m, ring), outer, outer)
      + BackBand(StationBase(m - 1, ring) + outer, StationBase(m, ring) + outer, inner, inner)
  }

  /** What closes the two ends: the cap of a solid, or the annulus between equally long loops. */
  function Ends(kind: Kind, m: nat, outer: nat, inner: nat, cap: seq<Tri>): seq<nat> {
    var last := StationBase(m, outer + inner);
    if kind.Solid? then Caps(cap, 0, last, |cap|)
    else if outer == inner then Rims(0, outer, last, last + outer, outer, outer)
    else []
  }

  function SweepIndices(kind: Kind, m: nat, outer: nat, inner: nat, cap: seq<Tri>): seq<nat> {
    Sides(m, outer, inner) + Ends(kind, m, outer, inner, cap)
  }

  function StationPoint(station: Station, p: Point): Vec {
    Add(station.origin, Add(Scale(station.yAxis, p.x), Scale(station.zAxis, p.y)))
  }

  function Ring(section: Section, station: Station): (ring: seq<Vec>)
    ensures |ring| == |section.outer| + |section.inner|
  {
    var points := section.outer + section.inner;
    seq(|points|, (i: nat) requires i < |points| => StationPoint(station, points[i]))
  }

  function SweepPositions(section: Section, stations: seq<Station>): seq<Vec> {
    if stations == [] then []
    else SweepPositions(section, stations[..|stations| - 1]) + Ring(section, stations[|stations| - 1])
  }

  /** The stored cap, or the outline's triangulation when none is stored. */
  ghost function SectionCap(section: Section): seq<Tri> {
    if section.cap != [] then section.cap else CapOf(TriangulationOf(section.outer))
  }

  ghost function SweepMesh(section: Section, stations: seq<Station>): Option<Mesh> {
    if |stations| < 2 || |section.outer| < 3 then None
    else Some(Mesh(SweepPositions(section, stations),
                   SweepIndices(section.kind, |stations| - 1, |section.outer|, |section.inner|, SectionCap(section))))
  }

  method Sweep(section: Section, stations: seq<Station>) returns (result: Option<Mesh>)
    ensures result == SweepMesh(section, stations)
  {
    if |stations| < 2 || |section.outer| < 3 { return None; }
    var positions := PlaceRings(section, stations);
    var cap := section.cap;
    if cap == [] {
      var evaluated := Triangulate(section.outer);
      cap := CapOf(evaluated);
    }
    var indices := BuildSweepIndices(section.kind, |stations| - 1, |section.outer|, |section.inner|, cap);
    return Some(Mesh(positions, indices));
  }

  method PlaceRings(section: Section, stations: seq<Station>) returns (positions: seq<Vec>)
    ensures positions == SweepPositions(section, stations)
  {
    positions := [];
    for station := 0 to |stations|
      invariant positions == SweepPositions(section, stations[..station])
    {
      ghost var before, ring := positions, Ring(section, stations[station]);
      var points := section.outer + section.inner;
      for index := 0 to |points|
        invariant positions == before + ring[..index]
      {
        positions := positions + [StationPoint(stations[station], points[index])];
      }
      assert stations[..station + 1][..station] == stations[..station];
    }
    assert stations[..|stations|] == stations;
  }

  method BuildSweepIndices(kind: Kind, m: nat, outer: nat, inner: nat, cap: seq<Tri>) returns (indices: seq<nat>)
    ensures indices == SweepIndices(kind, m, outer, inner, cap)
  {
    hide Band, BackBand, Caps, Rims;
    indices := [];
    var ring := outer + inner;
    for station := 0 to m
      invariant indices == Sides(station, outer, inner)
    {
      StationBaseIsProduct(station, ring);
      indices := AppendSegment(indices, station * ring, station * ring + ring, outer, inner);
    }
    StationBaseIsProduct(m, ring);
    var last := m * ring;
    if kind.Solid? {
      indices := AppendCaps(indices, cap, 0, last);
    } else if outer == inner {
      indices := AppendRims(indices, 0, outer, last, last + outer, outer);
    }
  }

  method AppendSegment(before: seq<nat>, current: nat, nextRing: nat, outer: nat, inner: nat)
    returns (indices: seq<nat>)
    ensures indices
              == before + Band(current, nextRing, outer, outer)
                  + BackBand(current + outer, nextRing + outer, inner, inner)
  {
    indices := before;
    for index := 0 to outer
      invariant indices == before + Band(current, nextRing, outer, index)
    {
      var next := Next(index, outer);
      indices := indices + Quad(current + index, current + next, nextRing + next, nextRing + index);
    }
    ghost var sides := indices;
    for index := 0 to inner
      invariant indices == sides + BackBand(current + outer, nextRing + outer, inner, index)
    {
      var next := Next(index, inner);
      indices := indices + Quad(current + outer + next, current + outer + index,
                                nextRing + outer + index, nextRing + outer + next);
    }
  }

  // ----- The rings of a sweep -----

  function Bases(first: nat, ring: nat, count: nat): (bases: seq<nat>)
    ensures |bases| == count && forall s :: 0 <= s < count ==> bases[s] == first + StationBase(s, ring)
  {
    seq(count, (s: nat) => first + StationBase(s, ring))
  }

  lemma {:induction false} StationsApart(s: nat, t: nat, ring: nat)
    requires s < t
    ensures StationBase(s, ring) + ring <= StationBase(t, ring)
  {
    if s + 1 < t { StationsApart(s, t - 1, ring); }
  }

  lemma {:induction false} SidesCount(m: nat, outer: nat, inner: nat, outs: seq<nat>, ins: seq<nat>, e: Edge)
    requires SweepBases(outs, ins, outer, inner) && m < |outs|
    ensures BufferCount(Sides(m, outer, inner), e) == WallCount(outs, outer, m, e) + BackWallCount(ins, inner, 0, m, e)
    decreases m
  {
    if m > 0 {
      SidesCount(m - 1, outer, inner, outs, ins, e);
      SweepStep(m, outer, inner, outs, ins, e);
    } else {
      assert BufferCount([], e) == 0;
    }
  }

  ghost predicate SweepBases(outs: seq<nat>, ins: seq<nat>, outer: nat, inner: nat) {
    && |outs| == |ins|
    && forall s :: 0 <= s < |outs| ==> outs[s] == StationBase(s, outer + inner) && ins[s] == outs[s] + outer
  }

  lemma SweepStep(m: nat, outer: nat, inner: nat, outs: seq<nat>, ins: seq<nat>, e: Edge)
    requires SweepBases(outs, ins, outer, inner) && 0 < m < |outs|
    ensures BufferCount(Sides(m, outer, inner), e) - BufferCount(Sides(m - 1, outer, inner), e) ==
            (WallCount(outs, outer, m, e) - WallCount(outs, outer, m - 1, e))
            + (BackWallCount(ins, inner, 0, m, e) - BackWallCount(ins, inner, 0, m - 1, e))
  {
    hide BufferCount, Band, BackBand, WallCount, BackWallCount, Sides;
    WallsStep(outs, ins, outer, inner, m, e);
    SidesStep(m, outer, inner, outs[m - 1], outs[m], e);
  }

  lemma WallsStep(outs: seq<nat>, ins: seq<nat>, outer: nat, inner: nat, m: nat, e: Edge)
    requires 0 < m < |outs| == |ins|
    ensures WallCount(outs, outer, m, e)
              == WallCount(outs, outer, m - 1, e) + BufferCount(Band(outs[m - 1], outs[m], outer, outer), e)
    ensures BackWallCount(ins, inner, 0, m, e) ==
            BackWallCount(ins, inner, 0, m - 1, e) + BufferCount(BackBand(ins[m - 1], ins[m], inner, inner), e)
  {
  }

  lemma SidesStep(m: nat, outer: nat, inner: nat, p: nat, q: nat, e: Edge)
    requires m > 0 && p == StationBase(m - 1, outer + inner) && q == StationBase(m, outer + inner)
    ensures BufferCount(Sides(m, outer, inner), e) == BufferCount(Sides(m - 1, outer, inner), e)
            + BufferCount(Band(p, q, outer, outer), e) + BufferCount(BackBand(p + outer, q + outer, inner, inner), e)
  {
    BandTriples(p, q, outer, outer);
    BandTriples(p + outer, q + outer, inner, inner);
    ThreeParts(Sides(m - 1, outer, inner), Band(p, q, outer, outer), BackBand(p + outer, q + outer, inner, inner),
               Sides(m, outer, inner), e);
  }

  lemma ThreeParts(s: seq<nat>, t: seq<nat>, u: seq<nat>, all: seq<nat>, e: Edge)
    requires all == s + t + u && |t| % 3 == 0 && |u| % 3 == 0
    ensures BufferCount(all, e) == BufferCount(s, e) + BufferCount(t, e) + BufferCount(u, e)
  {
    BufferConcat(s, t, e);
    BufferConcat(s + t, u, e);
  }

  lemma {:induction false} SidesBelow(m: nat, outer: nat, inner: nat, limit: nat)
    requires StationBase(m + 1, outer + inner) <= limit
    ensures IndicesBelow(Sides(m, outer, inner), limit)
  {
    hide Band, BackBand, IndicesBelow;
    NothingBelow(limit);
    if m > 0 {
      var ring := outer + inner;
      var p, q := StationBase(m - 1, ring), StationBase(m, ring);
      SidesBelow(m - 1, outer, inner, limit);
      BandBelow(p, q, outer, outer, limit);
      BandBelow(p + outer, q + outer, inner, inner, limit);
      JoinedBelow(Sides(m - 1, outer, inner), Band(p, q, outer, outer), limit);
      JoinedBelow(Sides(m - 1, outer, inner) + Band(p, q, outer, outer),
                  BackBand(p + outer, q + outer, inner, inner), limit);
    }
  }

  lemma NothingBelow(limit: nat)
    ensures IndicesBelow([], limit)
  {
  }

  lemma JoinedBelow(a: seq<nat>, b: seq<nat>, limit: nat)
    requires IndicesBelow(a, limit) && IndicesBelow(b, limit)
    ensures IndicesBelow(a + b, limit)
  {
  }

  // ----- When a sweep is closed -----

  lemma BasesApart(ring: nat, count: nat)
    ensures Apart(Bases(0, ring, count), ring)
  {
    var bases := Bases(0, ring, count);
    forall l, k | 0 <= l < |bases| && 0 <= k < |bases| && l != k
        ensures bases[l] + ring <= bases[k] || bases[k] + ring <= bases[l]
    {
      if l < k { StationsApart(l, k, ring); } else { StationsApart(k, l, ring); }
    }
  }

  lemma SolidSweepIsClosed(m: nat, n: nat, cap: seq<Tri>)
    requires m >= 1 && n >= 3 && Disc(LoopAt(0, n), cap) && TrisInRange(cap, n)
    ensures ClosedSurface(SweepIndices(Solid, m, n, 0, cap), StationBase(m + 1, n))
  {
    hide BufferCount, WallCount, BackWallCount, Count, Shifted, Sides, Caps, Apart;
    var indices, bases, last := SweepIndices(Solid, m, n, 0, cap), Bases(0, n, m + 1), StationBase(m, n);
    BasesApart(n, m + 1);
    SidesBelow(m, n, 0, StationBase(m + 1, n));
    CapsBelow(cap, 0, last, n, |cap|, StationBase(m + 1, n));
    forall e: Edge ensures BufferCount(indices, e) == TubeWalls(bases, n, cap, e) {
      SolidCount(m, n, cap, bases, e);
    }
    CappedTubeIsClosed(bases, n, cap, indices);
  }

  lemma SolidCount(m: nat, n: nat, cap: seq<Tri>, bases: seq<nat>, e: Edge)
    requires |bases| == m + 1 && forall s :: 0 <= s <= m ==> bases[s] == StationBase(s, n)
    ensures BufferCount(SweepIndices(Solid, m, n, 0, cap), e) == TubeWalls(bases, n, cap, e)
  {
    var backs := Bases(n, n, m + 1);
    SidesCount(m, n, 0, bases, backs, e);
    NoBackWalls(backs, 0, m, e);
    SolidEnds(m, n, 0, cap, e);
  }

  lemma SolidEnds(m: nat, n: nat, inner: nat, cap: seq<Tri>, e: Edge)
    ensures BufferCount(SweepIndices(Solid, m, n, inner, cap), e) ==
            BufferCount(Sides(m, n, inner), e) + Count(Shifted(cap, 0), Rev(e))
                + Count(Shifted(cap, StationBase(m, n + inner)), e)
  {
    var last := StationBase(m, n + inner);
    CapsLength(cap, 0, last, |cap|);
    BufferConcat(Sides(m, n, inner), Caps(cap, 0, last, |cap|), e);
    CapsCount(cap, 0, last, |cap|, e);
    assert cap[..|cap|] == cap;
  }

  lemma {:induction false} NoBackWalls(bases: seq<nat>, first: nat, last: nat, e: Edge)
    requires first <= last < |bases|
    ensures BackWallCount(bases, 0, first, last, e) == 0
    decreases last
  {
    if first < last { NoBackWalls(bases, first, last - 1, e); }
  }

  lemma HollowCounts(m: nat, n: nat, cap: seq<Tri>, outs: seq<nat>, ins: seq<nat>, e: Edge)
    requires m >= 1 && |outs| == m + 1 && SweepBases(outs, ins, n, n)
    ensures BufferCount(SweepIndices(Hollow, m, n, n, cap), e) == HollowWalls(outs, ins, n, e)
  {
    hide BufferCount, Band, BackBand, Rims, Sides, WallCount, BackWallCount;
    var last := StationBase(m, n + n);
    RimsTriples(0, n, last, last + n, n, n);
    BufferConcat(Sides(m, n, n), Rims(0, n, last, last + n, n, n), e);
    RimsCount(0, n, last, last + n, n, n, e);
    SidesCount(m, n, n, outs, ins, e);
  }

  /** The blocks of `n` vertices a hollow sweep visits: out on the even ones, back on the odd. */
  function HollowTour(m: nat, n: nat): (all: seq<nat>)
    ensures |all| == 2 * (m + 1)
    ensures forall i :: 0 <= i <= m ==> all[i] == StationBase(i, n + n)
    ensures forall i :: m < i < 2 * (m + 1) ==> all[i] == StationBase(2 * m + 1 - i, n + n) + n
  {
    seq(2 * (m + 1), (i: nat) requires i < 2 * (m + 1) =>
      if i <= m then StationBase(i, n + n) else StationBase(2 * m + 1 - i, n + n) + n)
  }

  lemma HollowTourApart(m: nat, n: nat)
    ensures Apart(HollowTour(m, n), n)
  {
    hide StationBase;
    var all := HollowTour(m, n);
    forall l, k | 0 <= l < |all| && 0 <= k < |all| && l != k ensures all[l] + n <= all[k] || all[k] + n <= all[l] {
      var s, t := if l <= m then l else 2 * m + 1 - l, if k <= m then k else 2 * m + 1 - k;
      if s < t { StationsApart(s, t, n + n); } else if t < s { StationsApart(t, s, n + n); }
      assert all[l] == StationBase(s, n + n) + (if l <= m then 0 else n);
      assert all[k] == StationBase(t, n + n) + (if k <= m then 0 else n);
    }
  }

  lemma HollowBases(m: nat, n: nat, all: seq<nat>, outs: seq<nat>, ins: seq<nat>)
    requires all == HollowTour(m, n) && outs == Bases(0, n + n, m + 1) && ins == Bases(n, n + n, m + 1)
    ensures Tour(all, outs, ins) && SweepBases(outs, ins, n, n)
  {
    hide StationBase;
    forall i | 0 <= i < |ins| ensures all[2 * |ins| - 1 - i] == ins[i] {
      assert 2 * m + 1 - (2 * |ins| - 1 - i) == i;
    }
  }

  lemma HollowSweepIsClosed(m: nat, n: nat, cap: seq<Tri>)
    requires m >= 1 && n >= 3
    ensures ClosedSurface(SweepIndices(Hollow, m, n, n, cap), StationBase(m + 1, n + n))
  {
    hide BufferCount, WallCount, BackWallCount, Sides, Rims, Apart, Tour, SweepBases, HollowWalls;
    var indices, all := SweepIndices(Hollow, m, n, n, cap), HollowTour(m, n);
    var outs, ins, last := Bases(0, n + n, m + 1), Bases(n, n + n, m + 1), StationBase(m, n + n);
    HollowTourApart(m, n);
    HollowBases(m, n, all, outs, ins);
    SidesBelow(m, n, n, StationBase(m + 1, n + n));
    RimsBelow(0, n, last, last + n, n, n, StationBase(m + 1, n + n));
    forall e: Edge ensures BufferCount(indices, e) == HollowWalls(outs, ins, n, e) {
      HollowCounts(m, n, cap, outs, ins, e);
    }
    HollowIsClosed(all, outs, ins, n, indices);
  }

  // ----- Where a sweep stays open -----

  /** Only the first segment touches the first two vertices. */
  lemma {:induction false} SidesAtStart(m: nat, outer: nat, inner: nat, e: Edge)
    requires m >= 1 && outer >= 3 && (e == Edge(0, 1) || e == Edge(1, 0))
    ensures BufferCount(Sides(m, outer, inner), e) == if e == Edge(0, 1) then 1 else 0
    decreases m
  {
    hide BufferCount, Band, BackBand, Sides;
    var p, q := StationBase(m - 1, outer + inner), StationBase(m, outer + inner);
    SidesStep(m, outer, inner, p, q, e);
    BandAbove(p + outer, q + outer, inner, e);
    if m == 1 {
      FirstEdge(q, outer);
      NoSides(outer, inner, e);
    } else {
      SidesAtStart(m - 1, outer, inner, e);
      StationsApart(0, m - 1, outer + inner);
      BandAbove(p, q, outer, e);
    }
  }

  lemma NoSides(outer: nat, inner: nat, e: Edge)
    ensures BufferCount(Sides(0, outer, inner), e) == 0
  {
  }

  lemma OpenSweep(kind: Kind, m: nat, outer: nat, inner: nat, cap: seq<Tri>)
    requires m >= 1 && outer >= 3 && (if kind.Solid? then cap == [] else outer != inner)
    ensures !ClosedBuffer(SweepIndices(kind, m, outer, inner, cap))
  {
    hide BufferCount, Sides, ClosedBuffer;
    assert Caps(cap, 0, StationBase(m, outer + inner), 0) == [];
    assert SweepIndices(kind, m, outer, inner, cap) == Sides(m, outer, inner);
    SidesAtStart(m, outer, inner, Edge(0, 1));
    SidesAtStart(m, outer, inner, Edge(1, 0));
    OpenEnds(Sides(m, outer, inner));
  }

  /** Between vertices of the first ring, the side walls run once forwards along the outline. */
  lemma FirstRingSides(m: nat, n: nat, x: nat, y: nat)
    requires m >= 1 && n >= 3 && x < n && y < n
    ensures BufferCount(Sides(m, n, 0), Edge(x, y)) == if y == Next(x, n) then 1 else 0
  {
    hide BufferCount, WallCount, BackWallCount, ChainCount, Sides;
    var bases, backs := Bases(0, n, m + 1), Bases(n, n, m + 1);
    BasesApart(n, m + 1);
    RingsAreLoops(bases, n);
    SidesCount(m, n, 0, bases, backs, Edge(x, y));
    NoBackWalls(backs, 0, m, Edge(x, y));
    WallsAreChain(bases, n, m, Edge(x, y));
    ChainCounts(RingsAt(bases, n), n, NoFlips(n), m, 0, x, 0, y);
  }

  lemma {:induction false} InRangeCount(cap: seq<Tri>, n: nat, e: Edge)
    requires TrisInRange(cap, n) && (e.tail >= n || e.head >= n)
    ensures Count(cap, e) == 0
  {
    if cap != [] { InRangeCount(cap[..|cap| - 1], n, e); }
  }

  /** A cap that closes a solid sweep is a disc over the outline's ring. */
  lemma ClosingCapIsDisc(m: nat, n: nat, cap: seq<Tri>)
    requires m >= 1 && n >= 3 && TrisInRange(cap, n) && ClosedBuffer(SweepIndices(Solid, m, n, 0, cap))
    ensures Disc(LoopAt(0, n), cap)
  {
    hide BufferCount, Count, SweepIndices, TrisInRange, Sides;
    forall e: Edge ensures DiscEdge(LoopAt(0, n), cap, e) {
      CycleOfRing(0, n, e);
      CycleOfRing(0, n, Rev(e));
      InRing(0, n, e.tail);
      InRing(0, n, e.head);
      if e.tail < n && e.head < n {
        CapBeside(m, n, cap, e);
        CapBeside(m, n, cap, Rev(e));
        assert Rev(Rev(e)) == e;
      } else {
        InRangeCount(cap, n, e);
        InRangeCount(cap, n, Rev(e));
      }
    }
  }

  /** Between vertices of the first ring only the walls and the first cap count. */
  lemma CapBeside(m: nat, n: nat, cap: seq<Tri>, e: Edge)
    requires m >= 1 && n >= 3 && e.tail < n && e.head < n
    ensures BufferCount(SweepIndices(Solid, m, n, 0, cap), e) ==
            (if e.head == Next(e.tail, n) then 1 else 0) + Count(cap, Rev(e))
  {
    hide BufferCount, Count, SweepIndices, Sides, Shifted;
    SolidEnds(m, n, 0, cap, e);
    FirstRingSides(m, n, e.tail, e.head);
    ShiftedByNothing(cap);
    StationsApart(0, m, n);
    ShiftedBelow(cap, StationBase(m, n), e);
  }

  /** Only the first segment touches the first two inner vertices. */
  lemma {:induction false} InnerSidesAtStart(m: nat, outer: nat, inner: nat, e: Edge)
    requires m >= 1 && inner >= 3 && (e == Edge(outer, outer + 1) || e == Edge(outer + 1, outer))
    ensures BufferCount(Sides(m, outer, inner), e) == if e == Edge(outer + 1, outer) then 1 else 0
    decreases m
  {
    hide BufferCount, Band, BackBand, Sides;
    var ring := outer + inner;
    var p, q := StationBase(m - 1, ring), StationBase(m, ring);
    SidesStep(m, outer, inner, p, q, e);
    if m == 1 {
      BandAbove(p, q, outer, e);
      FirstBackEdge(outer, q + outer, inner);
      NoSides(outer, inner, e);
    } else {
      InnerSidesAtStart(m - 1, outer, inner, e);
      StationsApart(0, m - 1, ring);
      BandAbove(p, q, outer, e);
      BandAbove(p + outer, q + outer, inner, e);
    }
  }

  lemma FirstBackEdge(p: nat, q: nat, n: nat)
    requires n >= 3 && p + n <= q
    ensures BufferCount(BackBand(p, q, n, n), Edge(p, p + 1)) == 0
    ensures BufferCount(BackBand(p, q, n, n), Edge(p + 1, p)) == 1
  {
    var first, second := LoopAt(q, n), LoopAt(p, n);
    BackBandCount(p, q, n, n, Edge(p, p + 1));
    BackBandCount(p, q, n, n, Edge(p + 1, p));
    StripCounts(first, second, NoFlips(n), n, true, 0, true, 1);
    StripCounts(first, second, NoFlips(n), n, true, 1, true, 0);
  }

  /** A solid section's caps leave the walls of an inner loop open. */
  lemma InnerLoopStaysOpen(m: nat, n: nat, inner: nat, cap: seq<Tri>)
    requires m >= 1 && inner >= 3 && TrisInRange(cap, n)
    ensures !ClosedBuffer(SweepIndices(Solid, m, n, inner, cap))
  {
    hide BufferCount, Count, SweepIndices, Sides, Shifted, TrisInRange, ClosedBuffer;
    var last := StationBase(m, n + inner);
    StationsApart(0, m, n + inner);
    ShiftedByNothing(cap);
    forall e: Edge | e == Edge(n, n + 1) || e == Edge(n + 1, n)
      ensures BufferCount(SweepIndices(Solid, m, n, inner, cap), e) == if e == Edge(n + 1, n) then 1 else 0
    {
      SolidEnds(m, n, inner, cap, e);
      InnerSidesAtStart(m, n, inner, e);
      InRangeCount(cap, n, Rev(e));
      ShiftedBelow(cap, last, e);
    }
    UnmatchedIsOpen(SweepIndices(Solid, m, n, inner, cap), Edge(n, n + 1));
  }

  lemma UnmatchedIsOpen(indices: seq<nat>, e: Edge)
    requires BufferCount(indices, e) != BufferCount(indices, Rev(e))
    ensures !ClosedBuffer(indices)
  {
  }

  /** A cap triangulated from a clockwise outline runs along the walls instead of against them. */
  lemma ClockwiseSweep(m: nat, n: nat, cap: seq<Tri>)
    requires m >= 1 && n >= 3 && Disc(Descending(n), cap)
    ensures !ClosedBuffer(SweepIndices(Solid, m, n, 0, cap))
  {
    hide BufferCount, Sides, ClosedBuffer, Count, Shifted, CycleHas;
    SidesAtStart(m, n, 0, Edge(0, 1));
    SolidEnds(m, n, 0, cap, Edge(0, 1));
    ShiftedByNothing(cap);
    DescendingCycle(n);
    assert DiscEdge(Descending(n), cap, Edge(1, 0));
    assert Rev(Edge(0, 1)) == Edge(1, 0);
    TwiceIsOpen(SweepIndices(Solid, m, n, 0, cap), Edge(0, 1));
  }

  lemma DescendingCycle(n: nat)
    requires n >= 3
    ensures CycleHas(Descending(n), Edge(1, 0))
  {
    var loop := Descending(n);
    assert Edge(loop[n - 2], loop[Next(n - 2, n)]) == Edge(1, 0);
  }

  lemma TwiceIsOpen(indices: seq<nat>, e: Edge)
    requires BufferCount(indices, e) >= 2
    ensures !ClosedBuffer(indices)
  {
  }

  lemma {:induction false} SweepPositionsLength(section: Section, stations: seq<Station>)
    ensures |SweepPositions(section, stations)| == StationBase(|stations|, |section.outer| + |section.inner|)
  {
    if stations != [] { SweepPositionsLength(section, stations[..|stations| - 1]); }
  }

  /** Loops have at least three points, the inner one may be absent, and a stored cap names outline points. */
  ghost predicate WellFormed(section: Section) {
    |section.outer| >= 3 && (section.inner == [] || |section.inner| >= 3) && TrisInRange(section.cap, |section.outer|)
  }

  /** What covers the outline counter-clockwise: the stored cap, or else its triangulation. */
  ghost predicate Capped(section: Section) {
    if section.cap == [] then TriangulationOf(section.outer).Some? && SignedArea(section.outer) >= 0.0
    else Disc(LoopAt(0, |section.outer|), section.cap)
  }

  lemma CappedIsDisc(section: Section)
    requires WellFormed(section)
    ensures TrisInRange(SectionCap(section), |section.outer|)
    ensures Capped(section) <==> Disc(LoopAt(0, |section.outer|), SectionCap(section))
  {
    hide TriangulationOf, SignedArea, Disc;
    var outer, n := section.outer, |section.outer|;
    if section.cap == [] && TriangulationOf(outer).Some? {
      TriangulationIsSound(outer);
      if SignedArea(outer) >= 0.0 { CapIsDisc(outer); } else { OneWay(n, SectionCap(section)); }
    } else if section.cap == [] {
      EmptyIsNoDisc(n);
    }
  }

  lemma OneWay(n: nat, cap: seq<Tri>)
    requires n >= 3 && Disc(Descending(n), cap)
    ensures !Disc(LoopAt(0, n), cap)
  {
    hide Count, CycleHas;
    DescendingCycle(n);
    CycleOfRing(0, n, Edge(0, 1));
    assert DiscEdge(Descending(n), cap, Edge(1, 0));
    assert !DiscEdge(LoopAt(0, n), cap, Edge(0, 1));
  }

  lemma EmptyIsNoDisc(n: nat)
    requires n >= 3
    ensures !Disc(LoopAt(0, n), [])
  {
    CycleOfRing(0, n, Edge(0, 1));
    assert !DiscEdge(LoopAt(0, n), [], Edge(0, 1));
  }

  /**
   The exact condition for a sweep to be a closed oriented surface. A solid must have no
   inner loop and be capped counter-clockwise: by a stored disc, or by the triangulation of a
   counter-clockwise outline. A hollow section needs loops of equal length. Unlike a straight
   member, a sweep does not turn a clockwise outline around, so its caps then face inwards.
   */
  lemma SweepIsClosed(section: Section, stations: seq<Station>)
    requires WellFormed(section) && SweepMesh(section, stations).Some?
    ensures var mesh := SweepMesh(section, stations).value;
      && (ClosedBuffer(mesh.indices) <==>
           if section.kind.Solid? then section.inner == [] && Capped(section) else |section.outer| == |section.inner|)
      && (ClosedBuffer(mesh.indices) ==> ClosedSurface(mesh.indices, |mesh.positions|))
  {
    hide ClosedBuffer, SweepIndices, SweepPositions, SectionCap, Capped, Disc, TrisInRange;
    var n, m, cap := |section.outer|, |stations| - 1, SectionCap(section);
    SweepPositionsLength(section, stations);
    CappedIsDisc(section);
    if section.kind.Solid? {
      if section.inner != [] {
        InnerLoopStaysOpen(m, n, |section.inner|, cap);
      } else if Capped(section) {
        SolidSweepIsClosed(m, n, cap);
      } else if ClosedBuffer(SweepIndices(Solid, m, n, 0, cap)) {
        ClosingCapIsDisc(m, n, cap);
      }
    } else if n == |section.inner| {
      HollowSweepIsClosed(m, n, cap);
    } else {
      OpenSweep(Hollow, m, n, |section.inner|, cap);
    }
  }

  // ----- Sections of the program -----

  /** The outline of an irregular section: two parallel sides, the second shortened. */
  function IrregularOutline(height: real, width: real, short: real): seq<Point> {
    var h, w := height / 2.0, width / 2.0;
    [Point(h, -w), Point(-h, -w), Point(-h, short - w), Point(h, w)]
  }

  /** The irregular outline runs clockwise, whatever its dimensions. */
  lemma IrregularArea(height: real, width: real, short: real)
    ensures SignedArea(IrregularOutline(height, width, short)) == -(height * (width + short) / 2.0)
  {
    var p := IrregularOutline(height, width, short);
    assert PartialArea(p, 1) == Shear(p[0], p[1]);
    assert PartialArea(p, 2) == PartialArea(p, 1) + Shear(p[1], p[2]);
    assert PartialArea(p, 3) == PartialArea(p, 2) + Shear(p[2], p[3]);
    assert PartialArea(p, 4) == PartialArea(p, 3) + Shear(p[3], p[0]);
    IrregularReals(height, width, short, height / 2.0, width / 2.0, short - width / 2.0);
  }

  lemma IrregularReals(height: real, width: real, short: real, h: real, w: real, s: real)
    requires h == height / 2.0 && w == width / 2.0 && s == short - w
    ensures (h * -w - -h * -w) + (-h * s - -h * -w) + (-h * w - h * s) + (h * -w - h * w) == -(height * (width + short))
  {
    assert h * s == h * short - h * w;
    assert height * (width + short) == 4.0 * (h * w) + 2.0 * (h * short);
  }

  /** Swept along any path, an irregular section is not a closed surface. */
  lemma IrregularSweepIsOpen(height: real, width: real, short: real, stations: seq<Station>)
    requires height > 0.0 && width > 0.0 && short > 0.0 && |stations| >= 2
    ensures var section := Section(Solid, IrregularOutline(height, width, short), [], []);
            !ClosedBuffer(SweepMesh(section, stations).value.indices)
  {
    hide ClosedBuffer, SignedArea, TriangulationOf;
    IrregularArea(height, width, short);
    assert height * (width + short) > 0.0;
    SweepIsClosed(Section(Solid, IrregularOutline(height, width, short), [], []), stations);
  }

  /** The cap stored with an angle section is a disc over its six corners. */
  lemma AngleCapIsDisc()
    ensures Disc(LoopAt(0, 6), ANGLE_CAP) && TrisInRange(ANGLE_CAP, 6)
  {
    forall e: Edge ensures DiscEdge(LoopAt(0, 6), ANGLE_CAP, e) {
      CycleOfRing(0, 6, e);
      CycleOfRing(0, 6, Rev(e));
      InRing(0, 6, e.tail);
      InRing(0, 6, e.head);
      AngleCount(e);
      AngleCount(Rev(e));
    }
  }

  const ANGLE_CAP: seq<Tri> := [Tri(0, 1, 2), Tri(0, 2, 3), Tri(0, 3, 5), Tri(3, 4, 5)]

  lemma AngleCount(e: Edge)
    ensures Count(ANGLE_CAP, e)
              == TriCount(Tri(0, 1, 2), e) + TriCount(Tri(0, 2, 3), e) + TriCount(Tri(0, 3, 5), e)
                  + TriCount(Tri(3, 4, 5), e)
  {
    EmptyBuffer(e);
    CountOne([], Tri(0, 1, 2), e);
    CountOne([Tri(0, 1, 2)], Tri(0, 2, 3), e);
    CountOne([Tri(0, 1, 2), Tri(0, 2, 3)], Tri(0, 3, 5), e);
    CountOne([Tri(0, 1, 2), Tri(0, 2, 3), Tri(0, 3, 5)], Tri(3, 4, 5), e);
    assert [] + [Tri(0, 1, 2)] == [Tri(0, 1, 2)];
    assert [Tri(0, 1, 2)] + [Tri(0, 2, 3)] == [Tri(0, 1, 2), Tri(0, 2, 3)];
    assert [Tri(0, 1, 2), Tri(0, 2, 3)] + [Tri(0, 3, 5)] == [Tri(0, 1, 2), Tri(0, 2, 3), Tri(0, 3, 5)];
    assert [Tri(0, 1, 2), Tri(0, 2, 3), Tri(0, 3, 5)] + [Tri(3, 4, 5)] == ANGLE_CAP;
  }

  /** A stored cap closes a solid sweep exactly when it is a disc over the outline's ring; an angle's always is. */
  lemma StoredCapCloses(section: Section, stations: seq<Station>)
    requires WellFormed(section) && section.kind.Solid? && section.inner == [] && section.cap != []
    requires SweepMesh(section, stations).Some?
    ensures var mesh := SweepMesh(section, stations).value;
            && (ClosedSurface(mesh.indices, |mesh.positions|) <==> Disc(LoopAt(0, |section.outer|), section.cap))
            && (|section.outer| == 6 && section.cap == ANGLE_CAP ==> ClosedSurface(mesh.indices, |mesh.positions|))
  {
    hide Disc, ClosedBuffer;
    AngleCapIsDisc();
    SweepIsClosed(section, stations);
  }

  /** The corners of a circle that takes `chords` chords within the tolerance: a multiple of four, and at least six. */
  function CircleCorners(chords: nat): nat {
    var corners := 4 * ((chords + 1 + 3) / 4);
    if corners < 6 then 6 else corners
  }

  /**
   A tube whose circles take different numbers of corners is open, straight or swept. A tube
   of diameter 100 and wall 10 is one: its circles take 16 and 15 chords, so 20 and 16 corners.
   */
  lemma UnevenTubeIsOpen(section: Section, frame: Frame, length: real, stations: seq<Station>, outer: nat, inner: nat)
    requires section.kind.Hollow? && section.cap == [] && |stations| >= 2
    requires |section.outer| == CircleCorners(outer) && |section.inner| == CircleCorners(inner)
    ensures CircleCorners(16) == 20 && CircleCorners(15) == 16
    ensures ClosedBuffer(MemberMesh(section, frame, length).indices) <==> CircleCorners(outer) == CircleCorners(inner)
    ensures ClosedBuffer(SweepMesh(section, stations).value.indices) <==> CircleCorners(outer) == CircleCorners(inner)
  {
    hide ClosedBuffer, MemberMesh, TriangulationOf;
    MemberIsClosed(section, frame, length);
    SweepIsClosed(section, stations);
  }
}
