/**
 Polygon welds: a triangular fillet swept along a persisted path, planned first and then
 appended in place to the mesh of its weld object.
 */
module Welds {
  import opened MeshIndices
  import opened MeshTopology
  import opened Prisms
  import opened RingChains
  import opened Sweeps
  import opened Triangulation
  import opened Vectors
  import opened Wrappers

  const MAXIMUM_VERTEX: nat := 0xFFFF_FFFF
  const SIZE_MAX: nat := 0xFFFF_FFFF_FFFF_FFFF

  /** Three vertices of the fillet, in model coordinates. */
  datatype FilletRing = FilletRing(corner: Vec, first: Vec, second: Vec)

  /** The directions of the two fillet legs, perpendicular to the path. */
  datatype LegFrame = LegFrame(first: Vec, second: Vec)

  /**
   The geometry of one weld: the frame its two leg directions have along a segment, where
   a ring lies, and which rings and sides are sound.
   */
  datatype Kernel = Kernel(frame: (Vec, Vec, Vec, Vec) -> Option<LegFrame>, place: (Vec, LegFrame) -> FilletRing,
                               soundRing: FilletRing -> bool, soundSides: (FilletRing, FilletRing) -> bool)

  datatype Plan = Plan(segments: nat, positionGrowth: nat, indexGrowth: nat, firstVertex: nat)

  // ----- The values of the polygon rows, in order -----

  function Flatten(rows: seq<seq<Vec>>): seq<Vec> {
    if rows == [] then [] else rows[0] + Flatten(rows[1..])
  }

  class ValueCursor {
    const rows: seq<seq<Vec>>
    var row: nat
    var value: nat

    ghost predicate Valid()
      reads this
    {
      row <= |rows| && (row < |rows| ==> value <= |rows[row]|) && (row == |rows| ==> value == 0)
    }

    /** The values not yet handed out. */
    ghost function Remaining(): seq<Vec>
      requires Valid()
      reads this
    {
      if row == |rows| then [] else rows[row][value..] + Flatten(rows[row + 1..])
    }

    constructor (rows: seq<seq<Vec>>)
      ensures Valid() && this.rows == rows && Remaining() == Flatten(rows)
    {
      this.rows := rows;
      row, value := 0, 0;
      new;
      if rows != [] { assert rows[0][0..] == rows[0]; }
    }

    method Next() returns (result: Option<Vec>)
      requires Valid()
      modifies this
      ensures Valid()
      ensures old(Remaining()) == [] ==> result.None? && Remaining() == []
      ensures old(Remaining()) != [] ==> result == Some(old(Remaining())[0]) && Remaining() == old(Remaining())[1..]
    {
      while row < |rows| && value == |rows[row]|
        invariant Valid() && Remaining() == old(Remaining())
        decreases |rows| - row
      {
        if row + 1 < |rows| {
          assert rows[row + 1..][0] == rows[row + 1] && rows[row + 1..][1..] == rows[row + 2..];
          assert rows[row + 1][0..] == rows[row + 1];
        }
        row := row + 1;
        value := 0;
      }
      if row == |rows| { return None; }
      result := Some(rows[row][value]);
      value := value + 1;
    }
  }

  /** The two leg directions and the end point of the next segment. */
  method NextSegment(cursor: ValueCursor) returns (first: Option<Vec>, second: Option<Vec>, end: Option<Vec>)
    requires cursor.Valid() && |cursor.Remaining()| >= 3
    modifies cursor
    ensures cursor.Valid() && cursor.Remaining() == old(cursor.Remaining())[3..]
    ensures first == Some(old(cursor.Remaining())[0]) && second == Some(old(cursor.Remaining())[1])
    ensures end == Some(old(cursor.Remaining())[2])
  {
    hide ValueCursor.Remaining, ValueCursor.Valid;
    ghost var values := cursor.Remaining();
    first := cursor.Next();
    second := cursor.Next();
    end := cursor.Next();
    assert values[1..][1..] == values[2..] && values[2..][1..] == values[3..];
  }

  // ----- Planning -----

  /** The frame of segment `s`: two leg directions between the segment's end points. */
  ghost function FrameAt(kernel: Kernel, values: seq<Vec>, s: nat): Option<LegFrame>
    requires 3 * s + 3 < |values|
  {
    kernel.frame(values[3 * s + 1], values[3 * s + 2], values[3 * s], values[3 * s + 3])
  }

  ghost function StartRing(kernel: Kernel, values: seq<Vec>, s: nat): FilletRing
    requires 3 * s + 3 < |values| && FrameAt(kernel, values, s).Some?
  {
    kernel.place(values[3 * s], FrameAt(kernel, values, s).value)
  }

  ghost function EndRing(kernel: Kernel, values: seq<Vec>, s: nat): FilletRing
    requires 3 * s + 3 < |values| && FrameAt(kernel, values, s).Some?
  {
    kernel.place(values[3 * s + 3], FrameAt(kernel, values, s).value)
  }

  /** Segment `s` has a frame, a sound ring at its start, and sound sides to its predecessor. */
  ghost predicate SoundSegment(kernel: Kernel, values: seq<Vec>, s: nat)
    requires 3 * s + 3 < |values|
  {
    && FrameAt(kernel, values, s).Some?
    && kernel.soundRing(StartRing(kernel, values, s))
    && (s > 0 ==> FrameAt(kernel, values, s - 1).Some? &&
                  kernel.soundSides(StartRing(kernel, values, s - 1), StartRing(kernel, values, s)))
  }

  ghost predicate SoundEnd(kernel: Kernel, values: seq<Vec>, s: nat)
    requires 3 * s + 3 < |values|
  {
    && FrameAt(kernel, values, s).Some?
    && kernel.soundRing(EndRing(kernel, values, s))
    && kernel.soundSides(StartRing(kernel, values, s), EndRing(kernel, values, s))
  }

  ghost predicate PathOfSegments(values: seq<Vec>) {
    |values| >= 4 && (|values| - 1) % 3 == 0
  }

  function SegmentCount(values: nat): nat
    requires values >= 1
  {
    (values - 1) / 3
  }

  /** The appended vertices stay addressable by 32-bit indices, and no size overflows. */
  predicate FitsMesh(vertices: nat, segments: nat) {
    && segments <= SIZE_MAX / 9 - 1 && segments <= (SIZE_MAX - 6) / 18
    && vertices <= MAXIMUM_VERTEX && 3 * (segments + 1) <= MAXIMUM_VERTEX - vertices
  }

  /** The buffer sizes never decide: a sweep fits just when the mesh then has fewer than 2 to the 32nd vertices. */
  lemma FitsByVertices(vertices: nat, segments: nat)
    ensures FitsMesh(vertices, segments) <==> vertices + 3 * (segments + 1) <= 4294967295
  {
  }

  /** The first `m` segments have frames. */
  ghost predicate Framed(kernel: Kernel, values: seq<Vec>, m: nat) {
    (m > 0 ==> 3 * m < |values|) && forall s :: 0 <= s < m ==> FrameAt(kernel, values, s).Some?
  }

  /** The first `k` segments are sound. */
  ghost predicate SoundPrefix(kernel: Kernel, values: seq<Vec>, k: nat) {
    Framed(kernel, values, k) && forall s :: 0 <= s < k ==> SoundSegment(kernel, values, s)
  }

  ghost predicate Plannable(kernel: Kernel, values: seq<Vec>, vertices: nat, size: real) {
    && size > 0.0 && PathOfSegments(values)
    && var m := SegmentCount(|values|);
    && FitsMesh(vertices, m)
    && SoundPrefix(kernel, values, m)
    && SoundEnd(kernel, values, m - 1)
  }

  function PlanFor(vertices: nat, segments: nat): Plan {
    Plan(segments, (segments + 1) * 9, segments * 18 + 6, vertices)
  }

  /** A plan exists exactly when the whole path is sound and the mesh can take it. */
  method PlanSweep(kernel: Kernel, vertices: nat, rows: seq<seq<Vec>>, size: real) returns (plan: Option<Plan>)
    ensures plan.Some? <==> Plannable(kernel, Flatten(rows), vertices, size)
    ensures plan.Some? ==> plan.value == PlanFor(vertices, SegmentCount(|Flatten(rows)|))
  {
    hide Flatten, FitsMesh, SoundPrefix, SoundEnd;
    if size <= 0.0 { return None; }
    var count := CountValues(rows);
    if count < 4 || (count - 1) % 3 != 0 { return None; }
    var m := (count - 1) / 3;
    if !FitsMesh(vertices, m) { return None; }
    var sound := WalkSegments(kernel, rows, m);
    return if sound then Some(PlanFor(vertices, m)) else None;
  }

  /** Walks the path once and checks every segment in turn. */
  method WalkSegments(kernel: Kernel, rows: seq<seq<Vec>>, m: nat) returns (sound: bool)
    requires m >= 1 && |Flatten(rows)| == 3 * m + 1
    ensures sound <==> SoundPrefix(kernel, Flatten(rows), m) && SoundEnd(kernel, Flatten(rows), m - 1)
  {
    hide Flatten, ValueCursor.Remaining, ValueCursor.Valid;
    ghost var values := Flatten(rows);
    var cursor := new ValueCursor(rows);
    var origin := cursor.Next();
    var previous: Option<FilletRing> := None;
    for segment := 0 to m
      invariant cursor.Valid() && cursor.Remaining() == values[3 * segment + 1..]
      invariant origin == Some(values[3 * segment])
      invariant SoundPrefix(kernel, values, segment)
      invariant previous == if segment == 0 then None else Some(StartRing(kernel, values, segment - 1))
      invariant segment == m ==> SoundEnd(kernel, values, m - 1)
    {
      var first, second, end := NextSegment(cursor);
      assert values[3 * segment + 1..][3..] == values[3 * (segment + 1) + 1..];
      var frame := kernel.frame(first.value, second.value, origin.value, end.value);
      if frame.None? {
        assert FrameAt(kernel, values, segment).None?;
        return false;
      }
      var current := kernel.place(origin.value, frame.value);
      if !kernel.soundRing(current) || (previous.Some? && !kernel.soundSides(previous.value, current)) {
        assert !SoundSegment(kernel, values, segment);
        return false;
      }
      previous := Some(current);
      if segment + 1 == m {
        var last := kernel.place(end.value, frame.value);
        if !kernel.soundRing(last) || !kernel.soundSides(current, last) { return false; }
      }
      origin := end;
    }
    return true;
  }

  method CountValues(rows: seq<seq<Vec>>) returns (count: nat)
    ensures count == |Flatten(rows)|
  {
    count := 0;
    for row := 0 to |rows|
      invariant count + |Flatten(rows[row..])| == |Flatten(rows)|
    {
      assert rows[row..][0] == rows[row] && rows[row..][1..] == rows[row + 1..];
      count := count + |rows[row]|;
    }
  }

  // ----- Appending -----

  function RingVertices(ring: FilletRing): seq<Vec> {
    [ring.corner, ring.first, ring.second]
  }

  /** The start rings of the first `k` segments. */
  ghost function StartRings(kernel: Kernel, values: seq<Vec>, k: nat): seq<Vec>
    requires Framed(kernel, values, k)
  {
    if k == 0 then [] else StartRings(kernel, values, k - 1) + RingVertices(StartRing(kernel, values, k - 1))
  }

  /** The vertices a planned weld adds: one ring per segment and the ring at the far end. */
  ghost function WeldPositions(kernel: Kernel, values: seq<Vec>, m: nat): seq<Vec>
    requires m >= 1 && Framed(kernel, values, m)
  {
    StartRings(kernel, values, m) + RingVertices(EndRing(kernel, values, m - 1))
  }

  /** The side walls of the first `m` segments, from vertex `first` on. */
  function WeldSides(first: nat, m: nat): seq<nat> {
    if m == 0 then [] else WeldSides(first, m - 1) + Band(first + 3 * (m - 1), first + 3 * m, 3, 3)
  }

  function WeldIndices(first: nat, m: nat): seq<nat> {
    var last := first + 3 * m;
    WeldSides(first, m) + [first, first + 2, first + 1, last, last + 1, last + 2]
  }

  /** The growing mesh of one weld object. */
  class WeldMesh {
    var positions: seq<Vec>
    var indices: seq<nat>

    constructor ()
      ensures positions == [] && indices == []
    {
      positions, indices := [], [];
    }

    method AppendRing(kernel: Kernel, origin: Vec, frame: LegFrame)
      modifies this`positions
      ensures positions == old(positions) + RingVertices(kernel.place(origin, frame))
    {
      var ring := kernel.place(origin, frame);
      positions := positions + [ring.corner];
      positions := positions + [ring.first];
      positions := positions + [ring.second];
    }

    /** Appends exactly what was planned; every frame it relies on was validated by the plan. */
    method AppendSweep(kernel: Kernel, rows: seq<seq<Vec>>, size: real, plan: Plan)
      requires Plannable(kernel, Flatten(rows), |positions|, size)
      requires plan == PlanFor(|positions|, SegmentCount(|Flatten(rows)|))
      modifies this
      ensures positions == old(positions) + WeldPositions(kernel, Flatten(rows), plan.segments)
      ensures indices == old(indices) + WeldIndices(|old(positions)|, plan.segments)
      ensures 3 * |positions| == 3 * |old(positions)| + plan.positionGrowth
      ensures |indices| == |old(indices)| + plan.indexGrowth
    {
      AppendRings(kernel, rows, plan.segments);
      WeldPositionsLength(kernel, Flatten(rows), plan.segments);
      AppendWalls(plan.firstVertex, plan.segments);
      WeldSidesLength(plan.firstVertex, plan.segments);
    }

    method AppendRings(kernel: Kernel, rows: seq<seq<Vec>>, m: nat)
      requires m >= 1 && |Flatten(rows)| == 3 * m + 1 && Framed(kernel, Flatten(rows), m)
      modifies this`positions
      ensures positions == old(positions) + WeldPositions(kernel, Flatten(rows), m)
    {
      hide Flatten, ValueCursor.Remaining, ValueCursor.Valid, RingVertices;
      ghost var values := Flatten(rows);
      var cursor := new ValueCursor(rows);
      var start := cursor.Next();
      var origin := start.value;
      for segment := 0 to m
        invariant cursor.Valid() && fresh(cursor) && cursor.Remaining() == values[3 * segment + 1..]
        invariant origin == values[3 * segment]
        invariant segment < m ==> positions == old(positions) + StartRings(kernel, values, segment)
        invariant segment == m ==> positions == old(positions) + WeldPositions(kernel, values, m)
      {
        var first, second, end := NextSegment(cursor);
        assert values[3 * segment + 1..][3..] == values[3 * (segment + 1) + 1..];
        assert FrameAt(kernel, values, segment).Some?;
        var frame := kernel.frame(first.value, second.value, origin, end.value);
        AppendRing(kernel, origin, frame.value);
        assert positions == old(positions) + StartRings(kernel, values, segment + 1);
        if segment + 1 == m {
          AppendRing(kernel, end.value, frame.value);
        }
        origin := end.value;
      }
    }

    method AppendSides(current: nat, next: nat)
      modifies this`indices
      ensures indices == old(indices) + Band(current, next, 3, 3)
    {
      for side := 0 to 3
        invariant indices == old(indices) + Band(current, next, 3, side)
      {
        var adjacent := Next(side, 3);
        indices := indices + [current + side, current + adjacent, next + adjacent,
                              current + side, next + adjacent, next + side];
      }
    }

    method AppendWalls(firstVertex: nat, m: nat)
      modifies this`indices
      ensures indices == old(indices) + WeldIndices(firstVertex, m)
    {
      hide Band;
      for segment := 0 to m
        invariant indices == old(indices) + WeldSides(firstVertex, segment)
      {
        var current := firstVertex + segment * 3;
        var next := current + 3;
        AppendSides(current, next);
      }
      var last := firstVertex + m * 3;
      indices := indices + [firstVertex, firstVertex + 2, firstVertex + 1, last, last + 1, last + 2];
    }
  }

  lemma {:induction false} StartRingsLength(kernel: Kernel, values: seq<Vec>, k: nat)
    requires Framed(kernel, values, k)
    ensures |StartRings(kernel, values, k)| == 3 * k
    decreases k
  {
    if k > 0 { StartRingsLength(kernel, values, k - 1); }
  }

  lemma WeldPositionsLength(kernel: Kernel, values: seq<Vec>, m: nat)
    requires m >= 1 && Framed(kernel, values, m)
    ensures |WeldPositions(kernel, values, m)| == 3 * (m + 1)
  {
    StartRingsLength(kernel, values, m);
  }

  lemma {:induction false} WeldSidesLength(first: nat, m: nat)
    ensures |WeldSides(first, m)| == 18 * m
  {
    if m > 0 {
      WeldSidesLength(first, m - 1);
      assert |Band(first + 3 * (m - 1), first + 3 * m, 3, 1)| == 6;
      assert |Band(first + 3 * (m - 1), first + 3 * m, 3, 2)| == 12;
    }
  }

  // ----- Welds stay closed -----

  lemma {:induction false} WeldSidesCount(first: nat, m: nat, bases: seq<nat>, e: Edge)
    requires m < |bases| && forall s :: 0 <= s < |bases| ==> bases[s] == first + 3 * s
    ensures BufferCount(WeldSides(first, m), e) == WallCount(bases, 3, m, e)
    decreases m
  {
    hide BufferCount, Band;
    if m == 0 {
      EmptyBuffer(e);
    } else {
      WeldSidesCount(first, m - 1, bases, e);
      BandTriples(bases[m - 1], bases[m], 3, 3);
      BufferConcat(WeldSides(first, m - 1), Band(bases[m - 1], bases[m], 3, 3), e);
    }
  }

  lemma WeldCount(first: nat, m: nat, bases: seq<nat>, e: Edge)
    requires |bases| == m + 1 && forall s :: 0 <= s < |bases| ==> bases[s] == first + 3 * s
    ensures BufferCount(WeldIndices(first, m), e) == TubeWalls(bases, 3, [Tri(0, 1, 2)], e)
  {
    hide BufferCount, TriCount, WeldSides, WallCount, Count, Shifted;
    var last, sides := first + 3 * m, WeldSides(first, m);
    WeldSidesCount(first, m, bases, e);
    BufferTri(sides, first, first + 2, first + 1, e);
    BufferTri(sides + [first, first + 2, first + 1], last, last + 1, last + 2, e);
    var bottom, top := [first, first + 2, first + 1], [last, last + 1, last + 2];
    assert bottom + top == [first, first + 2, first + 1, last, last + 1, last + 2];
    assert sides + (bottom + top) == sides + bottom + top;
    OneShifted(first, Rev(e));
    OneShifted(last, e);
    MirroredTri(first, e);
  }

  lemma OneShifted(base: nat, e: Edge)
    ensures Count(Shifted([Tri(0, 1, 2)], base), e) == TriCount(Tri(base, base + 1, base + 2), e)
  {
    assert Shifted([], base) == [] && Shifted([Tri(0, 1, 2)], base) == [] + [Tri(base, base + 1, base + 2)];
    CountOne([], Tri(base, base + 1, base + 2), e);
  }

  lemma MirroredTri(first: nat, e: Edge)
    ensures TriCount(Tri(first, first + 2, first + 1), e) == TriCount(Tri(first, first + 1, first + 2), Rev(e))
  {
  }

  lemma {:induction false} WeldSidesRange(first: nat, m: nat)
    ensures |WeldSides(first, m)| % 3 == 0
    ensures forall k :: 0 <= k < |WeldSides(first, m)| ==> first <= WeldSides(first, m)[k] < first + 3 * (m + 1)
  {
    if m > 0 {
      WeldSidesRange(first, m - 1);
      TriangleBand(first + 3 * (m - 1), first + 3 * m);
      hide Band;
    }
  }

  lemma TriangleBand(p: nat, q: nat)
    ensures |Band(p, q, 3, 3)| == 18
    ensures forall k :: 0 <= k < |Band(p, q, 3, 3)| ==>
        p <= Band(p, q, 3, 3)[k] < p + 3 || q <= Band(p, q, 3, 3)[k] < q + 3
  {
    var one, two := Band(p, q, 3, 1), Band(p, q, 3, 2);
    assert Band(p, q, 3, 0) == [] && one == [] + Quad(p, p + 1, q + 1, q);
    assert two == one + Quad(p + 1, p + 2, q + 2, q + 1);
    assert Band(p, q, 3, 3) == two + Quad(p + 2, p, q, q + 2);
  }

  /** A single weld is a closed surface over the vertices it adds. */
  lemma WeldIsClosed(first: nat, m: nat)
    requires m >= 1
    ensures ClosedBuffer(WeldIndices(first, m))
    ensures forall k :: 0 <= k < |WeldIndices(first, m)| ==> first <= WeldIndices(first, m)[k] < first + 3 * (m + 1)
  {
    hide BufferCount, WallCount, Count, Shifted, WeldSides, Band;
    var bases, cap := seq(m + 1, (s: nat) => first + 3 * s), [Tri(0, 1, 2)];
    WeldSidesRange(first, m);
    TriangleDisc(LoopAt(0, 3));
    forall e: Edge ensures BufferCount(WeldIndices(first, m), e) == TubeWalls(bases, 3, cap, e) {
      WeldCount(first, m, bases, e);
    }
    CappedTubeIsClosed(bases, 3, cap, WeldIndices(first, m));
  }

  lemma {:induction false} UntouchedVertices(indices: seq<nat>, e: Edge)
    requires |indices| % 3 == 0
    requires (forall k :: 0 <= k < |indices| ==> indices[k] != e.tail)
        || (forall k :: 0 <= k < |indices| ==> indices[k] != e.head)
    ensures BufferCount(indices, e) == 0
  {
    if indices != [] { UntouchedVertices(indices[..|indices| - 3], e); }
  }

  /** Two closed surfaces without common vertices form a closed surface. */
  lemma ClosedUnion(a: seq<nat>, b: seq<nat>, vertices: nat, more: nat)
    requires ClosedSurface(a, vertices) && ClosedBuffer(b)
    requires forall k :: 0 <= k < |b| ==> vertices <= b[k] < vertices + more
    ensures ClosedSurface(a + b, vertices + more)
  {
    hide BufferCount;
    forall e: Edge ensures BufferCount(a + b, e) <= 1 && BufferCount(a + b, e) == BufferCount(a + b, Rev(e)) {
      BufferConcat(a, b, e);
      BufferConcat(a, b, Rev(e));
      if e.tail < vertices && e.head < vertices {
        UntouchedVertices(b, e);
      } else {
        UntouchedVertices(a, e);
      }
    }
  }

  // ----- Any number of welds -----

  datatype Weld = Weld(kernel: Kernel, rows: seq<seq<Vec>>, size: real)

  /** The mesh after appending, one after the other, the welds that could be planned. */
  ghost function AfterWelds(welds: seq<Weld>): Mesh {
    if welds == [] then Mesh([], [])
    else
      var before, weld := AfterWelds(welds[..|welds| - 1]), welds[|welds| - 1];
      var values := Flatten(weld.rows);
      if !Plannable(weld.kernel, values, |before.positions|, weld.size) then before
      else
        var m := SegmentCount(|values|);
        Mesh(before.positions + WeldPositions(weld.kernel, values, m),
             before.indices + WeldIndices(|before.positions|, m))
  }

  /**
   However many welds are appended, the mesh of a weld object stays a closed oriented
   surface whose indices address its own vertices and fit 32 bits.
   */
  lemma {:induction false} WeldsStayClosed(welds: seq<Weld>)
    ensures ClosedSurface(AfterWelds(welds).indices, |AfterWelds(welds).positions|)
    ensures |AfterWelds(welds).positions| <= MAXIMUM_VERTEX
  {
    if welds == [] {
      NothingIsClosed();
    } else {
      WeldsStayClosed(welds[..|welds| - 1]);
      var before, weld := AfterWelds(welds[..|welds| - 1]), welds[|welds| - 1];
      var values := Flatten(weld.rows);
      if Plannable(weld.kernel, values, |before.positions|, weld.size) {
        hide ClosedSurface, WeldIndices, WeldPositions;
        var m := SegmentCount(|values|);
        WeldPositionsLength(weld.kernel, values, m);
        WeldIsClosed(|before.positions|, m);
        ClosedUnion(before.indices, WeldIndices(|before.positions|, m), |before.positions|, 3 * (m + 1));
      }
    }
  }

  lemma NothingIsClosed()
    ensures ClosedSurface([], 0)
  {
    forall e: Edge ensures BufferCount([], e) == 0 { EmptyBuffer(e); }
  }
}
