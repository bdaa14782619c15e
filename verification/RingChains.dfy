/**
 Chains of equally long rings inside one vertex buffer: the tube an outline sweeps out,
 and the ring-shaped surface of a hollow member, which runs out along its outer rings and
 back along its inner ones.
 */
module RingChains {
  import opened MeshIndices
  import opened MeshTopology

  /** Rings of `n` vertices starting at `bases` do not overlap. */
  ghost predicate Apart(bases: seq<nat>, n: nat) {
    forall l, k :: 0 <= l < |bases| && 0 <= k < |bases| && l != k ==>
        bases[l] + n <= bases[k] || bases[k] + n <= bases[l]
  }

  function RingsAt(bases: seq<nat>, n: nat): (loops: seq<seq<nat>>)
    ensures |loops| == |bases| && Sized(loops, n)
    ensures forall l :: 0 <= l < |bases| ==> loops[l] == LoopAt(bases[l], n)
  {
    seq(|bases|, (l: nat) requires l < |bases| => LoopAt(bases[l], n))
  }

  lemma RingsAreLoops(bases: seq<nat>, n: nat)
    requires Apart(bases, n) && n >= 3 && |bases| >= 2
    ensures Loops(RingsAt(bases, n), n)
  {
    var loops := RingsAt(bases, n);
    forall l, i, m, j | 0 <= l < |loops| && 0 <= m < |loops| && 0 <= i < n && 0 <= j < n && loops[l][i] == loops[m][j]
      ensures l == m && i == j
    {
      assert loops[l][i] == bases[l] + i && loops[m][j] == bases[m] + j;
    }
  }

  /** The outward side walls of the first `m` segments. */
  function WallCount(bases: seq<nat>, n: nat, m: nat, e: Edge): nat
    requires m < |bases|
  {
    if m == 0 then 0 else WallCount(bases, n, m - 1, e) + BufferCount(Band(bases[m - 1], bases[m], n, n), e)
  }

  /** The inward side walls of segments `first` to `last`. */
  function BackWallCount(bases: seq<nat>, n: nat, first: nat, last: nat, e: Edge): nat
    requires first <= last < |bases|
    decreases last
  {
    if first == last then 0
    else BackWallCount(bases, n, first, last - 1, e) + BufferCount(BackBand(bases[last - 1], bases[last], n, n), e)
  }

  lemma {:induction false} BackWallFirst(bases: seq<nat>, n: nat, first: nat, last: nat, e: Edge)
    requires first < last < |bases|
    ensures BackWallCount(bases, n, first, last, e) ==
            BufferCount(BackBand(bases[first], bases[first + 1], n, n), e) + BackWallCount(bases, n, first + 1, last, e)
    decreases last
  {
    if first + 1 < last { BackWallFirst(bases, n, first, last - 1, e); }
  }

  lemma {:induction false} WallsAreChain(bases: seq<nat>, n: nat, m: nat, e: Edge)
    requires m < |bases|
    ensures ChainCount(RingsAt(bases, n), n, NoFlips(n), m, e) == WallCount(bases, n, m, e)
  {
    if m > 0 {
      WallsAreChain(bases, n, m - 1, e);
      BandCount(bases[m - 1], bases[m], n, n, e);
    }
  }

  /** The surface of a capped tube over the rings at `bases`. */
  ghost function TubeWalls(bases: seq<nat>, n: nat, cap: seq<Tri>, e: Edge): nat
    requires |bases| >= 1
  {
    WallCount(bases, n, |bases| - 1, e)
    + Count(Shifted(cap, bases[0]), Rev(e)) + Count(Shifted(cap, bases[|bases| - 1]), e)
  }

  lemma CappedTubeIsClosed(bases: seq<nat>, n: nat, cap: seq<Tri>, indices: seq<nat>)
    requires Apart(bases, n) && n >= 3 && |bases| >= 2 && Disc(LoopAt(0, n), cap)
    requires |indices| % 3 == 0
    requires forall e: Edge :: BufferCount(indices, e) == TubeWalls(bases, n, cap, e)
    ensures ClosedBuffer(indices)
  {
    hide BufferCount, WallCount, ChainCount, Count, Shifted;
    var loops, last := RingsAt(bases, n), bases[|bases| - 1];
    RingsAreLoops(bases, n);
    ShiftedDisc(cap, n, bases[0]);
    ShiftedDisc(cap, n, last);
    forall e: Edge
      ensures BufferCount(indices, e) == TubeCount(loops, n, NoFlips(n), Shifted(cap, bases[0]), Shifted(cap, last), e)
    {
      WallsAreChain(bases, n, |bases| - 1, e);
    }
    TubeIsClosed(loops, n, NoFlips(n), Shifted(cap, bases[0]), Shifted(cap, last), indices);
  }

  /** A hollow member: outer walls, inner walls, and the annulus at either end. */
  ghost function HollowWalls(outs: seq<nat>, ins: seq<nat>, n: nat, e: Edge): nat
    requires |outs| == |ins| >= 1
  {
    var m := |outs| - 1;
    WallCount(outs, n, m, e) + BackWallCount(ins, n, 0, m, e)
    + BufferCount(BackBand(outs[0], ins[0], n, n), e) + BufferCount(Band(outs[m], ins[m], n, n), e)
  }

  /** The rings of a hollow member in order: out along the outer rings, back along the inner. */
  ghost predicate Tour(all: seq<nat>, outs: seq<nat>, ins: seq<nat>) {
    && |outs| == |ins| >= 1 && |all| == 2 * |outs|
    && (forall i :: 0 <= i < |outs| ==> all[i] == outs[i])
    && (forall i :: 0 <= i < |ins| ==> all[2 * |ins| - 1 - i] == ins[i])
  }

  lemma ChainStep(bases: seq<nat>, n: nat, m: nat, e: Edge)
    requires 0 < m < |bases|
    ensures ChainCount(RingsAt(bases, n), n, NoFlips(n), m, e) ==
            ChainCount(RingsAt(bases, n), n, NoFlips(n), m - 1, e)
            + StripCount(LoopAt(bases[m - 1], n), LoopAt(bases[m], n), NoFlips(n), n, e)
  {
  }

  lemma {:induction false} OuterPrefix(all: seq<nat>, outs: seq<nat>, ins: seq<nat>, n: nat, m: nat, e: Edge)
    requires Tour(all, outs, ins) && m < |outs|
    ensures ChainCount(RingsAt(all, n), n, NoFlips(n), m, e) == WallCount(outs, n, m, e)
  {
    if m > 0 {
      OuterPrefix(all, outs, ins, n, m - 1, e);
      ChainStep(all, n, m, e);
      BandCount(outs[m - 1], outs[m], n, n, e);
    }
  }

  /** Behind the far annulus the chain returns along the inner rings. */
  lemma {:induction false} InnerReturn(all: seq<nat>, outs: seq<nat>, ins: seq<nat>, n: nat, t: nat, e: Edge)
    requires Tour(all, outs, ins) && t < |outs|
    ensures var m := |outs| - 1;
            ChainCount(RingsAt(all, n), n, NoFlips(n), m + 1 + t, e) ==
            WallCount(outs, n, m, e) + BufferCount(Band(outs[m], ins[m], n, n), e) + BackWallCount(ins, n, m - t, m, e)
    decreases t
  {
    hide BufferCount, Band, BackBand, StripCount, TriCount;
    if t == 0 {
      FarAnnulus(all, outs, ins, n, e);
    } else {
      InnerReturn(all, outs, ins, n, t - 1, e);
      InnerStep(all, outs, ins, n, t, e);
    }
  }

  lemma FarAnnulus(all: seq<nat>, outs: seq<nat>, ins: seq<nat>, n: nat, e: Edge)
    requires Tour(all, outs, ins)
    ensures var m := |outs| - 1;
            ChainCount(RingsAt(all, n), n, NoFlips(n), m + 1, e) ==
            WallCount(outs, n, m, e) + BufferCount(Band(outs[m], ins[m], n, n), e)
  {
    hide BufferCount, Band, BackBand, StripCount, TriCount;
    var m := |outs| - 1;
    assert all[2 * |ins| - 1 - m] == ins[m];
    ChainStep(all, n, m + 1, e);
    OuterPrefix(all, outs, ins, n, m, e);
    BandCount(outs[m], ins[m], n, n, e);
  }

  lemma InnerStep(all: seq<nat>, outs: seq<nat>, ins: seq<nat>, n: nat, t: nat, e: Edge)
    requires Tour(all, outs, ins) && 0 < t < |outs|
    ensures var m := |outs| - 1;
            ChainCount(RingsAt(all, n), n, NoFlips(n), m + 1 + t, e)
            - ChainCount(RingsAt(all, n), n, NoFlips(n), m + t, e) ==
            BackWallCount(ins, n, m - t, m, e) - BackWallCount(ins, n, m - (t - 1), m, e)
  {
    hide BufferCount, Band, BackBand, StripCount, TriCount;
    var m := |outs| - 1;
    assert all[2 * |ins| - 1 - (m - t)] == ins[m - t];
    assert all[2 * |ins| - 1 - (m - t + 1)] == ins[m - t + 1];
    ChainStep(all, n, m + 1 + t, e);
    BackWallFirst(ins, n, m - t, m, e);
    BackBandCount(ins[m - t], ins[m - t + 1], n, n, e);
  }

  lemma HollowCount(all: seq<nat>, outs: seq<nat>, ins: seq<nat>, n: nat, e: Edge)
    requires Tour(all, outs, ins)
    ensures RingCount(RingsAt(all, n), n, NoFlips(n), e) == HollowWalls(outs, ins, n, e)
  {
    hide BufferCount, Band, BackBand, StripCount, TriCount;
    var m := |outs| - 1;
    assert all[2 * |ins| - 1 - 0] == ins[0];
    InnerReturn(all, outs, ins, n, m, e);
    BackBandCount(outs[0], ins[0], n, n, e);
  }

  lemma HollowIsClosed(all: seq<nat>, outs: seq<nat>, ins: seq<nat>, n: nat, indices: seq<nat>)
    requires Tour(all, outs, ins) && Apart(all, n) && n >= 3 && |outs| >= 2
    requires |indices| % 3 == 0
    requires forall e: Edge :: BufferCount(indices, e) == HollowWalls(outs, ins, n, e)
    ensures ClosedBuffer(indices)
  {
    var m, loops := |outs| - 1, RingsAt(all, n);
    RingsAreLoops(all, n);
    forall e: Edge ensures BufferCount(indices, e) == RingCount(loops, n, NoFlips(n), e) {
      HollowCount(all, outs, ins, n, e);
    }
    RingIsClosed(loops, n, NoFlips(n), indices);
  }

  // ----- The annulus at either end of a hollow member -----

  /** For each of the first `k` positions, the quad of the near annulus and that of the far one. */
  function Rims(outStart: nat, inStart: nat, outEnd: nat, inEnd: nat, n: nat, k: nat): seq<nat>
    requires k <= n
  {
    if k == 0 then [] else
      var i, next := k - 1, Next(k - 1, n);
      Rims(outStart, inStart, outEnd, inEnd, n, k - 1)
      + Quad(outStart + next, outStart + i, inStart + i, inStart + next)
      + Quad(outEnd + i, outEnd + next, inEnd + next, inEnd + i)
  }

  lemma {:induction false} RimsCount(outStart: nat, inStart: nat, outEnd: nat, inEnd: nat, n: nat, k: nat, e: Edge)
    requires k <= n
    ensures BufferCount(Rims(outStart, inStart, outEnd, inEnd, n, k), e) ==
            BufferCount(BackBand(outStart, inStart, n, k), e) + BufferCount(Band(outEnd, inEnd, n, k), e)
  {
    hide BufferCount, TriCount;
    EmptyBuffer(e);
    if k > 0 {
      RimsCount(outStart, inStart, outEnd, inEnd, n, k - 1, e);
      RimsStep(outStart, inStart, outEnd, inEnd, n, k, e);
      BandSteps(outStart, inStart, n, k, e);
      BandSteps(outEnd, inEnd, n, k, e);
    }
  }

  function QuadTrace(a: nat, b: nat, c: nat, d: nat, e: Edge): nat {
    TriCount(Tri(a, b, c), e) + TriCount(Tri(a, c, d), e)
  }

  lemma BandSteps(p: nat, q: nat, n: nat, k: nat, e: Edge)
    requires 0 < k <= n
    ensures BufferCount(Band(p, q, n, k), e) == BufferCount(Band(p, q, n, k - 1), e)
              + QuadTrace(p + k - 1, p + Next(k - 1, n), q + Next(k - 1, n), q + k - 1, e)
    ensures BufferCount(BackBand(p, q, n, k), e) == BufferCount(BackBand(p, q, n, k - 1), e)
              + QuadTrace(p + Next(k - 1, n), p + k - 1, q + k - 1, q + Next(k - 1, n), e)
  {
    hide BufferCount, TriCount;
    BufferQuad(Band(p, q, n, k - 1), p + k - 1, p + Next(k - 1, n), q + Next(k - 1, n), q + k - 1, e);
    BufferQuad(BackBand(p, q, n, k - 1), p + Next(k - 1, n), p + k - 1, q + k - 1, q + Next(k - 1, n), e);
  }

  lemma TwoQuads(s: seq<nat>, a: nat, b: nat, c: nat, d: nat, f: nat, g: nat, h: nat, i: nat, t: seq<nat>, e: Edge)
    requires t == s + Quad(a, b, c, d) + Quad(f, g, h, i)
    ensures BufferCount(t, e) == BufferCount(s, e) + QuadTrace(a, b, c, d, e) + QuadTrace(f, g, h, i, e)
  {
    BufferQuad(s, a, b, c, d, e);
    BufferQuad(s + Quad(a, b, c, d), f, g, h, i, e);
  }

  lemma RimsStep(outStart: nat, inStart: nat, outEnd: nat, inEnd: nat, n: nat, k: nat, e: Edge)
    requires 0 < k <= n
    ensures var i, next := k - 1, Next(k - 1, n);
      BufferCount(Rims(outStart, inStart, outEnd, inEnd, n, k), e) ==
      BufferCount(Rims(outStart, inStart, outEnd, inEnd, n, k - 1), e)
      + QuadTrace(outStart + next, outStart + i, inStart + i, inStart + next, e)
      + QuadTrace(outEnd + i, outEnd + next, inEnd + next, inEnd + i, e)
  {
    hide BufferCount, QuadTrace;
    var i, next := k - 1, Next(k - 1, n);
    TwoQuads(Rims(outStart, inStart, outEnd, inEnd, n, k - 1),
             outStart + next, outStart + i, inStart + i, inStart + next,
             outEnd + i, outEnd + next, inEnd + next, inEnd + i, Rims(outStart, inStart, outEnd, inEnd, n, k), e);
  }

  lemma {:induction false} RimsBelow(outStart: nat, inStart: nat, outEnd: nat, inEnd: nat, n: nat, k: nat, limit: nat)
    requires k <= n && outStart + n <= limit && inStart + n <= limit && outEnd + n <= limit && inEnd + n <= limit
    ensures IndicesBelow(Rims(outStart, inStart, outEnd, inEnd, n, k), limit)
  {
    if k > 0 { RimsBelow(outStart, inStart, outEnd, inEnd, n, k - 1, limit); }
  }

  lemma {:induction false} BandBelow(p: nat, q: nat, n: nat, k: nat, limit: nat)
    requires k <= n && p + n <= limit && q + n <= limit
    ensures IndicesBelow(Band(p, q, n, k), limit) && IndicesBelow(BackBand(p, q, n, k), limit)
  {
    if k > 0 { BandBelow(p, q, n, k - 1, limit); }
  }

  lemma {:induction false} BandTriples(p: nat, q: nat, n: nat, k: nat)
    requires k <= n
    ensures |Band(p, q, n, k)| % 3 == 0 && |BackBand(p, q, n, k)| % 3 == 0
  {
    if k > 0 { BandTriples(p, q, n, k - 1); }
  }

  lemma {:induction false} CapsBelow(cap: seq<Tri>, first: nat, last: nat, n: nat, k: nat, limit: nat)
    requires k <= |cap| && (forall i :: 0 <= i < |cap| ==> cap[i].a < n && cap[i].b < n && cap[i].c < n)
    requires first + n <= limit && last + n <= limit
    ensures IndicesBelow(Caps(cap, first, last, k), limit)
  {
    if k > 0 { CapsBelow(cap, first, last, n, k - 1, limit); }
  }

  lemma BandAbove(p: nat, q: nat, n: nat, e: Edge)
    requires (e.tail < p || p + n <= e.tail) && (e.tail < q || q + n <= e.tail)
    ensures BufferCount(Band(p, q, n, n), e) == 0 && BufferCount(BackBand(p, q, n, n), e) == 0
  {
    BandCount(p, q, n, n, e);
    BackBandCount(p, q, n, n, e);
    StripOutside(LoopAt(p, n), LoopAt(q, n), NoFlips(n), n, e);
    StripOutside(LoopAt(q, n), LoopAt(p, n), NoFlips(n), n, e);
  }

  /** The first outward segment crosses the edge between its first two vertices once, forwards. */
  lemma FirstEdge(q: nat, n: nat)
    requires 3 <= n <= q
    ensures BufferCount(Band(0, q, n, n), Edge(0, 1)) == 1 && BufferCount(Band(0, q, n, n), Edge(1, 0)) == 0
  {
    var p, r := LoopAt(0, n), LoopAt(q, n);
    BandCount(0, q, n, n, Edge(0, 1));
    BandCount(0, q, n, n, Edge(1, 0));
    StripCounts(p, r, NoFlips(n), n, false, 0, false, 1);
    StripCounts(p, r, NoFlips(n), n, false, 1, false, 0);
  }

  lemma {:induction false} RimsTriples(outStart: nat, inStart: nat, outEnd: nat, inEnd: nat, n: nat, k: nat)
    requires k <= n
    ensures |Rims(outStart, inStart, outEnd, inEnd, n, k)| % 3 == 0
  {
    if k > 0 { RimsTriples(outStart, inStart, outEnd, inEnd, n, k - 1); }
  }

  lemma {:induction false} CapsLength(cap: seq<Tri>, first: nat, last: nat, k: nat)
    requires k <= |cap|
    ensures |Caps(cap, first, last, k)| == 6 * k
  {
    if k > 0 { CapsLength(cap, first, last, k - 1); }
  }
}
