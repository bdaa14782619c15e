/**
 The index-buffer fragments the prism, sweep and loft builders share, and the edges each
 fragment traverses.
 */
module MeshIndices {
  import opened MeshTopology

  /** Two triangles for the quad `a`, `b`, `c`, `d`. */
  function Quad(a: nat, b: nat, c: nat, d: nat): seq<nat> {
    [a, b, c, a, c, d]
  }

  /** The first `k` outward side quads between the rings that start at vertices `p` and `q`. */
  function Band(p: nat, q: nat, n: nat, k: nat): seq<nat>
    requires k <= n
  {
    if k == 0 then [] else
      Band(p, q, n, k - 1) + Quad(p + k - 1, p + Next(k - 1, n), q + Next(k - 1, n), q + k - 1)
  }

  /** The same quads seen from the other side. */
  function BackBand(p: nat, q: nat, n: nat, k: nat): seq<nat>
    requires k <= n
  {
    if k == 0 then [] else
      BackBand(p, q, n, k - 1) + Quad(p + Next(k - 1, n), p + k - 1, q + k - 1, q + Next(k - 1, n))
  }

  /** Both end caps: each cap triangle inside out at vertex `first` and upright at `last`. */
  function Caps(cap: seq<Tri>, first: nat, last: nat, k: nat): seq<nat>
    requires k <= |cap|
  {
    if k == 0 then [] else
      var t := cap[k - 1];
      Caps(cap, first, last, k - 1) + [first + t.a, first + t.c, first + t.b] + [last + t.a, last + t.b, last + t.c]
  }

  function Shifted(ts: seq<Tri>, base: nat): (r: seq<Tri>)
    ensures |r| == |ts|
  {
    if ts == [] then [] else
      var t := ts[|ts| - 1];
      Shifted(ts[..|ts| - 1], base) + [Tri(base + t.a, base + t.b, base + t.c)]
  }

  function LoopAt(base: nat, n: nat): (loop: seq<nat>)
    ensures |loop| == n && forall i :: 0 <= i < n ==> loop[i] == base + i
  {
    seq(n, (i: nat) => base + i)
  }

  function NoFlips(n: nat): (flips: seq<bool>)
    ensures |flips| == n && forall i :: 0 <= i < n ==> !flips[i]
  {
    seq(n, i => false)
  }

  ghost predicate IndicesBelow(indices: seq<nat>, n: nat) {
    |indices| % 3 == 0 && forall k :: 0 <= k < |indices| ==> indices[k] < n
  }

  lemma BufferQuad(s: seq<nat>, a: nat, b: nat, c: nat, d: nat, e: Edge)
    ensures BufferCount(s + Quad(a, b, c, d), e) ==
            BufferCount(s, e) + TriCount(Tri(a, b, c), e) + TriCount(Tri(a, c, d), e)
  {
    assert s + Quad(a, b, c, d) == s + [a, b, c] + [a, c, d];
    BufferTri(s, a, b, c, e);
    BufferTri(s + [a, b, c], a, c, d, e);
  }

  lemma {:induction false} BandCount(p: nat, q: nat, n: nat, k: nat, e: Edge)
    requires k <= n
    ensures BufferCount(Band(p, q, n, k), e) == StripCount(LoopAt(p, n), LoopAt(q, n), NoFlips(n), k, e)
  {
    hide BufferCount, TriCount;
    EmptyBuffer(e);
    if k > 0 {
      BandCount(p, q, n, k - 1, e);
      BufferQuad(Band(p, q, n, k - 1), p + k - 1, p + Next(k - 1, n), q + Next(k - 1, n), q + k - 1, e);
    }
  }

  /** Seen from the other side, the strip runs from the second ring to the first. */
  lemma {:induction false} BackBandCount(p: nat, q: nat, n: nat, k: nat, e: Edge)
    requires k <= n
    ensures BufferCount(BackBand(p, q, n, k), e) == StripCount(LoopAt(q, n), LoopAt(p, n), NoFlips(n), k, e)
  {
    hide BufferCount;
    EmptyBuffer(e);
    if k > 0 {
      BackBandCount(p, q, n, k - 1, e);
      BufferQuad(BackBand(p, q, n, k - 1), p + Next(k - 1, n), p + k - 1, q + k - 1, q + Next(k - 1, n), e);
    }
  }

  lemma ShiftedStep(ts: seq<Tri>, base: nat, k: nat, e: Edge)
    requires 0 < k <= |ts|
    ensures var t := ts[k - 1];
            Count(Shifted(ts[..k], base), e) ==
            Count(Shifted(ts[..k - 1], base), e) + TriCount(Tri(base + t.a, base + t.b, base + t.c), e)
  {
    var t := ts[k - 1];
    assert ts[..k][..k - 1] == ts[..k - 1];
    CountOne(Shifted(ts[..k - 1], base), Tri(base + t.a, base + t.b, base + t.c), e);
  }

  lemma EmptyCap(cap: seq<Tri>, first: nat, last: nat)
    ensures Caps(cap, first, last, 0) == [] && Shifted(cap[..0], first) == [] && Shifted(cap[..0], last) == []
  {
  }

  lemma {:induction false} CapsCount(cap: seq<Tri>, first: nat, last: nat, k: nat, e: Edge)
    requires k <= |cap|
    ensures BufferCount(Caps(cap, first, last, k), e) ==
            Count(Shifted(cap[..k], first), Rev(e)) + Count(Shifted(cap[..k], last), e)
  {
    hide BufferCount, Count, Shifted;
    EmptyBuffer(e);
    EmptyBuffer(Rev(e));
    EmptyCap(cap, first, last);
    if k > 0 {
      var s, t := Caps(cap, first, last, k - 1), cap[k - 1];
      var bottom, top := Tri(first + t.a, first + t.c, first + t.b), Tri(last + t.a, last + t.b, last + t.c);
      CapsCount(cap, first, last, k - 1, e);
      BufferTri(s, bottom.a, bottom.b, bottom.c, e);
      BufferTri(s + [bottom.a, bottom.b, bottom.c], top.a, top.b, top.c, e);
      ShiftedStep(cap, first, k, Rev(e));
      ShiftedStep(cap, last, k, e);
    }
  }

  lemma {:induction false} ShiftedCount(ts: seq<Tri>, base: nat, x: nat, y: nat)
    ensures Count(Shifted(ts, base), Edge(base + x, base + y)) == Count(ts, Edge(x, y))
  {
    if ts != [] {
      ShiftedCount(ts[..|ts| - 1], base, x, y);
      var s := Shifted(ts, base);
      assert s[..|s| - 1] == Shifted(ts[..|ts| - 1], base);
    }
  }

  lemma {:induction false} ShiftedBelow(ts: seq<Tri>, base: nat, e: Edge)
    requires e.tail < base || e.head < base
    ensures Count(Shifted(ts, base), e) == 0
  {
    if ts != [] {
      ShiftedBelow(ts[..|ts| - 1], base, e);
      var s := Shifted(ts, base);
      assert s[..|s| - 1] == Shifted(ts[..|ts| - 1], base);
    }
  }

  lemma CycleOfRing(base: nat, n: nat, e: Edge)
    ensures CycleHas(LoopAt(base, n), e) <==> base <= e.tail < base + n && e.head == base + Next(e.tail - base, n)
  {
    var loop := LoopAt(base, n);
    if base <= e.tail < base + n && e.head == base + Next(e.tail - base, n) {
      var i := e.tail - base;
      assert e == Edge(loop[i], loop[Next(i, n)]);
    }
  }

  /** A disc over the first ring stays a disc when moved to another ring. */
  lemma ShiftedDisc(ts: seq<Tri>, n: nat, base: nat)
    requires Disc(LoopAt(0, n), ts)
    ensures Disc(LoopAt(base, n), Shifted(ts, base))
  {
    var loop, moved := LoopAt(base, n), Shifted(ts, base);
    forall e: Edge ensures DiscEdge(loop, moved, e) {
      ShiftedEdge(ts, n, base, e);
    }
  }

  lemma ShiftedEdge(ts: seq<Tri>, n: nat, base: nat, e: Edge)
    requires Disc(LoopAt(0, n), ts)
    ensures DiscEdge(LoopAt(base, n), Shifted(ts, base), e)
  {
    CycleOfRing(base, n, e);
    CycleOfRing(base, n, Rev(e));
    if e.tail < base || e.head < base {
      ShiftedBelow(ts, base, e);
      ShiftedBelow(ts, base, Rev(e));
    } else {
      var f := Edge(e.tail - base, e.head - base);
      ShiftedCount(ts, base, f.tail, f.head);
      ShiftedCount(ts, base, f.head, f.tail);
      assert DiscEdge(LoopAt(0, n), ts, f);
      CycleOfRing(0, n, f);
      CycleOfRing(0, n, Rev(f));
      assert e == Edge(base + f.tail, base + f.head);
      InRing(base, n, e.tail);
      InRing(base, n, e.head);
      InRing(0, n, f.tail);
      InRing(0, n, f.head);
    }
  }

  lemma InRing(base: nat, n: nat, v: nat)
    ensures v in LoopAt(base, n) <==> base <= v < base + n
  {
    if base <= v < base + n {
      assert LoopAt(base, n)[v - base] == v;
    }
  }
}
