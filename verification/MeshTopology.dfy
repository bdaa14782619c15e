/**
 Oriented triangle surfaces, as every mesh builder of the SDK produces them: a flat
 index buffer read three indices at a time. A surface is closed and consistently
 oriented when each directed edge occurs once and its reverse occurs once.

 The module proves the combinatorics shared by prisms, sweeps, lofts and welds: strips of
 quads between consecutive loops of vertices, closed by two caps (a tube) or by joining
 the last loop to the first (a ring).
 */
module MeshTopology {

  datatype Tri = Tri(a: nat, b: nat, c: nat)

  datatype Edge = Edge(tail: nat, head: nat)

  function Rev(e: Edge): Edge {
    Edge(e.head, e.tail)
  }

  /** How often a triangle traverses a directed edge. */
  function TriCount(t: Tri, e: Edge): nat {
    (if e == Edge(t.a, t.b) then 1 else 0) + (if e == Edge(t.b, t.c) then 1 else 0)
        + (if e == Edge(t.c, t.a) then 1 else 0)
  }

  function Count(ts: seq<Tri>, e: Edge): nat {
    if ts == [] then 0 else Count(ts[..|ts| - 1], e) + TriCount(ts[|ts| - 1], e)
  }

  lemma {:induction false} CountConcat(s: seq<Tri>, t: seq<Tri>, e: Edge)
    ensures Count(s + t, e) == Count(s, e) + Count(t, e)
  {
    if t == [] {
      assert s + t == s;
    } else {
      CountConcat(s, t[..|t| - 1], e);
      assert (s + t)[..|s + t| - 1] == s + t[..|t| - 1];
    }
  }

  lemma CountOne(s: seq<Tri>, t: Tri, e: Edge)
    ensures Count(s + [t], e) == Count(s, e) + TriCount(t, e)
  {
    assert (s + [t])[..|s + [t]| - 1] == s;
  }

  /** How often an index buffer, read three indices at a time, traverses a directed edge. */
  function BufferCount(indices: seq<nat>, e: Edge): nat {
    var n := |indices|;
    if n < 3 then 0
    else BufferCount(indices[..n - 3], e) + TriCount(Tri(indices[n - 3], indices[n - 2], indices[n - 1]), e)
  }

  lemma EmptyBuffer(e: Edge)
    ensures BufferCount([], e) == 0 && Count([], e) == 0
  {
  }

  lemma BufferTri(indices: seq<nat>, a: nat, b: nat, c: nat, e: Edge)
    ensures BufferCount(indices + [a, b, c], e) == BufferCount(indices, e) + TriCount(Tri(a, b, c), e)
  {
    var s := indices + [a, b, c];
    assert s[..|s| - 3] == indices;
  }

  lemma {:induction false} BufferConcat(s: seq<nat>, t: seq<nat>, e: Edge)
    requires |t| % 3 == 0
    ensures BufferCount(s + t, e) == BufferCount(s, e) + BufferCount(t, e)
  {
    if t == [] {
      assert s + t == s;
    } else {
      var n := |t|;
      BufferConcat(s, t[..n - 3], e);
      assert (s + t)[..|s + t| - 3] == s + t[..n - 3];
    }
  }

  /** Every directed edge occurs at most once and exactly as often as its reverse. */
  ghost predicate ClosedBuffer(indices: seq<nat>) {
    |indices| % 3 == 0 && forall e: Edge ::
        BufferCount(indices, e) <= 1 && BufferCount(indices, e) == BufferCount(indices, Rev(e))
  }

  /** A closed oriented surface whose indices all address one of `vertices` vertices. */
  ghost predicate ClosedSurface(indices: seq<nat>, vertices: nat) {
    ClosedBuffer(indices) && forall k :: 0 <= k < |indices| ==> indices[k] < vertices
  }

  // ----- Loops of vertices -----

  function Next(i: nat, n: nat): nat {
    if i + 1 == n then 0 else i + 1
  }

  ghost predicate Distinct(loop: seq<nat>) {
    forall i, j :: 0 <= i < j < |loop| ==> loop[i] != loop[j]
  }

  ghost predicate CycleHas(loop: seq<nat>, e: Edge) {
    exists i :: 0 <= i < |loop| && e == Edge(loop[i], loop[Next(i, |loop|)])
  }

  /**
   `ts` triangulates a disc bounded by `loop`: each cycle edge occurs once and only
   forwards, every other edge as often as its reverse, none more than once, and no vertex
   lies outside the loop.
   */
  ghost predicate Disc(loop: seq<nat>, ts: seq<Tri>) {
    forall e: Edge :: DiscEdge(loop, ts, e)
  }

  ghost predicate DiscEdge(loop: seq<nat>, ts: seq<Tri>, e: Edge) {
    && Count(ts, e) <= 1
    && (Count(ts, e) > 0 ==> e.tail in loop && e.head in loop)
    && (CycleHas(loop, e) ==> Count(ts, e) == 1 && Count(ts, Rev(e)) == 0)
    && (!CycleHas(loop, e) && !CycleHas(loop, Rev(e)) ==> Count(ts, e) == Count(ts, Rev(e)))
  }

  // ----- Strips of quads between two loops -----

  /** The two triangles of quad `i` between loops `p` and `q`; `flip` selects the diagonal. */
  function QuadCount(p: seq<nat>, q: seq<nat>, i: nat, flip: bool, e: Edge): nat
    requires i < |p| == |q|
  {
    var j := Next(i, |p|);
    if flip then TriCount(Tri(p[j], q[j], q[i]), e) + TriCount(Tri(p[j], q[i], p[i]), e)
    else TriCount(Tri(p[i], p[j], q[j]), e) + TriCount(Tri(p[i], q[j], q[i]), e)
  }

  /** How often the first `k` quads of a strip traverse an edge. */
  function StripCount(p: seq<nat>, q: seq<nat>, flips: seq<bool>, k: nat, e: Edge): nat
    requires k <= |p| == |q| == |flips|
  {
    if k == 0 then 0 else StripCount(p, q, flips, k - 1, e) + QuadCount(p, q, k - 1, flips[k - 1], e)
  }

  ghost function Label(p: seq<nat>, q: seq<nat>, second: bool, i: nat): nat
    requires i < |p| == |q|
  {
    if second then q[i] else p[i]
  }

  /** How often the first `k` quads of a strip traverse one edge, by position on the loops. */
  ghost function StripAt(n: nat, flips: seq<bool>, k: nat, s: bool, x: nat, t: bool, y: nat): nat
    requires x < n && y < n && |flips| == n
  {
    if !s && !t then (if y == Next(x, n) && x < k then 1 else 0)
    else if s && t then (if x == Next(y, n) && y < k then 1 else 0)
    else if !s && t then
      // p[x] -> q[y]: the far side of a quad, or its diagonal
      (if x == y && (if x == 0 then n - 1 else x - 1) < k then 1 else 0)
      + (if y == Next(x, n) && x < k && !flips[x] then 1 else 0)
      + (if x == Next(y, n) && y < k && flips[y] then 1 else 0)
    else
      // q[x] -> p[y]: the near side of a quad, or its diagonal
      (if x == y && x < k then 1 else 0)
      + (if x == Next(y, n) && y < k && !flips[y] then 1 else 0)
      + (if y == Next(x, n) && x < k && flips[x] then 1 else 0)
  }

  lemma {:induction false} StripCounts(p: seq<nat>, q: seq<nat>, flips: seq<bool>, k: nat, s: bool, x: nat, t: bool,
                                       y: nat)
    requires 3 <= |p| == |q| == |flips| && k <= |p| && x < |p| && y < |p|
    requires Distinct(p + q)
    ensures StripCount(p, q, flips, k, Edge(Label(p, q, s, x), Label(p, q, t, y)))
         == StripAt(|p|, flips, k, s, x, t, y)
  {
    if k > 0 {
      StripCounts(p, q, flips, k - 1, s, x, t, y);
      var n, i, j := |p|, k - 1, Next(k - 1, |p|);
      var e := Edge(Label(p, q, s, x), Label(p, q, t, y));
      LabelsDiffer(p, q, i, s, x);
      LabelsDiffer(p, q, i, t, y);
      LabelsDiffer(p, q, j, s, x);
      LabelsDiffer(p, q, j, t, y);
    }
  }

  lemma LabelsDiffer(p: seq<nat>, q: seq<nat>, i: nat, s: bool, x: nat)
    requires i < |p| == |q| && x < |p|
    requires Distinct(p + q)
    ensures Label(p, q, s, x) == p[i] <==> !s && x == i
    ensures Label(p, q, s, x) == q[i] <==> s && x == i
  {
    var w := p + q;
    assert w[i] == p[i] && w[|p| + i] == q[i];
    assert w[x] == p[x] && w[|p| + x] == q[x];
  }

  lemma {:induction false} StripOutside(p: seq<nat>, q: seq<nat>, flips: seq<bool>, k: nat, e: Edge)
    requires k <= |p| == |q| == |flips|
    requires (e.tail !in p && e.tail !in q) || (e.head !in p && e.head !in q)
    ensures StripCount(p, q, flips, k, e) == 0
  {
    if k > 0 {
      StripOutside(p, q, flips, k - 1, e);
      assert p[k - 1] in p && q[k - 1] in q && p[Next(k - 1, |p|)] in p && q[Next(k - 1, |p|)] in q;
    }
  }

  // ----- Chains of loops -----

  ghost predicate Sized(loops: seq<seq<nat>>, n: nat) {
    forall l :: 0 <= l < |loops| ==> |loops[l]| == n
  }

  /** At least two loops of `n` vertices each, no vertex used twice. */
  ghost predicate Loops(loops: seq<seq<nat>>, n: nat) {
    && |loops| >= 2 && n >= 3
    && Sized(loops, n)
    && (forall l, i, m, j | 0 <= l < |loops| && 0 <= m < |loops| && 0 <= i < n && 0 <= j < n ::
          loops[l][i] == loops[m][j] ==> l == m && i == j)
  }

  /** How often the first `m` strips of a chain of loops traverse an edge. */
  ghost function ChainCount(loops: seq<seq<nat>>, n: nat, flips: seq<bool>, m: nat, e: Edge): nat
    requires Sized(loops, n) && |flips| == n && m < |loops|
  {
    if m == 0 then 0 else ChainCount(loops, n, flips, m - 1, e) + StripCount(loops[m - 1], loops[m], flips, n, e)
  }

  ghost function ChainAt(n: nat, flips: seq<bool>, m: nat, l: nat, x: nat, k: nat, y: nat): nat
    requires x < n && y < n && |flips| == n
  {
    if l == k then (if y == Next(x, n) && l < m then 1 else 0) + (if x == Next(y, n) && 0 < l <= m then 1 else 0)
    else if k == l + 1 && k <= m then StripAt(n, flips, n, false, x, true, y)
    else if l == k + 1 && l <= m then StripAt(n, flips, n, true, x, false, y)
    else 0
  }

  lemma LoopsAdjacent(loops: seq<seq<nat>>, n: nat, l: nat, k: nat)
    requires Loops(loops, n) && l < |loops| && k < |loops| && l != k
    ensures Distinct(loops[l] + loops[k])
  {
    var w := loops[l] + loops[k];
    forall i, j | 0 <= i < j < |w| ensures w[i] != w[j] {
      assert w[i] == if i < n then loops[l][i] else loops[k][i - n];
      assert w[j] == if j < n then loops[l][j] else loops[k][j - n];
    }
  }

  lemma LoopsApart(loops: seq<seq<nat>>, n: nat, l: nat, x: nat, k: nat)
    requires Loops(loops, n) && l < |loops| && k < |loops| && l != k && x < n
    ensures loops[l][x] !in loops[k]
  {
  }

  /** One strip of a chain, seen from any two vertices of the chain. */
  lemma StripOfChain(loops: seq<seq<nat>>, n: nat, flips: seq<bool>, a: nat, b: nat, l: nat, x: nat, k: nat, y: nat)
    requires Loops(loops, n) && |flips| == n && a < |loops| && b < |loops| && a != b
    requires l < |loops| && k < |loops| && x < n && y < n
    ensures StripCount(loops[a], loops[b], flips, n, Edge(loops[l][x], loops[k][y])) ==
            if (l == a || l == b) && (k == a || k == b) then StripAt(n, flips, n, l == b, x, k == b, y) else 0
  {
    var e := Edge(loops[l][x], loops[k][y]);
    LoopsAdjacent(loops, n, a, b);
    if (l == a || l == b) && (k == a || k == b) {
      StripCounts(loops[a], loops[b], flips, n, l == b, x, k == b, y);
    } else {
      if l != a && l != b {
        LoopsApart(loops, n, l, x, a);
        LoopsApart(loops, n, l, x, b);
      } else {
        LoopsApart(loops, n, k, y, a);
        LoopsApart(loops, n, k, y, b);
      }
      StripOutside(loops[a], loops[b], flips, n, e);
    }
  }

  lemma {:induction false} ChainCounts(loops: seq<seq<nat>>, n: nat, flips: seq<bool>, m: nat, l: nat, x: nat, k: nat,
                                       y: nat)
    requires Loops(loops, n) && |flips| == n && m < |loops|
    requires l < |loops| && k < |loops| && x < n && y < n
    ensures ChainCount(loops, n, flips, m, Edge(loops[l][x], loops[k][y])) == ChainAt(n, flips, m, l, x, k, y)
  {
    if m > 0 {
      ChainCounts(loops, n, flips, m - 1, l, x, k, y);
      StripOfChain(loops, n, flips, m - 1, m, l, x, k, y);
    }
  }

  lemma {:induction false} ChainOutside(loops: seq<seq<nat>>, n: nat, flips: seq<bool>, m: nat, e: Edge)
    requires Loops(loops, n) && |flips| == n && m < |loops|
    requires (forall l :: 0 <= l < |loops| ==> e.tail !in loops[l])
        || (forall l :: 0 <= l < |loops| ==> e.head !in loops[l])
    ensures ChainCount(loops, n, flips, m, e) == 0
  {
    if m > 0 {
      ChainOutside(loops, n, flips, m - 1, e);
      StripOutside(loops[m - 1], loops[m], flips, n, e);
    }
  }

  ghost predicate OnLoops(loops: seq<seq<nat>>, v: nat) {
    exists l :: 0 <= l < |loops| && v in loops[l]
  }

  lemma CycleAt(loops: seq<seq<nat>>, n: nat, l: nat, x: nat, k: nat, y: nat)
    requires Loops(loops, n) && l < |loops| && k < |loops| && x < n && y < n
    ensures CycleHas(loops[k], Edge(loops[l][x], loops[k][y])) <==> l == k && y == Next(x, n)
    ensures CycleHas(loops[k], Rev(Edge(loops[l][x], loops[k][y]))) <==> l == k && x == Next(y, n)
  {
    if l == k && y == Next(x, n) {
      assert Edge(loops[l][x], loops[k][y]) == Edge(loops[k][x], loops[k][Next(x, n)]);
    }
    if l == k && x == Next(y, n) {
      assert Rev(Edge(loops[l][x], loops[k][y])) == Edge(loops[k][y], loops[k][Next(y, n)]);
    }
  }

  /** How a disc traverses the edge from position `x` to position `y`, and its reverse. */
  ghost predicate DiscShape(n: nat, inside: bool, x: nat, y: nat, c: nat, d: nat)
    requires x < n && y < n
  {
    && c <= 1 && d <= 1
    && (!inside ==> c == 0 && d == 0)
    && (inside && y == Next(x, n) ==> c == 1 && d == 0)
    && (inside && x == Next(y, n) ==> c == 0 && d == 1)
    && (inside && y != Next(x, n) && x != Next(y, n) ==> c == d)
  }

  lemma DiscAt(loops: seq<seq<nat>>, n: nat, ts: seq<Tri>, c: nat, l: nat, x: nat, k: nat, y: nat)
    requires Loops(loops, n) && c < |loops| && Disc(loops[c], ts)
    requires l < |loops| && k < |loops| && x < n && y < n
    ensures var e := Edge(loops[l][x], loops[k][y]);
            DiscShape(n, l == c && k == c, x, y, Count(ts, e), Count(ts, Rev(e)))
  {
    var e := Edge(loops[l][x], loops[k][y]);
    if l != c { LoopsApart(loops, n, l, x, c); }
    if k != c { LoopsApart(loops, n, k, y, c); }
    CycleAt(loops, n, l, x, k, y);
    assert Rev(Rev(e)) == e;
    assert DiscEdge(loops[c], ts, e) && DiscEdge(loops[c], ts, Rev(e));
  }

  /** An edge of a tube and its reverse occur equally often, and at most once. */
  lemma TubeBalance(n: nat, flips: seq<bool>, m: nat, l: nat, x: nat, k: nat, y: nat, a: nat, a': nat, b: nat, b': nat)
    requires n >= 3 && |flips| == n && m >= 1 && l <= m && k <= m && x < n && y < n
    requires DiscShape(n, l == 0 && k == 0, x, y, a, a')
    requires DiscShape(n, l == m && k == m, x, y, b, b')
    ensures ChainAt(n, flips, m, l, x, k, y) + a' + b <= 1
    ensures ChainAt(n, flips, m, l, x, k, y) + a' + b == ChainAt(n, flips, m, k, y, l, x) + a + b'
  {
  }

  lemma RingBalance(n: nat, flips: seq<bool>, m: nat, l: nat, x: nat, k: nat, y: nat)
    requires n >= 3 && |flips| == n && m >= 2 && l <= m && k <= m && x < n && y < n
    ensures RingAt(n, flips, m, l, x, k, y) <= 1
    ensures RingAt(n, flips, m, l, x, k, y) == RingAt(n, flips, m, k, y, l, x)
  {
  }

  ghost function RingAt(n: nat, flips: seq<bool>, m: nat, l: nat, x: nat, k: nat, y: nat): nat
    requires x < n && y < n && |flips| == n
  {
    ChainAt(n, flips, m, l, x, k, y)
    + if (l == m || l == 0) && (k == m || k == 0) then StripAt(n, flips, n, l == 0, x, k == 0, y) else 0
  }

  lemma Locate(loops: seq<seq<nat>>, n: nat, v: nat) returns (l: nat, x: nat)
    requires Loops(loops, n) && OnLoops(loops, v)
    ensures l < |loops| && x < n && loops[l][x] == v
  {
    l :| 0 <= l < |loops| && v in loops[l];
    x :| 0 <= x < n && loops[l][x] == v;
  }

  ghost function TubeCount(loops: seq<seq<nat>>, n: nat, flips: seq<bool>, start: seq<Tri>, end: seq<Tri>, e: Edge): nat
    requires |loops| >= 1 && Sized(loops, n) && |flips| == n
  {
    ChainCount(loops, n, flips, |loops| - 1, e) + Count(start, Rev(e)) + Count(end, e)
  }

  ghost function RingCount(loops: seq<seq<nat>>, n: nat, flips: seq<bool>, e: Edge): nat
    requires |loops| >= 1 && Sized(loops, n) && |flips| == n
  {
    ChainCount(loops, n, flips, |loops| - 1, e) + StripCount(loops[|loops| - 1], loops[0], flips, n, e)
  }

  lemma TubeEdge(loops: seq<seq<nat>>, n: nat, flips: seq<bool>, start: seq<Tri>, end: seq<Tri>, e: Edge)
    requires Loops(loops, n) && |flips| == n
    requires Disc(loops[0], start) && Disc(loops[|loops| - 1], end)
    ensures TubeCount(loops, n, flips, start, end, e) <= 1
    ensures TubeCount(loops, n, flips, start, end, e) == TubeCount(loops, n, flips, start, end, Rev(e))
  {
    var m := |loops| - 1;
    assert Rev(Rev(e)) == e;
    assert DiscEdge(loops[0], start, e) && DiscEdge(loops[0], start, Rev(e));
    assert DiscEdge(loops[m], end, e) && DiscEdge(loops[m], end, Rev(e));
    if OnLoops(loops, e.tail) && OnLoops(loops, e.head) {
      var l, x := Locate(loops, n, e.tail);
      var k, y := Locate(loops, n, e.head);
      ChainCounts(loops, n, flips, m, l, x, k, y);
      ChainCounts(loops, n, flips, m, k, y, l, x);
      DiscAt(loops, n, start, 0, l, x, k, y);
      DiscAt(loops, n, end, m, l, x, k, y);
      TubeBalance(n, flips, m, l, x, k, y, Count(start, e), Count(start, Rev(e)), Count(end, e), Count(end, Rev(e)));
    } else {
      ChainOutside(loops, n, flips, m, e);
      ChainOutside(loops, n, flips, m, Rev(e));
    }
  }

  lemma RingEdge(loops: seq<seq<nat>>, n: nat, flips: seq<bool>, e: Edge)
    requires Loops(loops, n) && |flips| == n && |loops| >= 3
    ensures RingCount(loops, n, flips, e) <= 1
    ensures RingCount(loops, n, flips, e) == RingCount(loops, n, flips, Rev(e))
  {
    var m := |loops| - 1;
    if OnLoops(loops, e.tail) && OnLoops(loops, e.head) {
      var l, x := Locate(loops, n, e.tail);
      var k, y := Locate(loops, n, e.head);
      ChainCounts(loops, n, flips, m, l, x, k, y);
      ChainCounts(loops, n, flips, m, k, y, l, x);
      StripOfChain(loops, n, flips, m, 0, l, x, k, y);
      StripOfChain(loops, n, flips, m, 0, k, y, l, x);
      RingBalance(n, flips, m, l, x, k, y);
    } else {
      ChainOutside(loops, n, flips, m, e);
      ChainOutside(loops, n, flips, m, Rev(e));
      StripOutside(loops[m], loops[0], flips, n, e);
      StripOutside(loops[m], loops[0], flips, n, Rev(e));
    }
  }

  /**
   A chain of at least two loops, closed by a disc on its last loop and by a disc turned
   inside out on its first loop, is a closed oriented surface.
   */
  lemma TubeIsClosed(loops: seq<seq<nat>>, n: nat, flips: seq<bool>, start: seq<Tri>, end: seq<Tri>, indices: seq<nat>)
    requires Loops(loops, n) && |flips| == n
    requires Disc(loops[0], start) && Disc(loops[|loops| - 1], end)
    requires |indices| % 3 == 0
    requires forall e: Edge :: BufferCount(indices, e) == TubeCount(loops, n, flips, start, end, e)
    ensures ClosedBuffer(indices)
  {
    forall e: Edge ensures BufferCount(indices, e) <= 1 && BufferCount(indices, e) == BufferCount(indices, Rev(e)) {
      TubeEdge(loops, n, flips, start, end, e);
    }
  }

  /** A chain of at least three loops whose last loop is joined to its first is closed. */
  lemma RingIsClosed(loops: seq<seq<nat>>, n: nat, flips: seq<bool>, indices: seq<nat>)
    requires Loops(loops, n) && |flips| == n && |loops| >= 3
    requires |indices| % 3 == 0
    requires forall e: Edge :: BufferCount(indices, e) == RingCount(loops, n, flips, e)
    ensures ClosedBuffer(indices)
  {
    forall e: Edge ensures BufferCount(indices, e) <= 1 && BufferCount(indices, e) == BufferCount(indices, Rev(e)) {
      RingEdge(loops, n, flips, e);
    }
  }
}
