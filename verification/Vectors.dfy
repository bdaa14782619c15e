/** Vectors and local frames over exact reals. */
module Vectors {
  import opened Wrappers

  datatype Vec = Vec(x: real, y: real, z: real)

  /** A local frame; nothing is assumed of its axes. */
  datatype Frame = Frame(origin: Vec, xAxis: Vec, yAxis: Vec, zAxis: Vec)

  function Add(a: Vec, b: Vec): Vec {
    Vec(a.x + b.x, a.y + b.y, a.z + b.z)
  }

  function Subtract(a: Vec, b: Vec): Vec {
    Vec(a.x - b.x, a.y - b.y, a.z - b.z)
  }

  function Scale(a: Vec, k: real): Vec {
    Vec(a.x * k, a.y * k, a.z * k)
  }

  function Dot(a: Vec, b: Vec): real {
    a.x * b.x + a.y * b.y + a.z * b.z
  }

  function Cross(a: Vec, b: Vec): Vec {
    Vec(a.y * b.z - a.z * b.y, a.z * b.x - a.x * b.z, a.x * b.y - a.y * b.x)
  }

  /** The point with the given coordinates in a frame. */
  function PointIn(frame: Frame, x: real, y: real, z: real): Vec {
    Vec(frame.origin.x + frame.xAxis.x * x + frame.yAxis.x * y + frame.zAxis.x * z,
        frame.origin.y + frame.xAxis.y * x + frame.yAxis.y * y + frame.zAxis.y * z,
        frame.origin.z + frame.xAxis.z * x + frame.yAxis.z * y + frame.zAxis.z * z)
  }

  /** Linear combination of three axes. */
  function Combine(x: Vec, y: Vec, z: Vec, c: Vec): Vec {
    Vec(x.x * c.x + y.x * c.y + z.x * c.z, x.y * c.x + y.y * c.y + z.y * c.z, x.z * c.x + y.z * c.y + z.z * c.z)
  }

  /** The volume spanned by three vectors. */
  function Det(a: Vec, b: Vec, c: Vec): real {
    Dot(a, Cross(b, c))
  }

  // Products of sums are handled on bare reals, where the solver multiplies them out.

  lemma CombineReals(x1: real, x2: real, x3: real, y1: real, y2: real, y3: real, z1: real, z2: real, z3: real,
                     a: real, b: real, c: real, q1: real, q2: real, q3: real, l1: real, l2: real, l3: real)
    requires l1 == x1 * a + y1 * b + z1 * c && l2 == x2 * a + y2 * b + z2 * c && l3 == x3 * a + y3 * b + z3 * c
    ensures l1 * q1 + l2 * q2 + l3 * q3
         == a * (x1 * q1 + x2 * q2 + x3 * q3) + b * (y1 * q1 + y2 * q2 + y3 * q3) + c * (z1 * q1 + z2 * q2 + z3 * q3)
  {
  }

  /** The volume is linear in its first vector. */
  lemma DetLinear(x: Vec, y: Vec, z: Vec, c: Vec, m: Vec, n: Vec)
    ensures Det(Combine(x, y, z, c), m, n) == c.x * Det(x, m, n) + c.y * Det(y, m, n) + c.z * Det(z, m, n)
  {
    hide Cross;
    var q, l := Cross(m, n), Combine(x, y, z, c);
    CombineReals(x.x, x.y, x.z, y.x, y.y, y.z, z.x, z.y, z.z, c.x, c.y, c.z, q.x, q.y, q.z, l.x, l.y, l.z);
  }

  lemma SwapReals(a: real, b: real, c: real, d: real, e: real, f: real, g: real, h: real, i: real,
                  p: real, q: real, r: real, s: real, t: real, u: real)
    requires p == e * i - f * h && q == f * g - d * i && r == d * h - e * g
    requires s == b * i - c * h && t == c * g - a * i && u == a * h - b * g
    ensures a * p + b * q + c * r == -(d * s + e * t + f * u)
  {
  }

  lemma DetSwaps(x: Vec, y: Vec, z: Vec)
    ensures Det(x, y, z) == -Det(y, x, z)
  {
    var p, s := Cross(y, z), Cross(x, z);
    SwapReals(x.x, x.y, x.z, y.x, y.y, y.z, z.x, z.y, z.z, p.x, p.y, p.z, s.x, s.y, s.z);
  }

  lemma CyclicReals(a: real, b: real, c: real, d: real, e: real, f: real, g: real, h: real, i: real,
                    p: real, q: real, r: real, s: real, t: real, u: real)
    requires p == e * i - f * h && q == f * g - d * i && r == d * h - e * g
    requires s == h * c - i * b && t == i * a - g * c && u == g * b - h * a
    ensures a * p + b * q + c * r == d * s + e * t + f * u
  {
  }

  lemma DetIsCyclic(x: Vec, y: Vec, z: Vec)
    ensures Det(x, y, z) == Det(y, z, x)
  {
    var p, s := Cross(y, z), Cross(z, x);
    CyclicReals(x.x, x.y, x.z, y.x, y.y, y.z, z.x, z.y, z.z, p.x, p.y, p.z, s.x, s.y, s.z);
  }

  lemma AxisPair(u: Vec, v: Vec, x: Vec, y: Vec, z: Vec, c: Vec)
    ensures Det(u, Combine(x, y, z, c), v) == c.x * Det(x, v, u) + c.y * Det(y, v, u) + c.z * Det(z, v, u)
  {
    hide Det, Combine;
    DetIsCyclic(u, Combine(x, y, z, c), v);
    DetLinear(x, y, z, c, v, u);
  }

  /** The volumes of an axis with two further axes, repeated axes included. */
  lemma AxisVolumes(x: Vec, y: Vec, z: Vec)
    ensures Det(x, x, x) == 0.0 && Det(y, x, x) == 0.0 && Det(z, x, x) == 0.0
    ensures Det(x, x, y) == 0.0 && Det(y, x, y) == 0.0 && Det(z, x, y) == Det(x, y, z)
    ensures Det(x, x, z) == 0.0 && Det(y, x, z) == -Det(x, y, z) && Det(z, x, z) == 0.0
  {
    hide Det;
    DetSwaps(x, x, x);
    DetSwaps(x, x, y);
    DetSwaps(x, x, z);
    DetSwaps(y, y, x);
    DetSwaps(z, z, x);
    DetIsCyclic(x, x, y);
    DetIsCyclic(x, y, x);
    DetIsCyclic(x, x, z);
    DetIsCyclic(x, z, x);
    DetIsCyclic(y, y, x);
    DetIsCyclic(z, z, x);
    DetIsCyclic(y, x, y);
    DetIsCyclic(z, x, z);
    DetIsCyclic(x, y, z);
    DetIsCyclic(y, z, x);
    DetSwaps(x, y, z);
  }

  /** One axis against two combined vectors. */
  lemma DetOfAxis(x: Vec, y: Vec, z: Vec, b: Vec, c: Vec)
    ensures Det(x, Combine(x, y, z, b), Combine(x, y, z, c)) == Det(x, y, z) * (b.y * c.z - b.z * c.y)
  {
    hide Det, Combine;
    var m, n := Combine(x, y, z, b), Combine(x, y, z, c);
    DetIsCyclic(x, m, n);
    DetLinear(x, y, z, b, n, x);
    AxisPair(x, x, x, y, z, c);
    AxisPair(y, x, x, y, z, c);
    AxisPair(z, x, x, y, z, c);
    AxisVolumes(x, y, z);
    AxisReals(b.x, b.y, b.z, c.x, c.y, c.z, Det(x, y, z), Det(x, n, x), Det(y, n, x), Det(z, n, x));
  }

  lemma AxisReals(b1: real, b2: real, b3: real, c1: real, c2: real, c3: real, d: real, p: real, q: real, r: real)
    requires p == 0.0 && q == c3 * d && r == c2 * -d
    ensures b1 * p + b2 * q + b3 * r == d * (b2 * c3 - b3 * c2)
  {
  }

  lemma CombineTurned(x: Vec, y: Vec, z: Vec, c: Vec)
    ensures Combine(x, y, z, c) == Combine(y, z, x, Vec(c.y, c.z, c.x))
  {
  }

  /** Volumes measured in local coordinates scale by the volume of the axes. */
  lemma DetOfCombined(x: Vec, y: Vec, z: Vec, a: Vec, b: Vec, c: Vec)
    ensures Det(Combine(x, y, z, a), Combine(x, y, z, b), Combine(x, y, z, c)) == Det(x, y, z) * Det(a, b, c)
  {
    hide Det, Combine;
    DetLinear(x, y, z, a, Combine(x, y, z, b), Combine(x, y, z, c));
    var b', c' := Vec(b.y, b.z, b.x), Vec(c.y, c.z, c.x);
    CombineTurned(x, y, z, b);
    CombineTurned(x, y, z, c);
    CombineTurned(y, z, x, b');
    CombineTurned(y, z, x, c');
    DetOfAxis(x, y, z, b, c);
    DetOfAxis(y, z, x, b', c');
    DetOfAxis(z, x, y, Vec(b.z, b.x, b.y), Vec(c.z, c.x, c.y));
    DetIsCyclic(x, y, z);
    DetIsCyclic(y, z, x);
    DetExpanded(a, b, c);
    var d := Det(x, y, z);
    Distribute(d, a.x, b.y * c.z - b.z * c.y, a.y, b.z * c.x - b.x * c.z, a.z, b.x * c.y - b.y * c.x);
  }

  lemma DetExpanded(a: Vec, b: Vec, c: Vec)
    ensures Det(a, b, c)
              == a.x * (b.y * c.z - b.z * c.y) + a.y * (b.z * c.x - b.x * c.z) + a.z * (b.x * c.y - b.y * c.x)
  {
    var k := Cross(b, c);
    CyclicReals(a.x, a.y, a.z, b.x, b.y, b.z, c.x, c.y, c.z, k.x, k.y, k.z,
                c.y * a.z - c.z * a.y, c.z * a.x - c.x * a.z, c.x * a.y - c.y * a.x);
  }

  lemma Distribute(d: real, a: real, p: real, b: real, q: real, c: real, r: real)
    ensures a * (d * p) + b * (d * q) + c * (d * r) == d * (a * p + b * q + c * r)
  {
  }

  lemma DotExpanded(a: Vec, k: Vec)
    ensures Dot(a, k) == a.x * k.x + a.y * k.y + a.z * k.z
  {
  }

  lemma CrossParts(a: Vec, b: Vec)
    ensures var r := Cross(a, b);
      && r.x == a.y * b.z - a.z * b.y && r.y == a.z * b.x - a.x * b.z && r.z == a.x * b.y - a.y * b.x
  {
  }

  ghost predicate Orthonormal(x: Vec, y: Vec, z: Vec) {
    && Dot(x, x) == 1.0 && Dot(y, y) == 1.0 && Dot(z, z) == 1.0
    && Dot(x, y) == 0.0 && Dot(y, z) == 0.0 && Dot(x, z) == 0.0
  }

  lemma Lagrange(a: Vec, b: Vec)
    ensures Dot(Cross(a, b), Cross(a, b)) == Dot(a, a) * Dot(b, b) - Dot(a, b) * Dot(a, b)
  {
    var p := Cross(a, b);
    LagrangeReals(a.x, a.y, a.z, b.x, b.y, b.z, p.x, p.y, p.z, Dot(a, a), Dot(b, b), Dot(a, b));
  }

  lemma LagrangeReals(a: real, b: real, c: real, d: real, e: real, f: real, p: real, q: real, r: real, m: real,
                      n: real, o: real)
    requires p == b * f - c * e && q == c * d - a * f && r == a * e - b * d
    requires m == a * a + b * b + c * c && n == d * d + e * e + f * f && o == a * d + b * e + c * f
    ensures p * p + q * q + r * r == m * n - o * o
  {
  }

  lemma DoubleCrossReals(a: real, b: real, c: real, d: real, e: real, f: real, g: real, h: real, i: real,
                         q: real, r: real, m: real, n: real)
    requires q == f * g - d * i && r == d * h - e * g
    requires m == a * g + b * h + c * i && n == a * d + b * e + c * f
    ensures b * r - c * q == d * m - g * n
  {
  }

  lemma DoubleCrossX(x: Vec, y: Vec, z: Vec)
    ensures Cross(x, Cross(y, z)).x == y.x * Dot(x, z) - z.x * Dot(x, y)
  {
    var p := Cross(y, z);
    DoubleCrossReals(x.x, x.y, x.z, y.x, y.y, y.z, z.x, z.y, z.z, p.y, p.z, Dot(x, z), Dot(x, y));
  }

  /** Turning the coordinates of both vectors turns their products. */
  function Turned(a: Vec): Vec {
    Vec(a.y, a.z, a.x)
  }

  lemma TurnedProducts(a: Vec, b: Vec)
    ensures Cross(Turned(a), Turned(b)) == Turned(Cross(a, b)) && Dot(Turned(a), Turned(b)) == Dot(a, b)
  {
  }

  /** A vector orthogonal to two others is parallel to their cross product. */
  lemma DoubleCrossVanishes(x: Vec, y: Vec, z: Vec)
    requires Dot(x, y) == 0.0 && Dot(x, z) == 0.0
    ensures Cross(x, Cross(y, z)) == Vec(0.0, 0.0, 0.0)
  {
    hide Cross, Dot;
    var p, x', y', z' := Cross(y, z), Turned(x), Turned(y), Turned(z);
    DoubleCrossX(x, y, z);
    DoubleCrossX(x', y', z');
    DoubleCrossX(Turned(x'), Turned(y'), Turned(z'));
    TurnedProducts(y, z);
    TurnedProducts(x, p);
    TurnedProducts(x, y);
    TurnedProducts(x, z);
    TurnedProducts(y', z');
    TurnedProducts(x', Turned(p));
    TurnedProducts(x', y');
    TurnedProducts(x', z');
  }

  /** Orthonormal axes span a unit volume, whatever their handedness. */
  lemma OrthonormalVolume(x: Vec, y: Vec, z: Vec)
    requires Orthonormal(x, y, z)
    ensures Det(x, y, z) * Det(x, y, z) == 1.0
  {
    hide Dot, Cross;
    var p := Cross(y, z);
    Lagrange(y, z);
    UnitReals(Dot(y, y), Dot(z, z), Dot(y, z), Dot(p, p));
    Lagrange(x, p);
    DoubleCrossVanishes(x, y, z);
    ZeroDot();
    UnitReals(Dot(x, x), Dot(p, p), Dot(x, p), 0.0);
  }

  lemma ZeroDot()
    ensures Dot(Vec(0.0, 0.0, 0.0), Vec(0.0, 0.0, 0.0)) == 0.0
  {
  }

  /** Between unit vectors, the two squared products of a pair add up to one. */
  lemma UnitReals(a: real, b: real, c: real, d: real)
    requires a == 1.0 && b == 1.0 && d == a * b - c * c
    ensures d == 1.0 - c * c
    ensures c == 0.0 ==> d == 1.0
  {
  }

  // ----- Quotients and products -----

  /** A quotient, known by what it multiplies to. */
  function Share(a: real, b: real): (share: real)
    requires b != 0.0
    ensures share * b == a
  {
    a / b
  }

  /** A product, named so that proofs can treat it as a whole. */
  function Mul(a: real, b: real): real {
    a * b
  }

  lemma MulSquare(x: real, length: real, d: real)
    requires Mul(x, length) == d
    ensures Mul(d, d) == Mul(Mul(x, x), Mul(length, length))
  {
    calc {
      d * d;
      (x * length) * d;
      x * (length * d);
      x * (length * (x * length));
      (x * x) * (length * length);
    }
  }

  lemma MulOver(a: real, b: real, c: real)
    ensures Mul(a + b, c) == Mul(a, c) + Mul(b, c)
  {
  }

  lemma MulPositive(a: real, b: real)
    requires a > 0.0 && b > 0.0
    ensures Mul(a, b) > 0.0
  {
  }

  lemma MulOne(a: real, b: real)
    requires Mul(a, b) == b && b > 0.0
    ensures a == 1.0
  {
    assert (a - 1.0) * b == 0.0;
  }

  function Magnitude(x: real): real {
    if x < 0.0 then -x else x
  }

  // ----- Directions -----

  type Length = Vec -> real

  const SHORTEST: real := 0.000000000001

  /** The direction of a vector that is long enough to have one. */
  function UnitOf(v: Vec, length: Length): Option<Vec> {
    var l := length(v);
    if l <= SHORTEST then None else Some(Vec(Share(v.x, l), Share(v.y, l), Share(v.z, l)))
  }

  /** The given length is the true one. */
  ghost predicate IsTrue(length: Length) {
    forall v: Vec :: length(v) >= 0.0 && Mul(length(v), length(v)) == Dot(v, v)
  }

  lemma UnitIsUnit(v: Vec, length: Length)
    requires IsTrue(length) && UnitOf(v, length).Some?
    ensures Dot(UnitOf(v, length).value, UnitOf(v, length).value) == 1.0
  {
    hide Share;
    var l, u := length(v), UnitOf(v, length).value;
    UnitReals3(v.x, v.y, v.z, l, u.x, u.y, u.z);
  }

  lemma UnitReals3(a: real, b: real, c: real, l: real, x: real, y: real, z: real)
    requires l > 0.0 && Mul(x, l) == a && Mul(y, l) == b && Mul(z, l) == c
    requires Mul(l, l) == Mul(a, a) + Mul(b, b) + Mul(c, c)
    ensures Mul(x, x) + Mul(y, y) + Mul(z, z) == 1.0
  {
    hide Mul;
    MulSquare(x, l, a);
    MulSquare(y, l, b);
    MulSquare(z, l, c);
    MulOver(Mul(x, x), Mul(y, y), Mul(l, l));
    MulOver(Mul(x, x) + Mul(y, y), Mul(z, z), Mul(l, l));
    MulPositive(l, l);
    MulOne(Mul(x, x) + Mul(y, y) + Mul(z, z), Mul(l, l));
  }

  /** A vector across another has its direction across it. */
  lemma UnitAcross(v: Vec, t: Vec, length: Length)
    requires UnitOf(v, length).Some? && Dot(v, t) == 0.0
    ensures Dot(UnitOf(v, length).value, t) == 0.0 && Dot(t, UnitOf(v, length).value) == 0.0
  {
    hide Share;
    var l, u := length(v), UnitOf(v, length).value;
    AcrossReals(u.x, u.y, u.z, t.x, t.y, t.z, v.x, v.y, v.z, l);
  }

  lemma AcrossReals(x: real, y: real, z: real, p: real, q: real, r: real, a: real, b: real, c: real, l: real)
    requires x * l == a && y * l == b && z * l == c && a * p + b * q + c * r == 0.0 && l > 0.0
    ensures x * p + y * q + z * r == 0.0
  {
    assert (x * p + y * q + z * r) * l == a * p + b * q + c * r;
  }

  lemma CrossIsAcross(x: Vec, y: Vec)
    ensures Dot(Cross(x, y), x) == 0.0 && Dot(Cross(x, y), y) == 0.0
  {
    CrossReals(x.x, x.y, x.z, y.x, y.y, y.z);
  }

  lemma CrossReals(a: real, b: real, c: real, d: real, e: real, f: real)
    ensures (b * f - c * e) * a + (c * d - a * f) * b + (a * e - b * d) * c == 0.0
    ensures (b * f - c * e) * d + (c * d - a * f) * e + (a * e - b * d) * f == 0.0
  {
  }

  lemma ScaledAcross(a: Vec, d: Vec, s: real)
    requires Dot(a, d) == 0.0
    ensures Dot(Scale(a, s), d) == 0.0
  {
    ScaledReals(a.x, a.y, a.z, d.x, d.y, d.z, s);
  }

  lemma ScaledReals(x: real, y: real, z: real, p: real, q: real, r: real, s: real)
    requires x * p + y * q + z * r == 0.0
    ensures (x * s) * p + (y * s) * q + (z * s) * r == 0.0
  {
    assert (x * s) * p + (y * s) * q + (z * s) * r == s * (x * p + y * q + z * r);
  }
}
